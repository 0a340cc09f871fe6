/**
 * Column resolution for the spreadsheet tools: `col_to_colidx` turns a column given as an
 * integer position, a header key, or spreadsheet letters (A = 0, Z = 25, AA = 26, any case)
 * into a 0-based position, or raises ValueError.
 */
module ColumnIndex {
  import opened Common
  import opened Text
  import opened Values

  /**
   * What `df.columns.get_loc(key)` gives: one position for a key that occurs once, several
   * positions (a slice or a mask in pandas, not an int) for a repeated key.
   */
  datatype Location = Position(index: int) | Positions(indices: seq<nat>)

  predicate IsAsciiLetter(c: char) { 'A' <= c <= 'Z' || 'a' <= c <= 'z' }

  predicate IsUpperLetter(c: char) { 'A' <= c <= 'Z' }

  predicate AllUpper(s: string) { forall k :: 0 <= k < |s| ==> IsUpperLetter(s[k]) }

  /** `s.isalpha()`: non-empty and made of letters (ASCII letters in this model). */
  predicate IsAlpha(s: string) { |s| > 0 && forall k :: 0 <= k < |s| ==> IsAsciiLetter(s[k]) }

  function UpperChar(c: char): char
  {
    if 'a' <= c <= 'z' then (c as int - 32) as char else c
  }

  /** `s.upper()` on ASCII letters. */
  function Upper(s: string): (r: string)
    ensures |r| == |s| && forall k :: 0 <= k < |s| ==> r[k] == UpperChar(s[k])
  {
    seq(|s|, k requires 0 <= k < |s| => UpperChar(s[k]))
  }

  /** The 1-based column number of upper-case letters, bijective base 26: A = 1, Z = 26, AA = 27. */
  function LettersValue(s: string): nat
    requires AllUpper(s)
  {
    if |s| == 0 then 0
    else LettersValue(s[..|s| - 1]) * 26 + (s[|s| - 1] as int - 'A' as int + 1)
  }

  function Letter(d: nat): char
    requires d < 26
  {
    ('A' as int + d) as char
  }

  /** The letters of column number `n` (openpyxl's `get_column_letter`), the inverse of `LettersValue`. */
  function ColumnLetters(n: nat): (s: string)
    requires n >= 1
    ensures |s| >= 1 && AllUpper(s)
  {
    if n <= 26 then [Letter(n - 1)] else ColumnLetters((n - 1) / 26) + [Letter((n - 1) % 26)]
  }

  /** Letters read back as the number they were written from. */
  lemma {:induction false} LettersRoundTrip(n: nat)
    requires n >= 1
    ensures LettersValue(ColumnLetters(n)) == n
  {
    var s := ColumnLetters(n);
    if n > 26 {
      var q, d := (n - 1) / 26, (n - 1) % 26;
      LettersRoundTrip(q);
      assert s == ColumnLetters(q) + [Letter(d)];
      assert s[..|s| - 1] == ColumnLetters(q);
      assert s[|s| - 1] as int - 'A' as int == d;
      assert n == q * 26 + d + 1;
    }
  }

  /** Every non-empty run of upper-case letters is the letters of its own number. */
  lemma {:induction false} ValueRoundTrip(s: string)
    requires |s| >= 1 && AllUpper(s)
    ensures LettersValue(s) >= 1 && ColumnLetters(LettersValue(s)) == s
  {
    var p := s[..|s| - 1];
    var d := s[|s| - 1] as int - 'A' as int;
    if |p| == 0 {
      assert s == [Letter(d)];
    } else {
      ValueRoundTrip(p);
      var vp := LettersValue(p);
      var v := vp * 26 + d + 1;
      assert LettersValue(s) == v;
      assert (v - 1) / 26 == vp && (v - 1) % 26 == d;
      assert s == p + [Letter(d)];
    }
  }

  /** Up to three letters give a number of at most 18278 (ZZZ). */
  lemma {:induction false} ShortLettersBounded(s: string)
    requires AllUpper(s) && |s| <= 3
    ensures LettersValue(s) <= 18278
  {
    if |s| > 0 {
      ShortLettersBounded(s[..|s| - 1]);
      if |s| == 1 {
        assert LettersValue(s[..0]) == 0;
      } else if |s| == 2 {
        assert LettersValue(s[..1]) <= 26 by { ShortLettersBounded(s[..1][..0]); }
      } else {
        assert LettersValue(s[..2]) <= 702 by {
          var t := s[..2];
          assert t[..1] == s[..1];
          ShortLettersBounded(t[..1]);
          assert LettersValue(t[..1]) <= 26 by { assert t[..1][..0] == []; }
        }
      }
    }
  }

  /** openpyxl's `column_index_from_string`: the 1-based number of one to three letters, A..ZZZ. */
  function ColumnIndexFromString(col: string): Result<nat>
  {
    if |col| > 3 || !AllUpper(col) then
      Err("'" + col + "' is not a valid column name. Column names are from A to ZZZ")
    else Ok(LettersValue(col))
  }

  /** The positions, in order, at which `key` occurs among the column labels. */
  function LabelPositions(columns: seq<Value>, key: Value): (r: seq<nat>)
    ensures forall t :: 0 <= t < |r| ==> r[t] < |columns| && columns[r[t]] == key
    ensures forall t, u :: 0 <= t < u < |r| ==> r[t] < r[u]
    ensures forall k :: 0 <= k < |columns| && columns[k] == key ==> k in r
  {
    if |columns| == 0 then []
    else
      var n := |columns| - 1;
      var rest := LabelPositions(columns[..n], key);
      if columns[n] == key then rest + [n] else rest
  }

  /** The column labels are pairwise distinct. */
  predicate UniqueLabels(columns: seq<Value>)
  {
    forall k, l :: 0 <= k < l < |columns| ==> columns[k] != columns[l]
  }

  function IntIndex(columns: seq<Value>, param: Value, i: int): Result<Location>
  {
    if 0 <= i < |columns| then Ok(Position(i))
    else Err("column index " + Show(param) + " out of range, should be between 0 and "
             + IntToString(|columns| - 1))
  }

  /**
   * `col_to_colidx`. Integers (and booleans, which Python counts as integers) must be a
   * position; a string is looked up as a key first, then read as column letters; anything
   * else raises. Every position returned lies within the columns.
   */
  function ColToColIdx(columns: seq<Value>, param: Value): (r: Result<Location>)
    ensures r.Ok? && r.value.Position? ==> 0 <= r.value.index < |columns|
    ensures r.Ok? && r.value.Positions? ==>
      param.VStr? && |r.value.indices| >= 2 && r.value.indices == LabelPositions(columns, param)
    ensures param.VInt? ==> (r.Ok? <==> 0 <= param.i < |columns|) && (r.Ok? ==> r.value == Position(param.i))
    ensures param.VStr? && |LabelPositions(columns, param)| == 1 ==>
      r == Ok(Position(LabelPositions(columns, param)[0]))
    ensures param.VStr? && |LabelPositions(columns, param)| >= 2 ==>
      r == Ok(Positions(LabelPositions(columns, param)))
    ensures param.VStr? && |LabelPositions(columns, param)| == 0 && IsAlpha(param.s) && |param.s| > 3 ==>
      r == Err("'" + Upper(param.s) + "' is not a valid column name. Column names are from A to ZZZ")
    ensures param.VStr? && |LabelPositions(columns, param)| == 0 && !IsAlpha(param.s) ==>
      r == Err("invalid column name: " + param.s)
    ensures !(param.VInt? || param.VBool? || param.VStr?) ==> r.Err?
  {
    match param
    case VInt(i) => IntIndex(columns, param, i)
    case VBool(b) => IntIndex(columns, param, if b then 1 else 0)
    case VStr(s) =>
      var hits := LabelPositions(columns, param);
      if |hits| == 1 then Ok(Position(hits[0]))
      else if |hits| > 1 then Ok(Positions(hits))
      else if IsAlpha(s) then
        match ColumnIndexFromString(Upper(s))
        case Err(e) => Err(e)
        case Ok(n) =>
          var idx := n - 1;
          if idx >= |columns| || idx < 0 then
            Err("column letter " + s + " out of range, should be between 0 and " + IntToString(|columns| - 1))
          else Ok(Position(idx))
      else Err("invalid column name: " + s)
    case _ => Err("invalid column parameter type: <class '" + TypeName(param) + "'>")
  }

  /**
   * A string that is no key but one to three letters resolves, in any case, to its letter
   * number minus one when that lies within the columns, and raises otherwise.
   */
  lemma LettersResolve(columns: seq<Value>, s: string)
    requires IsAlpha(s) && |s| <= 3 && |LabelPositions(columns, VStr(s))| == 0
    ensures AllUpper(Upper(s))
    ensures ColToColIdx(columns, VStr(s)).Ok? <==> LettersValue(Upper(s)) - 1 < |columns|
    ensures ColToColIdx(columns, VStr(s)).Ok? ==>
      ColToColIdx(columns, VStr(s)).value == Position(LettersValue(Upper(s)) - 1)
  {
    var u := Upper(s);
    assert AllUpper(u);
    ValueRoundTrip(u);
    assert ColumnIndexFromString(u) == Ok(LettersValue(u));
  }

  /** Letters are read case-insensitively: `s` and `s.upper()` resolve alike when neither is a key. */
  lemma LettersCaseInsensitive(columns: seq<Value>, s: string)
    requires IsAlpha(s)
    requires |LabelPositions(columns, VStr(s))| == 0 && |LabelPositions(columns, VStr(Upper(s)))| == 0
    ensures ColToColIdx(columns, VStr(s)).Ok? <==> ColToColIdx(columns, VStr(Upper(s))).Ok?
    ensures ColToColIdx(columns, VStr(s)).Ok? ==>
      ColToColIdx(columns, VStr(s)).value == ColToColIdx(columns, VStr(Upper(s))).value
  {
    assert Upper(Upper(s)) == Upper(s);
    assert IsAlpha(Upper(s));
  }

  lemma NoTextLabels(columns: seq<Value>, s: string)
    requires forall k :: 0 <= k < |columns| ==> !columns[k].VStr?
    ensures |LabelPositions(columns, VStr(s))| == 0
  {
  }

  /** Column A is position 0, Z is 25 and AA (written in lower case) is 26. */
  lemma LetterExamples(columns: seq<Value>)
    requires |columns| > 26
    requires forall k :: 0 <= k < |columns| ==> !columns[k].VStr?
    ensures ColToColIdx(columns, VStr("A")) == Ok(Position(0))
    ensures ColToColIdx(columns, VStr("Z")) == Ok(Position(25))
    ensures ColToColIdx(columns, VStr("aa")) == Ok(Position(26))
  {
    assert ColToColIdx(columns, VStr("A")) == Ok(Position(0)) by {
      NoTextLabels(columns, "A");
      assert Upper("A") == "A";
      assert LettersValue("A") == 1 by { assert "A"[..0] == []; }
      LettersResolve(columns, "A");
    }
    assert ColToColIdx(columns, VStr("Z")) == Ok(Position(25)) by {
      NoTextLabels(columns, "Z");
      assert Upper("Z") == "Z";
      assert LettersValue("Z") == 26 by { assert "Z"[..0] == []; }
      LettersResolve(columns, "Z");
    }
    assert ColToColIdx(columns, VStr("aa")) == Ok(Position(26)) by {
      NoTextLabels(columns, "aa");
      assert Upper("aa") == "AA";
      assert LettersValue("AA") == 27 by {
        assert "AA"[..1] == "A";
        assert LettersValue("A") == 1 by { assert "A"[..0] == []; }
      }
      LettersResolve(columns, "aa");
    }
  }

  /** A key found at two positions is a label that two columns share. */
  lemma TwoPositionsShareLabel(columns: seq<Value>, key: Value)
    ensures |LabelPositions(columns, key)| >= 2 ==> !UniqueLabels(columns)
  {
    var r := LabelPositions(columns, key);
    if |r| >= 2 {
      assert r[0] < r[1] && columns[r[0]] == columns[r[1]];
    }
  }

  /** A key that occurs at most once: with distinct labels no lookup finds two positions. */
  lemma UniqueLabelFoundOnce(columns: seq<Value>, key: Value)
    requires UniqueLabels(columns)
    ensures |LabelPositions(columns, key)| <= 1
  {
    TwoPositionsShareLabel(columns, key);
  }

  /** With distinct labels every successful resolution is a single position within the columns. */
  lemma UniqueLabelsGivePosition(columns: seq<Value>, param: Value)
    requires UniqueLabels(columns)
    ensures ColToColIdx(columns, param).Ok? ==>
      ColToColIdx(columns, param).value.Position?
      && 0 <= ColToColIdx(columns, param).value.index < |columns|
  {
    UniqueLabelFoundOnce(columns, param);
  }
}
