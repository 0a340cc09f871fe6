/** String helpers shared by the modules: substring occurrence, joining and decimal rendering. */
module Text {

  /** `pat` occurs in `text` starting at index `k`. */
  predicate OccursAt(text: string, pat: string, k: int)
  {
    0 <= k && k + |pat| <= |text| && text[k..k + |pat|] == pat
  }

  /** `pat` is a substring of `text` (Python's `pat in text`). */
  ghost predicate Contains(text: string, pat: string)
  {
    exists k :: OccursAt(text, pat, k)
  }

  /** An occurrence inside a slice is an occurrence in the whole text, shifted by the slice start. */
  lemma OccursInSlice(text: string, lo: int, hi: int, pat: string, k: int)
    requires 0 <= lo <= hi <= |text|
    requires OccursAt(text[lo..hi], pat, k)
    ensures OccursAt(text, pat, lo + k) && lo + k + |pat| <= hi
  {
    var s := text[lo..hi];
    assert |s| == hi - lo;
    forall t | 0 <= t < |pat| ensures text[lo + k + t] == pat[t] {
      assert s[k..k + |pat|][t] == pat[t];
    }
    assert text[lo + k..lo + k + |pat|] == pat;
  }

  /** With no occurrence of a non-empty `pat` starting in `[lo, hi)`, the slice `text[lo..hi]` does not contain it. */
  lemma NoneInSlice(text: string, pat: string, lo: int, hi: int)
    requires 0 <= lo <= hi <= |text| && |pat| > 0
    requires forall k :: lo <= k < hi ==> !OccursAt(text, pat, k)
    ensures !Contains(text[lo..hi], pat)
  {
    if Contains(text[lo..hi], pat) {
      var k :| OccursAt(text[lo..hi], pat, k);
      OccursInSlice(text, lo, hi, pat, k);
    }
  }

  /** A substring of a substring is a substring. */
  lemma ContainsTransitive(a: string, b: string, c: string)
    requires Contains(a, b) && Contains(b, c)
    ensures Contains(a, c)
  {
    var i :| OccursAt(a, b, i);
    var k :| OccursAt(b, c, k);
    assert a[i..i + |b|] == b;
    OccursInSlice(a, i, i + |b|, c, k);
  }

  /** Python's `sep.join(parts)`. */
  function Join(sep: string, parts: seq<string>): string
  {
    if |parts| == 0 then ""
    else if |parts| == 1 then parts[0]
    else parts[0] + sep + Join(sep, parts[1..])
  }

  /** Every joined part is a substring of the joined text. */
  lemma {:induction false} JoinContainsPart(sep: string, parts: seq<string>, k: nat)
    requires k < |parts|
    ensures Contains(Join(sep, parts), parts[k])
  {
    var j := Join(sep, parts);
    if |parts| == 1 {
      assert OccursAt(j, parts[k], 0);
    } else if k == 0 {
      assert j[0..|parts[0]|] == parts[0];
      assert OccursAt(j, parts[k], 0);
    } else {
      JoinContainsPart(sep, parts[1..], k - 1);
      var rest := Join(sep, parts[1..]);
      var p := |parts[0] + sep|;
      var i :| OccursAt(rest, parts[k], i);
      assert j == (parts[0] + sep) + rest;
      assert j[p + i..p + i + |parts[k]|] == rest[i..i + |parts[k]|];
      assert OccursAt(j, parts[k], p + i);
    }
  }

  /** Every part of a join stays a substring once the joined text is framed by a head and a tail. */
  lemma FramedJoinContainsParts(head: string, sep: string, parts: seq<string>, tail: string)
    ensures forall k :: 0 <= k < |parts| ==> Contains(head + Join(sep, parts) + tail, parts[k])
  {
    var body := Join(sep, parts);
    var whole := head + body + tail;
    forall k | 0 <= k < |parts| ensures Contains(whole, parts[k]) {
      JoinContainsPart(sep, parts, k);
      var i :| OccursAt(body, parts[k], i);
      assert whole[|head| + i..|head| + i + |parts[k]|] == body[i..i + |parts[k]|];
      assert OccursAt(whole, parts[k], |head| + i);
    }
  }

  /** An occurrence in `rest` is an occurrence in `pre + rest`, shifted by `|pre|`. */
  lemma OccursAfterPrefix(pre: string, rest: string, pat: string, k: int)
    requires OccursAt(rest, pat, k)
    ensures OccursAt(pre + rest, pat, |pre| + k)
  {
    assert (pre + rest)[|pre| + k..|pre| + k + |pat|] == rest[k..k + |pat|];
  }

  /** Where part `k` starts in `Join(sep, parts)`: the lengths of the earlier parts, each with its separator. */
  function JoinOffset(sep: string, parts: seq<string>, k: nat): nat
    requires k <= |parts|
  {
    if k == 0 then 0 else |parts[0]| + |sep| + JoinOffset(sep, parts[1..], k - 1)
  }

  /** The first part opens a join; with more parts, a separator follows it. */
  lemma JoinFirst(sep: string, parts: seq<string>)
    requires |parts| > 0
    ensures OccursAt(Join(sep, parts), parts[0], 0)
    ensures |parts| == 1 ==> |Join(sep, parts)| == |parts[0]|
    ensures |parts| > 1 ==>
      && OccursAt(Join(sep, parts), sep, |parts[0]|)
      && Join(sep, parts) == (parts[0] + sep) + Join(sep, parts[1..])
  {
    if |parts| > 1 {
      var j := Join(sep, parts);
      assert j[0..|parts[0]|] == parts[0];
      assert j[|parts[0]|..|parts[0]| + |sep|] == sep;
    }
  }

  /**
   * The layout of a join: part `k` starts at `JoinOffset(sep, parts, k)`; a separator follows
   * every part but the last, and the next part starts right after it; the last part ends the text.
   */
  lemma {:induction false} JoinLayout(sep: string, parts: seq<string>, k: nat)
    requires k < |parts|
    ensures OccursAt(Join(sep, parts), parts[k], JoinOffset(sep, parts, k))
    ensures k + 1 < |parts| ==>
      && OccursAt(Join(sep, parts), sep, JoinOffset(sep, parts, k) + |parts[k]|)
      && JoinOffset(sep, parts, k + 1) == JoinOffset(sep, parts, k) + |parts[k]| + |sep|
    ensures k + 1 == |parts| ==> |Join(sep, parts)| == JoinOffset(sep, parts, k) + |parts[k]|
  {
    JoinFirst(sep, parts);
    if k == 0 {
      if |parts| > 1 {
        assert JoinOffset(sep, parts[1..], 0) == 0;
      }
    } else {
      var pre, rest := parts[0] + sep, Join(sep, parts[1..]);
      var o := JoinOffset(sep, parts[1..], k - 1);
      JoinLayout(sep, parts[1..], k - 1);
      assert parts[1..][k - 1] == parts[k];
      OccursAfterPrefix(pre, rest, parts[k], o);
      if k + 1 < |parts| {
        OccursAfterPrefix(pre, rest, sep, o + |parts[k]|);
      }
    }
  }

  /** An occurrence in `body` is an occurrence in `head + body + tail`, shifted by `|head|`. */
  lemma OccursInFrame(head: string, body: string, tail: string, pat: string, k: int)
    requires OccursAt(body, pat, k)
    ensures OccursAt(head + body + tail, pat, |head| + k)
  {
    assert (head + body + tail)[|head| + k..|head| + k + |pat|] == body[k..k + |pat|];
  }

  /**
   * `t` lays out `head`, the parts joined by `sep`, and `tail`, as seen from part `k`: the part
   * starts after the head and the earlier parts, each followed by a separator; a separator
   * follows it unless it is the last, and the tail ends the text after the last part.
   */
  ghost predicate FramedLayoutAt(t: string, head: string, sep: string, parts: seq<string>, tail: string, k: nat)
    requires k < |parts|
  {
    && OccursAt(t, parts[k], |head| + JoinOffset(sep, parts, k))
    && (k + 1 < |parts| ==>
      && OccursAt(t, sep, |head| + JoinOffset(sep, parts, k) + |parts[k]|)
      && JoinOffset(sep, parts, k + 1) == JoinOffset(sep, parts, k) + |parts[k]| + |sep|)
    && (k + 1 == |parts| ==>
      && OccursAt(t, tail, |head| + JoinOffset(sep, parts, k) + |parts[k]|)
      && |t| == |head| + JoinOffset(sep, parts, k) + |parts[k]| + |tail|)
  }

  /** `JoinLayout` inside a frame: the same positions, shifted by the head, and the tail ends the text. */
  lemma FramedJoinLayout(head: string, sep: string, parts: seq<string>, tail: string, k: nat)
    requires k < |parts|
    ensures FramedLayoutAt(head + Join(sep, parts) + tail, head, sep, parts, tail, k)
  {
    var body := Join(sep, parts);
    JoinLayout(sep, parts, k);
    var o := JoinOffset(sep, parts, k);
    OccursInFrame(head, body, tail, parts[k], o);
    if k + 1 < |parts| {
      OccursInFrame(head, body, tail, sep, o + |parts[k]|);
    } else {
      assert OccursAt(tail, tail, 0);
      OccursInFrame(head + body, tail, "", tail, 0);
      assert head + body + tail + "" == head + body + tail;
    }
  }

  function DigitChar(d: nat): char
    requires d < 10
  {
    ('0' as int + d) as char
  }

  /** Python's `str(n)` for a non-negative integer. */
  function NatToString(n: nat): string
  {
    if n < 10 then [DigitChar(n)] else NatToString(n / 10) + [DigitChar(n % 10)]
  }

  /** Python's `str(i)` for an integer. */
  function IntToString(i: int): string
  {
    if i < 0 then "-" + NatToString(-i) else NatToString(i)
  }
}
