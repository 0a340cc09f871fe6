/**
 * The response parser: recovers an `AgentData` intent from the model's tagged free text.
 * Each of the five tags is an independent first match of `<tag>(.*?)</tag>` over the whole
 * text (non-greedy, dot matches newlines), stripped of surrounding whitespace; the action
 * input is decoded as a Python literal or kept raw, and the assembled intent is validated.
 */
module ResponseParser {
  import opened Common
  import opened Text
  import opened Values
  import opened AgentViews

  /** Python's `str.isspace` for one character. */
  predicate IsSpace(c: char)
  {
    var n := c as int;
    n == 0x20 || 0x09 <= n <= 0x0D || 0x1C <= n <= 0x1F || n == 0x85 || n == 0xA0 || n == 0x1680
    || 0x2000 <= n <= 0x200A || n == 0x2028 || n == 0x2029 || n == 0x202F || n == 0x205F || n == 0x3000
  }

  /** The number of whitespace characters at the start of `s`. */
  function LeadingSpaces(s: string): (a: nat)
    ensures a <= |s|
    ensures forall k :: 0 <= k < a ==> IsSpace(s[k])
    ensures a < |s| ==> !IsSpace(s[a])
  {
    if |s| == 0 || !IsSpace(s[0]) then 0 else 1 + LeadingSpaces(s[1..])
  }

  /** The end of `s` once trailing whitespace is cut off. */
  function TrailingEnd(s: string): (b: nat)
    ensures b <= |s|
    ensures forall k :: b <= k < |s| ==> IsSpace(s[k])
    ensures b > 0 ==> !IsSpace(s[b - 1])
  {
    if |s| == 0 || !IsSpace(s[|s| - 1]) then |s| else TrailingEnd(s[..|s| - 1])
  }

  /**
   * Python's `s.strip()`: the slice of `s` left once every leading and trailing whitespace
   * character is removed; it neither starts nor ends with whitespace.
   */
  function Strip(s: string): (r: string)
    ensures LeadingSpaces(s) + |r| <= |s| && r == s[LeadingSpaces(s)..LeadingSpaces(s) + |r|]
    ensures forall k :: LeadingSpaces(s) + |r| <= k < |s| ==> IsSpace(s[k])
    ensures r != [] ==> !IsSpace(r[0]) && !IsSpace(r[|r| - 1])
    ensures r == [] <==> forall k :: 0 <= k < |s| ==> IsSpace(s[k])
  {
    var a := LeadingSpaces(s);
    var b := TrailingEnd(s);
    if b <= a then
      assert a == |s|;
      []
    else
      s[a..b]
  }

  function OpenTag(tag: string): string { "<" + tag + ">" }

  function CloseTag(tag: string): string { "</" + tag + ">" }

  /** The first occurrence of `pat` in `text` at or after `from`, if any. */
  function FindFrom(text: string, pat: string, from: nat): (r: Option<nat>)
    decreases |text| - from
    ensures r.Some? ==> from <= r.value && OccursAt(text, pat, r.value)
    ensures r.Some? ==> forall k :: from <= k < r.value ==> !OccursAt(text, pat, k)
    ensures r.None? ==> forall k :: from <= k ==> !OccursAt(text, pat, k)
  {
    if from + |pat| > |text| then None
    else if text[from..from + |pat|] == pat then Some(from)
    else FindFrom(text, pat, from + 1)
  }

  /**
   * The text between the first `open` and the first `close` after it, if both occur: the
   * non-greedy group `open(.*?)close` matched across newlines.
   */
  function Between(text: string, open: string, close: string): Option<string>
  {
    match FindFrom(text, open, 0)
    case None => None
    case Some(i) =>
      match FindFrom(text, close, i + |open|)
      case None => None
      case Some(j) => Some(text[i + |open|..j])
  }

  /** Group 1 of `re.search(r"<tag>(.*?)</tag>", text, re.DOTALL)`; None when there is no match. */
  function Capture(text: string, tag: string): Option<string>
  {
    Between(text, OpenTag(tag), CloseTag(tag))
  }

  /**
   * One tag's extracted field: the capture, stripped. It is found exactly when the capture is,
   * lies inside the capture, and neither starts nor ends with whitespace.
   */
  function Search(text: string, tag: string): (r: Option<string>)
    ensures r.Some? <==> Capture(text, tag).Some?
    ensures r.Some? ==> Contains(Capture(text, tag).value, r.value)
    ensures r.Some? && r.value != [] ==> !IsSpace(r.value[0]) && !IsSpace(r.value[|r.value| - 1])
  {
    match Capture(text, tag)
    case None => None
    case Some(raw) =>
      assert OccursAt(raw, Strip(raw), LeadingSpaces(raw));
      Some(Strip(raw))
  }

  /** The positions of the delimiters that bound a found value, and what they rule out. */
  lemma BetweenBounds(text: string, open: string, close: string) returns (i: nat, j: nat)
    requires Between(text, open, close).Some?
    ensures OccursAt(text, open, i) && forall k :: 0 <= k < i ==> !OccursAt(text, open, k)
    ensures OccursAt(text, close, j) && i + |open| <= j
    ensures forall k :: i + |open| <= k < j ==> !OccursAt(text, close, k)
    ensures Between(text, open, close) == Some(text[i + |open|..j])
  {
    i := FindFrom(text, open, 0).value;
    j := FindFrom(text, close, i + |open|).value;
  }

  /** Delimiters at `i` and `j` with none of either kind earlier fix the value found. */
  lemma BetweenAt(text: string, open: string, close: string, i: nat, j: nat)
    requires OccursAt(text, open, i) && forall k :: 0 <= k < i ==> !OccursAt(text, open, k)
    requires OccursAt(text, close, j) && i + |open| <= j
    requires forall k :: i + |open| <= k < j ==> !OccursAt(text, close, k)
    ensures Between(text, open, close) == Some(text[i + |open|..j])
  {
    var first := FindFrom(text, open, 0);
    assert first == Some(i);
    var second := FindFrom(text, close, i + |open|);
    assert second == Some(j);
  }

  /** A value is found exactly when an `open` is followed, somewhere later, by a `close`. */
  lemma BetweenFoundIff(text: string, open: string, close: string)
    ensures Between(text, open, close).Some? <==>
      exists i, j :: OccursAt(text, open, i) && OccursAt(text, close, j) && i + |open| <= j
  {
    if exists i, j :: OccursAt(text, open, i) && OccursAt(text, close, j) && i + |open| <= j {
      var i, j :| OccursAt(text, open, i) && OccursAt(text, close, j) && i + |open| <= j;
      var first := FindFrom(text, open, 0);
      assert first.Some? && first.value <= i;
      assert FindFrom(text, close, first.value + |open|).Some?;
    }
  }

  /** A tag is found exactly when its opening tag is followed, somewhere later, by its closing tag. */
  lemma SearchFoundIff(text: string, tag: string)
    ensures Search(text, tag).Some? <==>
      exists i, j :: OccursAt(text, OpenTag(tag), i) && OccursAt(text, CloseTag(tag), j)
                     && i + |OpenTag(tag)| <= j
  {
    BetweenFoundIff(text, OpenTag(tag), CloseTag(tag));
  }

  /**
   * The capture is taken at the leftmost opening tag and ends at the first closing tag after
   * it (non-greedy), whatever follows.
   */
  lemma CaptureIsLeftmostShortest(text: string, tag: string, i: nat, j: nat)
    requires OccursAt(text, OpenTag(tag), i)
    requires forall k :: 0 <= k < i ==> !OccursAt(text, OpenTag(tag), k)
    requires OccursAt(text, CloseTag(tag), j) && i + |OpenTag(tag)| <= j
    requires forall k :: i + |OpenTag(tag)| <= k < j ==> !OccursAt(text, CloseTag(tag), k)
    ensures Capture(text, tag) == Some(text[i + |OpenTag(tag)|..j])
    ensures Search(text, tag) == Some(Strip(text[i + |OpenTag(tag)|..j]))
  {
    BetweenAt(text, OpenTag(tag), CloseTag(tag), i, j);
  }

  /** The found value sits in the text with its `open` right before it and its `close` right after it. */
  lemma BetweenIsBracketed(text: string, open: string, close: string)
    requires Between(text, open, close).Some?
    ensures Contains(text, open + Between(text, open, close).value + close)
  {
    var i, j := BetweenBounds(text, open, close);
    var raw := text[i + |open|..j];
    assert text[i..j + |close|] == text[i..i + |open|] + raw + text[j..j + |close|];
    assert OccursAt(text, open + raw + close, i);
  }

  /** The text holds a capture with its opening tag right before it and its closing tag right after it. */
  lemma CaptureIsBracketed(text: string, tag: string)
    requires Capture(text, tag).Some?
    ensures Contains(text, OpenTag(tag) + Capture(text, tag).value + CloseTag(tag))
  {
    BetweenIsBracketed(text, OpenTag(tag), CloseTag(tag));
  }

  /** A found value never contains a non-empty `close`: it ends at the first one. */
  lemma BetweenHoldsNoClose(text: string, open: string, close: string)
    requires Between(text, open, close).Some? && |close| > 0
    ensures !Contains(Between(text, open, close).value, close)
  {
    var i, j := BetweenBounds(text, open, close);
    NoneInSlice(text, close, i + |open|, j);
  }

  /** A captured value, raw or stripped, never contains its own closing tag. */
  lemma CaptureExcludesCloseTag(text: string, tag: string)
    requires Capture(text, tag).Some?
    ensures !Contains(Capture(text, tag).value, CloseTag(tag))
    ensures !Contains(Search(text, tag).value, CloseTag(tag))
  {
    BetweenHoldsNoClose(text, OpenTag(tag), CloseTag(tag));
    if Contains(Search(text, tag).value, CloseTag(tag)) {
      ContainsTransitive(Capture(text, tag).value, Search(text, tag).value, CloseTag(tag));
    }
  }

  /** Text appended after a found value does not change it. */
  lemma BetweenStableUnderAppend(text: string, more: string, open: string, close: string)
    requires Between(text, open, close).Some?
    ensures Between(text + more, open, close) == Between(text, open, close)
  {
    var whole := text + more;
    var i, j := BetweenBounds(text, open, close);
    assert whole[i..i + |open|] == text[i..i + |open|];
    assert whole[j..j + |close|] == text[j..j + |close|];
    forall k | 0 <= k < i ensures !OccursAt(whole, open, k) {
      assert whole[k..k + |open|] == text[k..k + |open|] && !OccursAt(text, open, k);
    }
    forall k | i + |open| <= k < j ensures !OccursAt(whole, close, k) {
      assert whole[k..k + |close|] == text[k..k + |close|] && !OccursAt(text, close, k);
    }
    BetweenAt(whole, open, close, i, j);
    assert whole[i + |open|..j] == text[i + |open|..j];
  }

  /**
   * A tag found in `text` is found with the same value in `text + more`: each tag's value is
   * fixed by its own first match, whatever other text or tags come after it.
   */
  lemma SearchStableUnderAppend(text: string, more: string, tag: string)
    requires Capture(text, tag).Some?
    ensures Capture(text + more, tag) == Capture(text, tag)
    ensures Search(text + more, tag) == Search(text, tag)
  {
    BetweenStableUnderAppend(text, more, OpenTag(tag), CloseTag(tag));
  }

  /** The outcome of `ast.literal_eval`: a value, a ValueError/SyntaxError, or another exception. */
  datatype Decoded = Decoded(value: Value) | Rejected | Crashed(error: string)

  /** The local `action` dict before validation: each key present or absent. */
  datatype RawAction = RawAction(name: Option<string>, params: Option<Value>)

  /**
   * Fills the action dict: the stripped name, and the input decoded as a literal, or the raw
   * stripped input when decoding fails with ValueError or SyntaxError. Any other decoding
   * exception propagates.
   */
  function CollectAction(text: string, decode: string -> Decoded): Result<RawAction>
  {
    var name := Search(text, "action_name");
    match Search(text, "action_input")
    case None => Ok(RawAction(name, None))
    case Some(input) =>
      match decode(input)
      case Decoded(v) => Ok(RawAction(name, Some(v)))
      case Rejected => Ok(RawAction(name, Some(VStr(input))))
      case Crashed(e) => Err(e)
  }

  /** The validation problems of the action dict, in field order. */
  function ActionIssues(raw: RawAction): seq<string>
  {
    (if raw.name.None? then ["action.name\n  Field required"] else [])
    + (if raw.params.None? then ["action.params\n  Field required"]
       else if !raw.params.value.VDict? then ["action.params\n  Input should be a valid dictionary"]
       else [])
  }

  /** `extract_agent_data`: the five independent searches, the decode-or-raw fallback, and validation. */
  function ExtractAgentData(text: string, decode: string -> Decoded): (r: Result<AgentData>)
    ensures r.Ok? ==> r.value.action.Some?
  {
    match CollectAction(text, decode)
    case Err(e) => Err(e)
    case Ok(raw) =>
      var issues := ActionIssues(raw);
      if |issues| > 0 then Err(ValidationMessage("AgentData", issues))
      else
        Ok(AgentData(Search(text, "evaluate"), Search(text, "memory"), Search(text, "thought"),
                     Some(Action(raw.name.value, raw.params.value.entries))))
  }

  /**
   * A parse succeeds exactly when both action tags are found and the input decodes to a dict.
   * A successful parse always carries an action with a name and mapping params, and each
   * optional field is exactly its tag's search.
   */
  lemma ExtractAgentDataFields(text: string, decode: string -> Decoded)
    ensures ExtractAgentData(text, decode).Ok? <==>
      Search(text, "action_name").Some? && Search(text, "action_input").Some?
      && decode(Search(text, "action_input").value).Decoded?
      && decode(Search(text, "action_input").value).value.VDict?
    ensures ExtractAgentData(text, decode).Ok? ==>
      var d := ExtractAgentData(text, decode).value;
      && d.memory == Search(text, "memory")
      && d.evaluate == Search(text, "evaluate")
      && d.thought == Search(text, "thought")
      && d.action == Some(Action(Search(text, "action_name").value,
                                 decode(Search(text, "action_input").value).value.entries))
  {
  }

  /**
   * `is_done` on a parsed reply: the intent is terminal exactly when the stripped
   * `<action_name>` is `Done Tool` letter for letter, so surrounding whitespace is ignored but
   * a case variant such as `done tool` is not terminal.
   */
  lemma TerminalReplyNamesDoneTool(text: string, decode: string -> Decoded)
    requires ExtractAgentData(text, decode).Ok?
    ensures IsTerminal(Some(ExtractAgentData(text, decode).value))
      <==> Search(text, "action_name") == Some(DoneToolName)
    ensures Search(text, "action_name") == Some("done tool") ==>
      !IsTerminal(Some(ExtractAgentData(text, decode).value))
  {
    ExtractAgentDataFields(text, decode);
  }

  /**
   * A reply without an `<action_name>` opening tag (for instance one holding only a
   * `<thought>`) fails validation: the action dict is always attached and needs a name.
   */
  lemma NoActionNameIsRejected(text: string, decode: string -> Decoded)
    requires !Contains(text, OpenTag("action_name"))
    ensures ExtractAgentData(text, decode).Err?
  {
    SearchFoundIff(text, "action_name");
  }

  /**
   * When the action input does not decode as a literal, the raw stripped string becomes the
   * params, and validation then rejects it as not a dictionary.
   */
  lemma UndecodableInputKeptRawThenRejected(text: string, decode: string -> Decoded)
    requires Search(text, "action_input").Some?
    requires decode(Search(text, "action_input").value).Rejected?
    ensures CollectAction(text, decode).Ok?
    ensures CollectAction(text, decode).value.params == Some(VStr(Search(text, "action_input").value))
    ensures ExtractAgentData(text, decode).Err?
  {
  }
}
