/** The reply cleaner: `extract_json_from_response` takes the generator's reply
    text, trims it, and removes a surrounding Markdown code fence (opened by
    `` ```json `` or by a bare `` ``` ``, optionally closed by `` ``` ``) before
    the text is parsed as JSON. */
module Fence {

  /** The characters Python's `str.strip()` removes, those for which
      `str.isspace()` holds, by code point: tab through carriage return, the
      four separators 0x1C-0x1F and space, next line, no-break space, the
      Ogham space mark, the spaces 0x2000-0x200A, the line and paragraph
      separators, the narrow no-break space, the medium mathematical space
      and the ideographic space. */
  predicate IsSpace(c: char) {
    var n := c as int;
    || (9 <= n <= 13) || (0x1C <= n <= 0x20) || n == 0x85 || n == 0xA0 || n == 0x1680
    || (0x2000 <= n <= 0x200A) || n == 0x2028 || n == 0x2029 || n == 0x202F || n == 0x205F || n == 0x3000
  }

  /** The first position at or after `i` that is not whitespace (`|s|` if
      there is none): where `s.strip()` starts. */
  function SkipStart(s: string, i: nat): (r: nat)
    requires i <= |s|
    ensures i <= r <= |s|
    decreases |s| - i
  {
    if i < |s| && IsSpace(s[i]) then SkipStart(s, i + 1) else i
  }

  /** The position just after the last non-whitespace character in
      `s[lo..j]` (`lo` if there is none): where `s.strip()` ends. */
  function SkipEnd(s: string, lo: nat, j: nat): (r: nat)
    requires lo <= j <= |s|
    ensures lo <= r <= j
    decreases j
  {
    if lo < j && IsSpace(s[j - 1]) then SkipEnd(s, lo, j - 1) else j
  }

  lemma {:induction false} SkipStartSpaces(s: string, i: nat)
    requires i <= |s|
    ensures forall k :: i <= k < SkipStart(s, i) ==> IsSpace(s[k])
    ensures SkipStart(s, i) == |s| || !IsSpace(s[SkipStart(s, i)])
    decreases |s| - i
  {
    if i < |s| && IsSpace(s[i]) {
      SkipStartSpaces(s, i + 1);
    }
  }

  lemma {:induction false} SkipEndSpaces(s: string, lo: nat, j: nat)
    requires lo <= j <= |s|
    ensures forall k :: SkipEnd(s, lo, j) <= k < j ==> IsSpace(s[k])
    ensures SkipEnd(s, lo, j) == lo || !IsSpace(s[SkipEnd(s, lo, j) - 1])
    decreases j
  {
    if lo < j && IsSpace(s[j - 1]) {
      SkipEndSpaces(s, lo, j - 1);
    }
  }

  /** How much leading whitespace `strip` removes, and where the trailing
      whitespace begins. */
  function Lead(s: string): nat {
    SkipStart(s, 0)
  }

  function Tail(s: string): nat {
    SkipEnd(s, Lead(s), |s|)
  }

  /** `s.strip()`. */
  function Strip(s: string): (r: string)
    ensures |r| <= |s|
    ensures r == [] || (!IsSpace(r[0]) && !IsSpace(r[|r| - 1]))
  {
    SkipStartSpaces(s, 0);
    SkipEndSpaces(s, Lead(s), |s|);
    s[Lead(s)..Tail(s)]
  }

  /** `strip` removes exactly the surrounding whitespace: everything before
      `Lead(s)` and from `Tail(s)` on is whitespace, and the result neither
      starts nor ends with whitespace. */
  lemma StripTrims(s: string)
    ensures Lead(s) <= Tail(s) <= |s| && Strip(s) == s[Lead(s)..Tail(s)]
    ensures forall k :: 0 <= k < Lead(s) ==> IsSpace(s[k])
    ensures forall k :: Tail(s) <= k < |s| ==> IsSpace(s[k])
    ensures Lead(s) < Tail(s) ==> !IsSpace(s[Lead(s)]) && !IsSpace(s[Tail(s) - 1])
  {
    SkipStartSpaces(s, 0);
    SkipEndSpaces(s, Lead(s), |s|);
  }

  /** Stripping twice is stripping once. */
  lemma StripIdempotent(s: string)
    ensures Strip(Strip(s)) == Strip(s)
  {
    var t := Strip(s);
    if t != [] {
      assert SkipStart(t, 0) == 0;
      assert SkipEnd(t, 0, |t|) == |t|;
      assert t[0..|t|] == t;
    }
  }

  /** The two fence openings. */
  const JsonFence: string := "```json"
  const Fence: string := "```"

  function EndsWith(s: string, suffix: string): bool {
    |suffix| <= |s| && s[|s| - |suffix|..] == suffix
  }

  /** Dropping the opening, then a closing fence if there is one, then
      surrounding whitespace. */
  function Unfence(t: string, open: nat): string
    requires open <= |t|
  {
    var body := t[open..];
    var inner := if EndsWith(body, Fence) then body[..|body| - |Fence|] else body;
    Strip(inner)
  }

  /** `extract_json_from_response` up to the call to `json.loads`. */
  function ExtractJsonText(response: string): (r: string)
    ensures !(Fence <= Strip(response)) ==> r == Strip(response)
    ensures r == [] || (!IsSpace(r[0]) && !IsSpace(r[|r| - 1]))
  {
    var t := Strip(response);
    if JsonFence <= t then Unfence(t, |JsonFence|)
    else if Fence <= t then Unfence(t, |Fence|)
    else t
  }

  /** Unfencing a text whose rest is `body` and a closing fence. */
  lemma UnfenceClosed(t: string, open: nat, body: string)
    requires open <= |t| && t[open..] == body + Fence
    ensures Unfence(t, open) == Strip(body)
  {
    var rest := body + Fence;
    assert EndsWith(rest, Fence) by {
      assert rest[|rest| - |Fence|..] == Fence;
    }
    assert rest[..|rest| - |Fence|] == body;
  }

  /** Unfencing a text whose rest has no closing fence. */
  lemma UnfenceOpen(t: string, open: nat, body: string)
    requires open <= |t| && t[open..] == body && !EndsWith(body, Fence)
    ensures Unfence(t, open) == Strip(body)
  {
  }

  /** A text opened by `` ```json `` and closed by `` ``` `` comes out as the
      trimmed text between the fences. */
  lemma JsonFenceRemoved(response: string, body: string)
    requires Strip(response) == JsonFence + body + Fence
    ensures ExtractJsonText(response) == Strip(body)
  {
    var t := Strip(response);
    assert t == JsonFence + (body + Fence);
    assert JsonFence <= t;
    UnfenceClosed(t, |JsonFence|, body);
  }

  /** A bare opening fence is not mistaken for `` ```json `` when the text
      that follows it does not begin with `json`. */
  lemma BareOpening(t: string, rest: string)
    requires t == Fence + rest && !("json" <= rest)
    ensures !(JsonFence <= t) && Fence <= t
  {
    assert t[..|Fence|] == Fence;
  }

  /** A closing fence cannot complete a `json` the body did not begin with. */
  lemma NoJsonBeforeFence(body: string)
    requires !("json" <= body)
    ensures !("json" <= body + Fence)
  {
    if |body| >= 4 {
      assert (body + Fence)[..4] == body[..4];
    } else {
      assert (body + Fence)[|body|] == '`';
    }
  }

  /** A text opened by a bare `` ``` `` (not followed by `json`) and closed
      by `` ``` `` comes out as the trimmed text between the fences. */
  lemma BareFenceRemoved(response: string, body: string)
    requires Strip(response) == Fence + body + Fence
    requires !("json" <= body)
    ensures ExtractJsonText(response) == Strip(body)
  {
    var t := Strip(response);
    assert t == Fence + (body + Fence);
    NoJsonBeforeFence(body);
    BareOpening(t, body + Fence);
    UnfenceClosed(t, |Fence|, body);
  }

  /** A bare opening fence with no closing one: everything after it, trimmed. */
  lemma UnclosedBareFence(response: string, body: string)
    requires Strip(response) == Fence + body
    requires !("json" <= body) && !EndsWith(body, Fence)
    ensures ExtractJsonText(response) == Strip(body)
  {
    var t := Strip(response);
    BareOpening(t, body);
    UnfenceOpen(t, |Fence|, body);
  }

  /** An opening fence with no closing one: everything after the opening,
      trimmed. */
  lemma UnclosedFence(response: string, body: string)
    requires Strip(response) == JsonFence + body
    requires !EndsWith(body, Fence)
    ensures ExtractJsonText(response) == Strip(body)
  {
    var t := Strip(response);
    assert JsonFence <= t;
    UnfenceOpen(t, |JsonFence|, body);
  }
}
