/** The answer encoder: `objects_to_result_strings` turns a form whose
    questions carry values into the pre-filled form address, one
    `entry.<id>...=<value>` fragment per answered part, joined by `&`. */
module Encoder {
  import opened Results
  import opened JsonValues
  import opened FormModel

  /** `f"entry.{entry_id}{suffix}={value}"`. */
  function Fragment(id: Json, suffix: string, v: Json): (r: string)
    ensures Prefix(id) + suffix + "=" <= r
    ensures r[|Prefix(id) + suffix + "="|..] == Str(v)
  {
    "entry." + Str(id) + suffix + "=" + Str(v)
  }

  /** The text every fragment of a question starts with. */
  function Prefix(id: Json): string {
    "entry." + Str(id)
  }

  /** One part of a date or time value: `if key in value and value[key]`,
      appending the fragment with the part's own suffix (`_year`, ...).
      `in` raises on a value that is neither dict, list nor string, and the
      subscript raises when the key is "in" a list or a string; a dict gives
      a fragment exactly when the part is present and truthy. */
  function DatePart(id: Json, value: Json, key: string, suffix: string): (r: Result<seq<string>>)
    ensures r.Err? <==> Contains(value, key).Err? || (Contains(value, key) == Ok(true) && !value.JObj?)
    ensures r.Ok? ==> |r.value| <= 1
    ensures value.JObj? ==> r.Ok? && (r.value != [] <==> HasKey(value.fields, key) && Truthy(Lookup(value.fields, key).value))
    ensures r.Ok? && r.value != [] ==>
              value.JObj? && r.value == [Fragment(id, suffix, Lookup(value.fields, key).value)]
    ensures r.Ok? ==> forall k :: 0 <= k < |r.value| ==> Prefix(id) <= r.value[k]
  {
    var has :- Contains(value, key);
    if !has then Ok([])
    else
      var part :- Subscript(value, key);
      if Truthy(part) then Ok([Fragment(id, suffix, part)]) else Ok([])
  }

  /** The fragments of a date, year then month then day. */
  function DateFragments(id: Json, value: Json): (r: Result<seq<string>>)
    ensures !Container(value) ==> r == Err(TypeError)
    ensures r.Ok? ==> forall k :: 0 <= k < |r.value| ==> Prefix(id) <= r.value[k]
  {
    var year :- DatePart(id, value, "year", "_year");
    var month :- DatePart(id, value, "month", "_month");
    var day :- DatePart(id, value, "day", "_day");
    Ok(year + month + day)
  }

  /** The fragments of a time, hour then minute. */
  function TimeFragments(id: Json, value: Json): (r: Result<seq<string>>)
    ensures !Container(value) ==> r == Err(TypeError)
    ensures r.Ok? ==> forall k :: 0 <= k < |r.value| ==> Prefix(id) <= r.value[k]
  {
    var hour :- DatePart(id, value, "hour", "_hour");
    var minute :- DatePart(id, value, "minute", "_minute");
    Ok(hour + minute)
  }

  /** One fragment per element of a list value, `str` of each element. */
  function ListFragments(id: Json, elems: seq<Json>): (r: seq<string>)
    ensures |r| == |elems|
    ensures forall k :: 0 <= k < |r| ==> r[k] == Fragment(id, "", elems[k])
  {
    seq(|elems|, k requires 0 <= k < |elems| => Fragment(id, "", elems[k]))
  }

  /** A value `in` can search: a dict, a list or a string. */
  predicate Container(v: Json) {
    v.JObj? || v.JArr? || v.JStr?
  }

  /** What a question of a kind other than date and time contributes: nothing
      without a truthy value, one fragment per element of a list, one
      otherwise. */
  function ValueCount(q: Question): nat {
    if q.value.None? || !Truthy(q.value.value) then 0
    else if q.value.value.JArr? then |q.value.value.elems|
    else 1
  }

  /** The fragments of one question of a section of the given kind. A date
      or time question reads `question['value']` unconditionally, so an
      unanswered one raises, and so does one whose value cannot be searched
      with `in`; a question of any other kind never raises, and contributes
      nothing without a truthy value, `str` of each element of a list, or
      `str` of the value. Every fragment names the question's entry. */
  function QuestionFragments(kind: Json, q: Question): (r: Result<seq<string>>)
    ensures (IsKind(kind, Date) || IsKind(kind, Time)) && q.value.None? ==> r == Err(KeyError)
    ensures (IsKind(kind, Date) || IsKind(kind, Time)) && q.value.Some? && !Container(q.value.value) ==> r == Err(TypeError)
    ensures !IsKind(kind, Date) && !IsKind(kind, Time) ==> r.Ok? && |r.value| == ValueCount(q)
    ensures !IsKind(kind, Date) && !IsKind(kind, Time) && q.value.Some? && Truthy(q.value.value) ==>
              if q.value.value.JArr? then
                forall k :: 0 <= k < |r.value| ==> r.value[k] == Fragment(q.entryId, "", q.value.value.elems[k])
              else r.value == [Fragment(q.entryId, "", q.value.value)]
    ensures r.Ok? ==> forall k :: 0 <= k < |r.value| ==> Prefix(q.entryId) <= r.value[k]
  {
    if IsKind(kind, Date) then
      if q.value.None? then Err(KeyError) else DateFragments(q.entryId, q.value.value)
    else if IsKind(kind, Time) then
      if q.value.None? then Err(KeyError) else TimeFragments(q.entryId, q.value.value)
    else if q.value.None? || !Truthy(q.value.value) then Ok([])
    else if q.value.value.JArr? then Ok(ListFragments(q.entryId, q.value.value.elems))
    else Ok([Fragment(q.entryId, "", q.value.value)])
  }

  function FragmentWriter(kind: Json): Question -> Result<seq<string>> {
    q => QuestionFragments(kind, q)
  }

  /** The fragments of one section, question by question. */
  function SectionFragments(sec: Section): Result<seq<string>> {
    ConcatResult(MapAll(FragmentWriter(sec.kind), sec.questions))
  }

  /** The fragments of the whole form, section by section. */
  function EncodeFragments(secs: seq<Section>): Result<seq<string>> {
    ConcatResult(MapAll(SectionFragments, secs))
  }

  /** `objects_to_result_strings(url, objects)`. */
  function Encode(url: string, secs: seq<Section>): (r: Result<string>)
    ensures r.Ok? <==> EncodeFragments(secs).Ok?
    ensures r.Ok? ==> url + "?" <= r.value
  {
    var fragments :- EncodeFragments(secs);
    Ok(url + "?" + Join("&", fragments))
  }

  function PairFragments(p: (Section, Question)): Result<seq<string>> {
    QuestionFragments(p.0.kind, p.1)
  }

  // ---------------------------------------------------------------------------
  // What one question contributes.

  /** The date part stored under `key` in a dict, when present and truthy. */
  function PresentPart(id: Json, fs: seq<Field>, key: string, suffix: string): seq<string> {
    var v := Lookup(fs, key);
    if v.Some? && Truthy(v.value) then [Fragment(id, suffix, v.value)] else []
  }

  /** A date given as a dict encodes the parts that are present and truthy,
      in year, month, day order; a time its hour then its minute. */
  lemma DateAndTimeAsDict(kind: Json, q: Question)
    requires IsKind(kind, Date) || IsKind(kind, Time)
    requires q.value.Some? && q.value.value.JObj?
    ensures var fs := q.value.value.fields;
            IsKind(kind, Date) ==>
              QuestionFragments(kind, q)
              == Ok(PresentPart(q.entryId, fs, "year", "_year") + PresentPart(q.entryId, fs, "month", "_month") + PresentPart(q.entryId, fs, "day", "_day"))
    ensures var fs := q.value.value.fields;
            IsKind(kind, Time) ==>
              QuestionFragments(kind, q) == Ok(PresentPart(q.entryId, fs, "hour", "_hour") + PresentPart(q.entryId, fs, "minute", "_minute"))
  {
    var fs := q.value.value.fields;
    forall key, suffix | true ensures DatePart(q.entryId, JObj(fs), key, suffix) == Ok(PresentPart(q.entryId, fs, key, suffix)) {
      DatePartOfDict(q.entryId, fs, key, suffix);
    }
  }

  lemma DatePartOfDict(id: Json, fs: seq<Field>, key: string, suffix: string)
    ensures DatePart(id, JObj(fs), key, suffix) == Ok(PresentPart(id, fs, key, suffix))
  {
  }

  /** A falsy month is omitted while the year and the day around it are
      kept, each under its own suffix. */
  lemma DateOmitsFalsyPart(q: Question, year: Json, month: Json, day: Json)
    requires q.value == Some(JObj([Field("year", year), Field("month", month), Field("day", day)]))
    requires Truthy(year) && !Truthy(month) && Truthy(day)
    ensures QuestionFragments(JInt(Date), q) == Ok([Fragment(q.entryId, "_year", year), Fragment(q.entryId, "_day", day)])
  {
    var fs := q.value.value.fields;
    DateAndTimeAsDict(JInt(Date), q);
    DateLookups(year, month, day);
    PresentParts(q.entryId, fs, year, month, day);
  }

  lemma DateLookups(year: Json, month: Json, day: Json)
    ensures var fs := [Field("year", year), Field("month", month), Field("day", day)];
            Lookup(fs, "year") == Some(year) && Lookup(fs, "month") == Some(month) && Lookup(fs, "day") == Some(day)
  {
    var fs := [Field("year", year), Field("month", month), Field("day", day)];
    assert Lookup(fs[1..], "month") == Some(month);
    assert Lookup(fs[2..], "day") == Some(day);
  }

  lemma PresentParts(id: Json, fs: seq<Field>, year: Json, month: Json, day: Json)
    requires Lookup(fs, "year") == Some(year) && Lookup(fs, "month") == Some(month) && Lookup(fs, "day") == Some(day)
    requires Truthy(year) && !Truthy(month) && Truthy(day)
    ensures PresentPart(id, fs, "year", "_year") + PresentPart(id, fs, "month", "_month") + PresentPart(id, fs, "day", "_day")
            == [Fragment(id, "_year", year), Fragment(id, "_day", day)]
  {
    assert [Fragment(id, "_year", year)] + [] + [Fragment(id, "_day", day)]
        == [Fragment(id, "_year", year), Fragment(id, "_day", day)];
  }

  /** A date question for entry 123 holding `{"year": 2024, "month": 0,
      "day": 15}` encodes as `entry.123_year=2024` and `entry.123_day=15`. */
  lemma SampleDateFragments(q: Question)
    requires q.entryId == JInt(123)
    requires q.value == Some(JObj([Field("year", JInt(2024)), Field("month", JInt(0)), Field("day", JInt(15))]))
    ensures QuestionFragments(JInt(Date), q) == Ok(["entry.123_year=2024", "entry.123_day=15"])
  {
    SampleDateTexts();
    DateOmitsFalsyPart(q, JInt(2024), JInt(0), JInt(15));
  }

  /** The texts of the two fragments of that example. */
  lemma SampleDateTexts()
    ensures Fragment(JInt(123), "_year", JInt(2024)) == "entry.123_year=2024"
    ensures Fragment(JInt(123), "_day", JInt(15)) == "entry.123_day=15"
    ensures Truthy(JInt(2024)) && !Truthy(JInt(0)) && Truthy(JInt(15))
  {
    SmallDecimals();
    IntFragment(123, "_year", 2024);
    IntFragment(123, "_day", 15);
    SampleTexts();
  }

  /** A fragment whose entry id and value are both integers. */
  lemma IntFragment(id: int, suffix: string, v: int)
    ensures Fragment(JInt(id), suffix, JInt(v)) == "entry." + Decimal(id) + suffix + "=" + Decimal(v)
  {
  }

  lemma SampleTexts()
    ensures "entry." + "123" + "_year" + "=" + "2024" == "entry.123_year=2024"
    ensures "entry." + "123" + "_day" + "=" + "15" == "entry.123_day=15"
  {
  }

  lemma SmallDecimals()
    ensures Decimal(123) == "123" && Decimal(2024) == "2024" && Decimal(15) == "15"
  {
    Decimal123();
    Decimal2024();
    assert NatDecimal(1) == "1";
  }

  lemma Decimal123()
    ensures NatDecimal(123) == "123"
  {
    assert NatDecimal(1) == "1";
    assert NatDecimal(12) == "12";
  }

  lemma Decimal2024()
    ensures NatDecimal(2024) == "2024"
  {
    assert NatDecimal(2) == "2";
    assert NatDecimal(20) == "20";
    assert NatDecimal(202) == "202";
  }

  // ---------------------------------------------------------------------------
  // The whole form.

  lemma EncodeFragmentsCons(s: Section, rest: seq<Section>)
    ensures EncodeFragments([s] + rest) == AppendResults(SectionFragments(s), EncodeFragments(rest))
  {
    MapAllAppend(SectionFragments, [s], rest);
    MapAllSingle(SectionFragments, s);
    ConcatResultAppend(MapAll(SectionFragments, [s]), MapAll(SectionFragments, rest));
    if SectionFragments(s).Ok? {
      ConcatSingle(SectionFragments(s).value);
    }
  }

  /** The fragments come question by question in section-then-question
      order, each question's fragments together. */
  lemma {:induction false} EncodeFollowsTraversal(secs: seq<Section>)
    ensures EncodeFragments(secs) == ConcatResult(MapAll(PairFragments, Traversal(secs)))
    decreases |secs|
  {
    if secs != [] {
      var s, rest := secs[0], secs[1..];
      assert secs == [s] + rest;
      EncodeFragmentsCons(s, rest);
      MapAllAppend(PairFragments, SectionPairs(s), Traversal(rest));
      MapAllPointwise(PairFragments, SectionPairs(s), FragmentWriter(s.kind), s.questions);
      EncodeFollowsTraversal(rest);
      ConcatResultAppend(MapAll(PairFragments, SectionPairs(s)), MapAll(PairFragments, Traversal(rest)));
    }
  }

  /** A form without date and time questions. */
  predicate NoDateOrTime(secs: seq<Section>) {
    forall k :: 0 <= k < |secs| ==> !IsKind(secs[k].kind, Date) && !IsKind(secs[k].kind, Time)
  }

  function TotalValueCount(qs: seq<Question>): nat
    decreases |qs|
  {
    if qs == [] then 0 else ValueCount(qs[0]) + TotalValueCount(qs[1..])
  }

  lemma {:induction false} SumLengthsOfCounts(xss: seq<seq<string>>, qs: seq<Question>)
    requires |xss| == |qs|
    requires forall k :: 0 <= k < |qs| ==> |xss[k]| == ValueCount(qs[k])
    ensures SumLengths(xss) == TotalValueCount(qs)
    decreases |qs|
  {
    if qs != [] {
      SumLengthsOfCounts(xss[1..], qs[1..]);
    }
  }

  /** A form without date and time questions always encodes, into one
      fragment per truthy scalar value plus one per element of each
      non-empty list value. */
  lemma EncodeWithoutDates(secs: seq<Section>)
    requires NoDateOrTime(secs)
    ensures EncodeFragments(secs).Ok?
    ensures |EncodeFragments(secs).value| == TotalValueCount(Questions(secs))
  {
    EncodeFollowsTraversal(secs);
    var ps := Traversal(secs);
    forall k | 0 <= k < |ps| ensures PairFragments(ps[k]).Ok? && |PairFragments(ps[k]).value| == ValueCount(ps[k].1) {
    }
    var m := MapAll(PairFragments, ps);
    ConcatLength(m.value);
    SumLengthsOfCounts(m.value, Questions(secs));
  }

  /** No fragments leave the bare address with its `?`. */
  lemma EncodeEmpty(url: string, secs: seq<Section>)
    requires EncodeFragments(secs) == Ok([])
    ensures Encode(url, secs) == Ok(url + "?")
  {
    assert url + "?" + Join("&", []) == url + "?";
  }

  /** The address is the base address, `?`, then the fragments joined by `&`. */
  lemma EncodeShape(url: string, secs: seq<Section>)
    requires Encode(url, secs).Ok?
    ensures MapAll(PairFragments, Traversal(secs)).Ok?
    ensures Encode(url, secs).value
            == url + "?" + Join("&", Concat(MapAll(PairFragments, Traversal(secs)).value))
  {
    EncodeFollowsTraversal(secs);
  }

  // ---------------------------------------------------------------------------
  // The encoder as the source writes it.

  /** The fragments of one question appended to `acc`, with the loop over a
      list value's elements. */
  method AppendQuestion(kind: Json, q: Question, acc: seq<string>) returns (r: Result<seq<string>>)
    ensures QuestionFragments(kind, q).Err? ==> r == Err(QuestionFragments(kind, q).error)
    ensures QuestionFragments(kind, q).Ok? ==> r == Ok(acc + QuestionFragments(kind, q).value)
  {
    if IsKind(kind, Date) || IsKind(kind, Time) {
      if q.value.None? {
        return Err(KeyError);
      }
      var parts := if IsKind(kind, Date) then DateFragments(q.entryId, q.value.value) else TimeFragments(q.entryId, q.value.value);
      if parts.Err? {
        return Err(parts.error);
      }
      return Ok(acc + parts.value);
    }
    if q.value.None? || !Truthy(q.value.value) {
      assert acc + [] == acc;
      return Ok(acc);
    }
    var v := q.value.value;
    if !v.JArr? {
      return Ok(acc + [Fragment(q.entryId, "", v)]);
    }
    var out := acc;
    var k := 0;
    while k < |v.elems|
      invariant 0 <= k <= |v.elems|
      invariant out == acc + ListFragments(q.entryId, v.elems[..k])
    {
      assert ListFragments(q.entryId, v.elems[..k + 1]) == ListFragments(q.entryId, v.elems[..k]) + [Fragment(q.entryId, "", v.elems[k])];
      out := out + [Fragment(q.entryId, "", v.elems[k])];
      k := k + 1;
    }
    assert v.elems[..k] == v.elems;
    r := Ok(out);
  }

  /** The inner loop over one section's questions, appending to `acc`. */
  method AppendSection(ob: Section, acc: seq<string>) returns (r: Result<seq<string>>)
    ensures SectionFragments(ob).Err? ==> r == Err(SectionFragments(ob).error)
    ensures SectionFragments(ob).Ok? ==> r == Ok(acc + SectionFragments(ob).value)
  {
    var out := acc;
    ghost var cur: seq<seq<string>> := [];
    var j := 0;
    assert acc + Concat(cur) == acc;
    while j < |ob.questions|
      invariant 0 <= j <= |ob.questions|
      invariant MapAll(FragmentWriter(ob.kind), ob.questions[..j]) == Ok(cur)
      invariant out == acc + Concat(cur)
    {
      ghost var step := QuestionFragments(ob.kind, ob.questions[j]);
      var next := AppendQuestion(ob.kind, ob.questions[j], out);
      if next.Err? {
        MapAllStops(FragmentWriter(ob.kind), ob.questions, j);
        return Err(next.error);
      }
      MapAllSnoc(FragmentWriter(ob.kind), ob.questions, j);
      AppendConcatSnoc(acc, cur, step.value);
      out := next.value;
      cur := cur + [step.value];
      j := j + 1;
    }
    assert ob.questions[..j] == ob.questions;
    r := Ok(out);
  }

  lemma AppendConcatSnoc<T>(acc: seq<T>, xss: seq<seq<T>>, xs: seq<T>)
    ensures acc + Concat(xss + [xs]) == (acc + Concat(xss)) + xs
  {
    ConcatSnoc(xss, xs);
  }

  lemma ConcatSnoc<T>(xss: seq<seq<T>>, xs: seq<T>)
    ensures Concat(xss + [xs]) == Concat(xss) + xs
  {
    assert (xss + [xs])[..|xss|] == xss;
  }

  /** `objects_to_result_strings` with its loops over sections and questions. */
  method ObjectsToResultStrings(url: string, objects: seq<Section>) returns (r: Result<string>)
    ensures r == Encode(url, objects)
  {
    var resultStrings: seq<string> := [];
    ghost var per: seq<seq<string>> := [];
    var i := 0;
    while i < |objects|
      invariant 0 <= i <= |objects|
      invariant MapAll(SectionFragments, objects[..i]) == Ok(per)
      invariant resultStrings == Concat(per)
    {
      var next := AppendSection(objects[i], resultStrings);
      if next.Err? {
        MapAllStops(SectionFragments, objects, i);
        return Err(next.error);
      }
      MapAllSnoc(SectionFragments, objects, i);
      ConcatSnoc(per, SectionFragments(objects[i]).value);
      resultStrings := next.value;
      per := per + [SectionFragments(objects[i]).value];
      i := i + 1;
    }
    assert objects[..i] == objects;
    r := Ok(url + "?" + Join("&", resultStrings));
  }
}
