/** The schema decoder: `string_to_object_list` walks the positional
    `FB_PUBLIC_LOAD_DATA_` array (already parsed into a Json value) and builds
    the sections and questions of the form. */
module Decoder {
  import opened Results
  import opened JsonValues
  import opened FormModel

  /** Follows a chain of positional subscripts: `Path(j, [3, 0])` is `j[3][0]`. */
  function Path(j: Json, path: seq<nat>): (r: Result<Json>)
    ensures |path| == 1 ==> r == Index(j, path[0])
    ensures |path| == 2 && Index(j, path[0]).Err? ==> r == Index(j, path[0])
    ensures |path| == 2 && Index(j, path[0]).Ok? ==> r == Index(Index(j, path[0]).value, path[1])
    decreases |path|
  {
    if path == [] then Ok(j)
    else
      var x :- Index(j, path[0]);
      Path(x, path[1..])
  }

  function FirstOf(sub: Json): Result<Json> {
    Index(sub, 0)
  }

  /** `[sub_array[0] for sub_array in list]`: the label of each option entry. */
  function OptionLabels(list: Json): (r: Result<seq<Json>>)
    ensures r.Ok? ==> Elements(list).Ok?
    ensures r.Ok? ==> |r.value| == |Elements(list).value|
    ensures r.Ok? ==> forall i :: 0 <= i < |r.value| ==> Index(Elements(list).value[i], 0) == Ok(r.value[i])
    ensures Elements(list).Ok? ==>
              (r.Ok? <==> forall i :: 0 <= i < |Elements(list).value| ==> Index(Elements(list).value[i], 0).Ok?)
  {
    var subs :- Elements(list);
    MapAll(FirstOf, subs)
  }

  /** Whether questions of this kind carry an option list. */
  predicate HasOptions(kind: Json) {
    IsChoiceKind(kind) || IsKind(kind, LinearScale) || IsKind(kind, Grid)
  }

  /** Every position a question of this kind is read at exists, and so does
      the label of each of its option entries. */
  predicate PositionsPresent(kind: Json, q: Json) {
    && Path(q, [0]).Ok?
    && Path(q, [2]).Ok?
    && (HasOptions(kind) ==> Path(q, [1]).Ok? && OptionLabels(Path(q, [1]).value).Ok?)
    && (IsKind(kind, LinearScale) ==> Path(q, [3, 0]).Ok? && Path(q, [3, 1]).Ok?)
    && (IsKind(kind, Grid) ==> Path(q, [11, 0]).Ok? && Path(q, [3, 0]).Ok?)
  }

  /** One question array, read by position according to the section's kind. */
  function DecodeQuestion(kind: Json, q: Json): (r: Result<Question>)
    // Where each field comes from.
    ensures r.Ok? ==> Path(q, [0]) == Ok(r.value.entryId) && Path(q, [2]) == Ok(r.value.required)
    ensures r.Ok? ==> r.value.value == None
    ensures r.Ok? ==> (r.value.options.Some? <==> HasOptions(kind))
    ensures r.Ok? && HasOptions(kind) ==> OptionLabels(Path(q, [1]).value) == Ok(r.value.options.value)
    ensures r.Ok? ==> (r.value.min.Some? <==> IsKind(kind, LinearScale))
    ensures r.Ok? ==> (r.value.max.Some? <==> IsKind(kind, LinearScale))
    ensures r.Ok? && IsKind(kind, LinearScale) ==>
              Path(q, [3, 0]) == Ok(r.value.min.value) && Path(q, [3, 1]) == Ok(r.value.max.value)
    ensures r.Ok? ==> (r.value.selectionType.Some? <==> IsKind(kind, Grid))
    ensures r.Ok? ==> (r.value.columns.Some? <==> IsKind(kind, Grid))
    ensures r.Ok? && IsKind(kind, Grid) ==>
              Path(q, [11, 0]) == Ok(r.value.selectionType.value) && Path(q, [3, 0]) == Ok(r.value.columns.value)
    // When it fails: exactly when a position it reads is missing.
    ensures r.Ok? <==> PositionsPresent(kind, q)
  {
    var entryId :- Index(q, 0);
    var required :- Index(q, 2);
    var plain := Question(entryId, required, None, None, None, None, None, None);
    if IsChoiceKind(kind) then
      var list :- Index(q, 1);
      var options :- OptionLabels(list);
      Ok(plain.(options := Some(options)))
    else if IsKind(kind, LinearScale) then
      var list :- Index(q, 1);
      var options :- OptionLabels(list);
      var bounds :- Index(q, 3);
      var lo :- Index(bounds, 0);
      var hi :- Index(bounds, 1);
      Ok(plain.(options := Some(options), min := Some(lo), max := Some(hi)))
    else if IsKind(kind, Grid) then
      var selection :- Index(q, 11);
      var selectionType :- Index(selection, 0);
      var rows :- Index(q, 3);
      var columns :- Index(rows, 0);
      var list :- Index(q, 1);
      var options :- OptionLabels(list);
      Ok(plain.(selectionType := Some(selectionType), columns := Some(columns), options := Some(options)))
    else
      Ok(plain)
  }

  function QuestionDecoder(kind: Json): Json -> Result<Question> {
    q => DecodeQuestion(kind, q)
  }

  /** Whether a section array has a truthy question list at position 4. */
  predicate HasQuestionList(s: Json) {
    Index(s, 4).Ok? && Truthy(Index(s, 4).value)
  }

  /** One section array: dropped (`None`) unless position 4 holds a truthy
      question list; otherwise titled by position 1, typed by position 3,
      with one question per element of position 4. */
  function DecodeSection(s: Json): (r: Result<Option<Section>>)
    ensures r.Ok? ==> Index(s, 4).Ok? && (r.value.Some? <==> HasQuestionList(s))
    ensures r.Ok? && r.value.Some? ==>
              var sec := r.value.value;
              var items := Elements(Index(s, 4).value);
              && Index(s, 1) == Ok(sec.title)
              && Index(s, 3) == Ok(sec.kind)
              && items.Ok?
              && |sec.questions| == |items.value|
              && (forall m :: 0 <= m < |items.value| ==> DecodeQuestion(sec.kind, items.value[m]) == Ok(sec.questions[m]))
    ensures Index(s, 4).Ok? && !HasQuestionList(s) ==> r == Ok(None)
    // When it succeeds: every position it reads is there.
    ensures HasQuestionList(s) && Index(s, 3).Ok? && Index(s, 1).Ok? && Elements(Index(s, 4).value).Ok?
            && (forall m :: 0 <= m < |Elements(Index(s, 4).value).value| ==>
                  PositionsPresent(Index(s, 3).value, Elements(Index(s, 4).value).value[m]))
            ==> r.Ok?
  {
    var slot :- Index(s, 4);
    if !Truthy(slot) then Ok(None)
    else
      var kind :- Index(s, 3);
      var title :- Index(s, 1);
      var items :- Elements(slot);
      var questions :- MapAll(QuestionDecoder(kind), items);
      Ok(Some(Section(title, kind, questions)))
  }

  /** The sections that were kept, in order. */
  function Somes(xs: seq<Option<Section>>): (r: seq<Section>)
    ensures |r| <= |xs|
    decreases |xs|
  {
    if xs == [] then []
    else
      var last := xs[|xs| - 1];
      Somes(xs[..|xs| - 1]) + if last.Some? then [last.value] else []
  }

  /** `string_to_object_list` on an already parsed payload. */
  function Decode(payload: Json): (r: Result<seq<Section>>)
    ensures SectionArrays(payload).Err? ==> r == Err(SectionArrays(payload).error)
    ensures r.Ok? ==> SectionArrays(payload).Ok? && |r.value| <= |SectionArrays(payload).value|
  {
    var list :- Path(payload, [1, 1]);
    var ss :- Elements(list);
    var decoded :- MapAll(DecodeSection, ss);
    Ok(Somes(decoded))
  }

  /** The section arrays of the payload, `array[1][1]`. */
  function SectionArrays(payload: Json): Result<seq<Json>> {
    var list :- Path(payload, [1, 1]);
    Elements(list)
  }

  /** The section arrays whose question list is truthy, in order. */
  function Kept(ss: seq<Json>): seq<Json>
    decreases |ss|
  {
    if ss == [] then []
    else Kept(ss[..|ss| - 1]) + if HasQuestionList(ss[|ss| - 1]) then [ss[|ss| - 1]] else []
  }

  lemma {:induction false} SomesOfDecoded(ss: seq<Json>, decoded: seq<Option<Section>>)
    requires MapAll(DecodeSection, ss) == Ok(decoded)
    ensures |Somes(decoded)| == |Kept(ss)|
    ensures forall k :: 0 <= k < |Kept(ss)| ==> DecodeSection(Kept(ss)[k]) == Ok(Some(Somes(decoded)[k]))
    decreases |ss|
  {
    if ss != [] {
      var n := |ss| - 1;
      var init := MapAll(DecodeSection, ss[..n]).value;
      var d := DecodeSection(ss[n]).value;
      assert decoded == init + [d];
      SomesOfDecoded(ss[..n], init);
      var tail := SomesSnoc(init, d);
      assert Kept(ss) == Kept(ss[..n]) + (if HasQuestionList(ss[n]) then [ss[n]] else []);
      assert d.Some? <==> HasQuestionList(ss[n]);
      forall k | 0 <= k < |Kept(ss)|
        ensures DecodeSection(Kept(ss)[k]) == Ok(Some(Somes(decoded)[k]))
      {
        if k < |Kept(ss[..n])| {
          assert Kept(ss)[k] == Kept(ss[..n])[k];
          assert Somes(decoded)[k] == Somes(init)[k];
        }
      }
    }
  }

  /** The decoder keeps, in source order, exactly the section arrays whose
      position 4 is truthy, and decodes each of them as `DecodeSection` says;
      every other section array is dropped after reading its position 4. */
  lemma DecodeKeepsSectionsWithQuestions(payload: Json)
    requires Decode(payload).Ok?
    ensures SectionArrays(payload).Ok?
    ensures var ss := SectionArrays(payload).value;
            var secs := Decode(payload).value;
            && |secs| == |Kept(ss)|
            && (forall k :: 0 <= k < |secs| ==> DecodeSection(Kept(ss)[k]) == Ok(Some(secs[k])))
            && (forall s :: s in ss ==> Index(s, 4).Ok?)
  {
    var ss := SectionArrays(payload).value;
    var decoded := MapAll(DecodeSection, ss).value;
    SomesOfDecoded(ss, decoded);
  }

  /** A kept section always holds at least one question. */
  lemma DecodedSectionsAreNonEmpty(payload: Json)
    requires Decode(payload).Ok?
    ensures forall sec :: sec in Decode(payload).value ==> |sec.questions| >= 1
  {
    DecodeKeepsSectionsWithQuestions(payload);
    var ss := SectionArrays(payload).value;
    var secs := Decode(payload).value;
    forall sec | sec in secs ensures |sec.questions| >= 1 {
      var k :| 0 <= k < |secs| && secs[k] == sec;
      var s := Kept(ss)[k];
      assert Truthy(Index(s, 4).value);
    }
  }

  /** The number of questions held by the question lists of the kept sections. */
  function KeptQuestionCount(ss: seq<Json>): nat
    decreases |ss|
  {
    if ss == [] then 0
    else
      var s := ss[0];
      var here := if HasQuestionList(s) && Elements(Index(s, 4).value).Ok? then |Elements(Index(s, 4).value).value| else 0;
      here + KeptQuestionCount(ss[1..])
  }

  lemma {:induction false} KeptQuestionCountSnoc(ss: seq<Json>, s: Json)
    ensures KeptQuestionCount(ss + [s]) == KeptQuestionCount(ss) + KeptQuestionCount([s])
    decreases |ss|
  {
    if ss == [] {
      assert ss + [s] == [s];
    } else {
      assert (ss + [s])[1..] == ss[1..] + [s];
      KeptQuestionCountSnoc(ss[1..], s);
    }
  }

  lemma {:induction false} TotalOfDecoded(ss: seq<Json>, decoded: seq<Option<Section>>)
    requires MapAll(DecodeSection, ss) == Ok(decoded)
    ensures TotalQuestions(Somes(decoded)) == KeptQuestionCount(ss)
    decreases |ss|
  {
    if ss != [] {
      var n := |ss| - 1;
      var init := MapAll(DecodeSection, ss[..n]).value;
      var d := DecodeSection(ss[n]).value;
      assert decoded == init + [d];
      TotalOfDecoded(ss[..n], init);
      assert ss == ss[..n] + [ss[n]];
      KeptQuestionCountSnoc(ss[..n], ss[n]);
      var tail := SomesSnoc(init, d);
      QuestionsAppend(Somes(init), tail);
      OneSectionCount(ss[n], d, tail);
    }
  }

  /** Decoding one more section array adds its section, if it is kept. */
  lemma SomesSnoc(init: seq<Option<Section>>, d: Option<Section>) returns (tail: seq<Section>)
    ensures tail == (if d.Some? then [d.value] else [])
    ensures Somes(init + [d]) == Somes(init) + tail
  {
    tail := if d.Some? then [d.value] else [];
    assert (init + [d])[..|init|] == init;
  }

  /** The section decoded from one array holds as many questions as that
      array's kept question list has elements. */
  lemma OneSectionCount(s: Json, d: Option<Section>, tail: seq<Section>)
    requires DecodeSection(s) == Ok(d)
    requires tail == (if d.Some? then [d.value] else [])
    ensures |Questions(tail)| == KeptQuestionCount([s])
  {
    assert [s][1..] == [];
    if d.Some? {
      assert tail[1..] == [];
    }
  }

  lemma {:induction false} QuestionsAppend(a: seq<Section>, b: seq<Section>)
    ensures Questions(a + b) == Questions(a) + Questions(b)
    decreases |a|
  {
    if a == [] {
      assert a + b == b;
    } else {
      assert (a + b)[1..] == a[1..] + b;
      QuestionsAppend(a[1..], b);
    }
  }

  /** Structural count: the decoded form has as many questions as the kept
      sections' question lists have elements. */
  lemma DecodeQuestionCount(payload: Json)
    requires Decode(payload).Ok?
    ensures TotalQuestions(Decode(payload).value) == KeptQuestionCount(SectionArrays(payload).value)
  {
    var ss := SectionArrays(payload).value;
    TotalOfDecoded(ss, MapAll(DecodeSection, ss).value);
  }

  /** The decoder as the source writes it: a loop over the section arrays that
      appends each kept section (the body of that loop is `ReadSection`). */
  method StringToObjectList(payload: Json) returns (r: Result<seq<Section>>)
    ensures r == Decode(payload)
  {
    SectionArraysSteps(payload);
    DecodeBySections(payload);
    var wrapper := Index(payload, 1);
    if wrapper.Err? { return Err(wrapper.error); }
    var list := Index(wrapper.value, 1);
    if list.Err? { return Err(list.error); }
    var iter := Elements(list.value);
    if iter.Err? { return Err(iter.error); }
    r := ReadSections(iter.value);
  }

  /** The loop of the decoder: each section array is read in turn, the kept
      sections are appended, and the first failure ends the loop. */
  method ReadSections(ss: seq<Json>) returns (r: Result<seq<Section>>)
    ensures MapAll(DecodeSection, ss).Err? ==> r == Err(MapAll(DecodeSection, ss).error)
    ensures MapAll(DecodeSection, ss).Ok? ==> r == Ok(Somes(MapAll(DecodeSection, ss).value))
  {
    var objects: seq<Section> := [];
    ghost var decoded: seq<Option<Section>> := [];
    var i := 0;
    while i < |ss|
      invariant 0 <= i <= |ss|
      invariant MapAll(DecodeSection, ss[..i]) == Ok(decoded)
      invariant objects == Somes(decoded)
    {
      var sec := ReadSection(ss[i]);
      if sec.Err? {
        MapAllStops(DecodeSection, ss, i);
        return Err(sec.error);
      }
      MapAllSnoc(DecodeSection, ss, i);
      if sec.value.Some? {
        objects := objects + [sec.value.value];
      }
      decoded := decoded + [sec.value];
      i := i + 1;
    }
    assert ss[..i] == ss;
    r := Ok(objects);
  }

  /** `array[1][1]` then `iter(...)`, one step at a time. */
  lemma SectionArraysSteps(payload: Json)
    ensures Index(payload, 1).Err? ==> SectionArrays(payload) == Err(Index(payload, 1).error)
    ensures Index(payload, 1).Ok? && Index(Index(payload, 1).value, 1).Err? ==>
              SectionArrays(payload) == Err(Index(Index(payload, 1).value, 1).error)
    ensures Index(payload, 1).Ok? && Index(Index(payload, 1).value, 1).Ok? ==>
              SectionArrays(payload) == Elements(Index(Index(payload, 1).value, 1).value)
  {
  }

  /** Once the section arrays are there, decoding is mapping `DecodeSection`
      over them and keeping the sections. */
  lemma DecodeBySections(payload: Json)
    ensures SectionArrays(payload).Ok? ==>
              var m := MapAll(DecodeSection, SectionArrays(payload).value);
              Decode(payload) == if m.Err? then Err(m.error) else Ok(Somes(m.value))
  {
  }

  /** One turn of the decoder's loop: skip a section array without a truthy
      question list, otherwise read its type and title and append its
      questions one by one. */
  method ReadSection(section: Json) returns (r: Result<Option<Section>>)
    ensures r == DecodeSection(section)
  {
    var slot := Index(section, 4);
    if slot.Err? { return Err(slot.error); }
    if !Truthy(slot.value) { return Ok(None); }
    var kind := Index(section, 3);
    if kind.Err? { return Err(kind.error); }
    var title := Index(section, 1);
    if title.Err? { return Err(title.error); }
    var items := Elements(slot.value);
    if items.Err? { return Err(items.error); }
    var questionList: seq<Question> := [];
    var j := 0;
    while j < |items.value|
      invariant 0 <= j <= |items.value|
      invariant MapAll(QuestionDecoder(kind.value), items.value[..j]) == Ok(questionList)
    {
      var question := DecodeQuestion(kind.value, items.value[j]);
      if question.Err? {
        MapAllStops(QuestionDecoder(kind.value), items.value, j);
        return Err(question.error);
      }
      MapAllSnoc(QuestionDecoder(kind.value), items.value, j);
      questionList := questionList + [question.value];
      j := j + 1;
    }
    assert items.value[..j] == items.value;
    r := Ok(Some(Section(title.value, kind.value, questionList)));
  }
}
