/** The prompt renderer: `objects_to_string` writes one text block per question
    for the answer generator, with labels from the three tables. */
module Renderer {
  import opened Results
  import opened JsonValues
  import opened FormModel

  /** `str(question.get(field))`: `None` when the field is absent. */
  function ShowField(f: Option<Json>): string {
    if f.Some? then Str(f.value) else "None"
  }

  /** `str(question.get('options'))`: the option list as Python writes a list. */
  function ShowOptions(options: Option<seq<Json>>): string {
    if options.Some? then Str(JArr(options.value)) else "None"
  }

  /** The three lines every block starts with: title, kind label, required label. */
  function Header(title: Json, kindLabel: string, requiredLabel: string): string {
    "問題:" + Str(title) + "\n類型:" + kindLabel + "\n是否必填:" + requiredLabel
  }

  /** The lines that depend on the kind: options; options with the scale's
      bounds; or the grid's rows, selection type (single-select by default)
      and options. */
  function KindLines(kind: Json, q: Question): (r: Result<string>)
    ensures r.Err? <==> IsKind(kind, Grid) && TableLabel(SelectionLabels, q.selectionType.GetOr(JInt(0))).Err?
    ensures r.Ok? && (IsChoiceKind(kind) || IsKind(kind, LinearScale)) ==> "\n選項:" + ShowOptions(q.options) <= r.value
    ensures r.Ok? && IsKind(kind, Grid) ==> "\n題目:" + ShowField(q.columns) <= r.value
    ensures !IsChoiceKind(kind) && !IsKind(kind, LinearScale) && !IsKind(kind, Grid) ==> r == Ok("")
  {
    if IsChoiceKind(kind) then
      Ok("\n選項:" + ShowOptions(q.options))
    else if IsKind(kind, LinearScale) then
      Ok("\n選項:" + ShowOptions(q.options) + "\n最小為:" + ShowField(q.min) + "\n最大為:" + ShowField(q.max))
    else if IsKind(kind, Grid) then
      var selection :- TableLabel(SelectionLabels, q.selectionType.GetOr(JInt(0)));
      Ok("\n題目:" + ShowField(q.columns) + "\n選項類型:" + selection + "\n選項:" + ShowOptions(q.options))
    else
      Ok("")
  }

  /** The block for one question of a section. It fails exactly when a code
      falls outside its label table; it starts with the header, and a kind
      without extra fields gets the header alone. */
  function QuestionBlock(sec: Section, q: Question): (r: Result<string>)
    ensures r.Ok? <==>
              && TableLabel(KindLabels, sec.kind).Ok?
              && TableLabel(RequiredLabels, q.required).Ok?
              && (IsKind(sec.kind, Grid) ==> TableLabel(SelectionLabels, q.selectionType.GetOr(JInt(0))).Ok?)
    ensures r.Ok? ==>
              Header(sec.title, TableLabel(KindLabels, sec.kind).value, TableLabel(RequiredLabels, q.required).value)
              <= r.value
    ensures r.Ok? && !IsChoiceKind(sec.kind) && !IsKind(sec.kind, LinearScale) && !IsKind(sec.kind, Grid) ==>
              r.value == Header(sec.title, TableLabel(KindLabels, sec.kind).value, TableLabel(RequiredLabels, q.required).value)
    ensures r.Ok? && IsChoiceKind(sec.kind) ==>
              r.value == Header(sec.title, TableLabel(KindLabels, sec.kind).value, TableLabel(RequiredLabels, q.required).value)
                         + ("\n選項:" + ShowOptions(q.options))
    ensures r.Ok? && IsKind(sec.kind, LinearScale) ==>
              r.value == Header(sec.title, TableLabel(KindLabels, sec.kind).value, TableLabel(RequiredLabels, q.required).value)
                         + ("\n選項:" + ShowOptions(q.options) + "\n最小為:" + ShowField(q.min) + "\n最大為:" + ShowField(q.max))
    ensures r.Ok? && IsKind(sec.kind, Grid) ==>
              r.value == Header(sec.title, TableLabel(KindLabels, sec.kind).value, TableLabel(RequiredLabels, q.required).value)
                         + ("\n題目:" + ShowField(q.columns)
                            + "\n選項類型:" + TableLabel(SelectionLabels, q.selectionType.GetOr(JInt(0))).value
                            + "\n選項:" + ShowOptions(q.options))
  {
    var kindLabel :- TableLabel(KindLabels, sec.kind);
    var requiredLabel :- TableLabel(RequiredLabels, q.required);
    var lines :- KindLines(sec.kind, q);
    Ok(Header(sec.title, kindLabel, requiredLabel) + lines)
  }

  function BlockWriter(sec: Section): Question -> Result<string> {
    q => QuestionBlock(sec, q)
  }

  /** The blocks of one section, one per question. */
  function SectionBlocks(sec: Section): Result<seq<string>> {
    MapAll(BlockWriter(sec), sec.questions)
  }

  /** All blocks, section by section. */
  function Blocks(secs: seq<Section>): Result<seq<string>> {
    ConcatResult(MapAll(SectionBlocks, secs))
  }

  /** `objects_to_string`: empty text for `None` or an empty list, otherwise
      the blocks joined by a blank line. */
  function Render(objects: Option<seq<Section>>): (r: Result<string>)
    ensures objects.None? || objects == Some([]) ==> r == Ok("")
  {
    if objects.None? || objects.value == [] then Ok("")
    else
      var blocks :- Blocks(objects.value);
      Ok(Join("\n\n", blocks))
  }

  function PairBlock(p: (Section, Question)): Result<string> {
    QuestionBlock(p.0, p.1)
  }

  lemma BlocksCons(s: Section, rest: seq<Section>)
    ensures Blocks([s] + rest) == AppendResults(SectionBlocks(s), Blocks(rest))
  {
    MapAllAppend(SectionBlocks, [s], rest);
    MapAllSingle(SectionBlocks, s);
    ConcatResultAppend(MapAll(SectionBlocks, [s]), MapAll(SectionBlocks, rest));
    if SectionBlocks(s).Ok? {
      ConcatSingle(SectionBlocks(s).value);
    }
  }

  /** The blocks come one per question, in section-then-question order. */
  lemma {:induction false} BlocksFollowTraversal(secs: seq<Section>)
    ensures Blocks(secs) == MapAll(PairBlock, Traversal(secs))
    decreases |secs|
  {
    if secs != [] {
      var s, rest := secs[0], secs[1..];
      assert secs == [s] + rest;
      BlocksCons(s, rest);
      MapAllAppend(PairBlock, SectionPairs(s), Traversal(rest));
      MapAllPointwise(PairBlock, SectionPairs(s), BlockWriter(s), s.questions);
      BlocksFollowTraversal(rest);
    }
  }

  /** A rendered form is the blocks of all its questions, in traversal order,
      joined by a blank line. */
  lemma RenderOneBlockPerQuestion(secs: seq<Section>)
    requires secs != [] && Render(Some(secs)).Ok?
    ensures Blocks(secs).Ok?
    ensures Render(Some(secs)) == Ok(Join("\n\n", Blocks(secs).value))
    ensures |Blocks(secs).value| == TotalQuestions(secs)
    ensures forall k :: 0 <= k < TotalQuestions(secs) ==> PairBlock(Traversal(secs)[k]) == Ok(Blocks(secs).value[k])
  {
    BlocksFollowTraversal(secs);
  }

  /** A section with at least one question whose kind code is outside the
      14-entry kind table makes the whole rendering fail. */
  lemma UnknownKindFails(secs: seq<Section>, k: int)
    requires 0 <= k < |secs| && secs[k].questions != []
    requires TableLabel(KindLabels, secs[k].kind).Err?
    ensures Render(Some(secs)).Err?
  {
    if MapAll(SectionBlocks, secs).Ok? {
      assert false;
    }
  }

  /** The renderer as the source writes it: a loop over sections and their
      questions appending one block per question. */
  method ObjectsToString(objects: Option<seq<Section>>) returns (r: Result<string>)
    ensures r == Render(objects)
  {
    if objects.None? || objects.value == [] {
      return Ok("");
    }
    var secs := objects.value;
    var stringList: seq<string> := [];
    ghost var per: seq<seq<string>> := [];
    var i := 0;
    while i < |secs|
      invariant 0 <= i <= |secs|
      invariant MapAll(SectionBlocks, secs[..i]) == Ok(per)
      invariant stringList == Concat(per)
    {
      ghost var cur := SectionBlocks(secs[i]);
      var next := AppendBlocks(secs[i], stringList);
      if next.Err? {
        MapAllStops(SectionBlocks, secs, i);
        return Err(next.error);
      }
      stringList := next.value;
      MapAllSnoc(SectionBlocks, secs, i);
      assert (per + [cur.value])[..|per|] == per;
      per := per + [cur.value];
      i := i + 1;
    }
    assert secs[..i] == secs;
    r := Ok(Join("\n\n", stringList));
  }

  /** The inner loop of `objects_to_string`: the blocks of one section's
      questions, appended to the list so far, or the first failure. */
  method AppendBlocks(sec: Section, acc: seq<string>) returns (r: Result<seq<string>>)
    ensures SectionBlocks(sec).Err? ==> r == Err(SectionBlocks(sec).error)
    ensures SectionBlocks(sec).Ok? ==> r == Ok(acc + SectionBlocks(sec).value)
  {
    var out := acc;
    ghost var cur: seq<string> := [];
    var j := 0;
    while j < |sec.questions|
      invariant 0 <= j <= |sec.questions|
      invariant MapAll(BlockWriter(sec), sec.questions[..j]) == Ok(cur)
      invariant out == acc + cur
    {
      var text := QuestionBlock(sec, sec.questions[j]);
      if text.Err? {
        MapAllStops(BlockWriter(sec), sec.questions, j);
        return Err(text.error);
      }
      MapAllSnoc(BlockWriter(sec), sec.questions, j);
      out := out + [text.value];
      cur := cur + [text.value];
      j := j + 1;
    }
    assert sec.questions[..j] == sec.questions;
    r := Ok(out);
  }
}
