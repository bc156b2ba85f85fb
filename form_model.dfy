/** The decoded form: sections holding questions, the numeric kind codes the
    pipeline branches on and the three label tables of the prompt. */
module FormModel {
  import opened Results
  import opened JsonValues

  /** One answerable field. Every field but `entryId` and `required` is
      absent unless the section's kind calls for it; `value` is absent until
      the answer binder fills it in. Field values are whatever the payload
      held at that position. */
  datatype Question = Question(
    entryId: Json,
    required: Json,
    options: Option<seq<Json>>,
    min: Option<Json>,
    max: Option<Json>,
    selectionType: Option<Json>,
    columns: Option<Json>,
    value: Option<Json>)

  /** A titled section with its kind code and its questions in form order. */
  datatype Section = Section(title: Json, kind: Json, questions: seq<Question>)

  // Kind codes, as positions in the kind label table.
  const ShortAnswer: int := 0
  const MultipleChoice: int := 2
  const Dropdown: int := 3
  const Checkboxes: int := 4
  const LinearScale: int := 5
  const Grid: int := 7
  const Date: int := 9
  const Time: int := 10

  /** Python's `kind == code`: only an integer equals an integer code (the
      codes tested are never 0 or 1, so booleans never match). */
  predicate IsKind(kind: Json, code: int) {
    kind == JInt(code)
  }

  /** Multiple choice, dropdown and checkboxes: the kinds that carry only options. */
  predicate IsChoiceKind(kind: Json) {
    IsKind(kind, MultipleChoice) || IsKind(kind, Dropdown) || IsKind(kind, Checkboxes)
  }

  /** `SECTION_TYPE`: one label per kind code 0..13. */
  const KindLabels: seq<string> :=
    ["簡答", "詳答", "選擇題", "下拉式選單", "核取方塊", "線性刻度", "標題",
     "單選方格/核取方格", "區段", "日期", "時間", "圖片", "12", "檔案"]

  /** `REQUIRED_TYPE`: optional, required. */
  const RequiredLabels: seq<string> := ["非必填", "必填"]

  /** `SELECTION_TYPE`: single-select grid, checkbox grid. */
  const SelectionLabels: seq<string> := ["單選方格", "核取方格"]

  /** `table[code]` in Python: an integer counts from the front, a negative one
      from the back, a boolean is 0 or 1; anything else cannot index a list. */
  function TableLabel(table: seq<string>, code: Json): (r: Result<string>)
    ensures code.JInt? && 0 <= code.i < |table| ==> r == Ok(table[code.i])
    ensures code.JInt? && -|table| <= code.i < 0 ==> r == Ok(table[|table| + code.i])
    ensures code.JInt? && !(-|table| <= code.i < |table|) ==> r == Err(IndexError)
    ensures !(code.JInt? || code.JBool?) ==> r == Err(TypeError)
  {
    match code
    case JInt(i) =>
      if 0 <= i < |table| then Ok(table[i])
      else if -|table| <= i < 0 then Ok(table[|table| + i])
      else Err(IndexError)
    case JBool(b) =>
      var i := if b then 1 else 0;
      if i < |table| then Ok(table[i]) else Err(IndexError)
    case _ => Err(TypeError)
  }

  /** Every question of the form in section-then-question order. */
  function Questions(secs: seq<Section>): seq<Question>
    decreases |secs|
  {
    if secs == [] then [] else secs[0].questions + Questions(secs[1..])
  }

  /** Every question with the section it belongs to, in traversal order. */
  function Traversal(secs: seq<Section>): (r: seq<(Section, Question)>)
    ensures |r| == |Questions(secs)|
    ensures forall k :: 0 <= k < |r| ==> r[k].1 == Questions(secs)[k]
    ensures forall k :: 0 <= k < |r| ==> r[k].0 in secs && r[k].1 in r[k].0.questions
    decreases |secs|
  {
    if secs == [] then [] else SectionPairs(secs[0]) + Traversal(secs[1..])
  }

  /** The questions of one section, each with its section. */
  function SectionPairs(s: Section): (r: seq<(Section, Question)>)
    ensures |r| == |s.questions|
    ensures forall j :: 0 <= j < |r| ==> r[j] == (s, s.questions[j])
  {
    seq(|s.questions|, j requires 0 <= j < |s.questions| => (s, s.questions[j]))
  }

  /** The number of questions of the form. */
  function TotalQuestions(secs: seq<Section>): nat {
    |Questions(secs)|
  }

  lemma QuestionsCons(s: Section, secs: seq<Section>)
    ensures Questions([s] + secs) == s.questions + Questions(secs)
  {
    assert ([s] + secs)[1..] == secs;
  }
}
