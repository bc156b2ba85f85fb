# AutoFormAI form pipeline, modelled in Dafny

AutoFormAI fills in a Google Form with answers from a text generator. The
pipeline has these steps:

1. Read the form's `FB_PUBLIC_LOAD_DATA_` payload, a positional nested array,
   into sections and questions (`string_to_object_list`).
2. Write one prompt block per question (`objects_to_string`).
3. Ask the generator for a JSON array of answers.
4. Strip the reply and any Markdown code fence around it
   (`extract_json_from_response`, or the inline copy of the same code in
   single mode), then parse it.
5. Store the answers into the questions in traversal order, popping them off
   the front of the answer list (`set_answer`).
6. Encode the filled form as the pre-filled address
   `url?entry.<id>=<value>&...` (`objects_to_result_strings`).

In batch mode, steps 5 and 6 run on a fresh `deepcopy` of the decoded form for
each reply. A reply that fails at any step is counted and skipped.

The project models these steps:

- `results.dfy` (`Results`): Python's exceptions, as a `Result` that carries
  the exception class, plus `MapAll`, the left-to-right loop that stops at the
  first raise.
- `json.dfy` (`JsonValues`): the parsed JSON values with Python's meaning of
  truthiness, `x[i]`, iteration, `in`, `d[key]`, `str` and `repr`.
- `form_model.dfy` (`FormModel`): sections, questions, the kind codes, the
  three label tables, and the traversal order.
- `decoder.dfy` (`Decoder`): the payload decoder, as a specification function
  and as the source's nested loop.
- `renderer.dfy` (`Renderer`): the prompt renderer.
- `binder.dfy` (`Binder`): the in-place answer binder. It is a `Form` class
  whose `sections` field is rewritten question by question, and an
  `AnswerList` class whose `items` field `pop(0)` consumes.
- `encoder.dfy` (`Encoder`): the address encoder.
- `fence.dfy` (`Fence`): `str.strip` and fence removal.
- `pipeline.dfy` (`Pipeline`): one fill cycle in single mode and in batch
  mode, and the batch loop.

Each loop of the source is a method whose `ensures` equates its result, or
its new state, with a specification function. The properties are proved as
lemmas about those functions.

Both source files contain the same decoder, encoder, renderer and binder:

| function | `ai_batch_form.py` | `ai_form.py` |
|---|---|---|
| decoder | 53-90 | 50-87 |
| encoder | 93-121 | 90-118 |
| renderer | 124-152 | 121-149 |
| binder | 156-160 | 153-157 |

The table below cites the batch file. The fence code inlined at
`python/ai_form.py` lines 269-281 is the same as `extract_json_from_response`.

Behaviours of the code worth noting:

- **Out-of-range kind code.** The decoder does not reject an out-of-range
  kind code; it keeps it. Only the renderer fails on it, when looking up the
  kind label (`Renderer.UnknownKindFails`).
- **Encoding can raise.** The encoder raises for a date or time question
  with no value (`KeyError`). It also raises when the value cannot be searched
  with `in` (`TypeError`), and for a list or string value that contains the
  part's name (`TypeError` from the subscript).
- **Fragment count.** The number of fragments is not the number of answered
  questions. A list value gives one fragment per element, and a date up to
  three (`Encoder.EncodeWithoutDates`, `Encoder.QuestionFragments`).
- **Non-list replies.** A parsed reply that is not a list fails in
  `set_answer`, but only if the form has a question: `pop(0)` on a dict
  raises `KeyError`, and on anything else `AttributeError`.

## Model

| member | source | states |
|---|---|---|
| Results.MapAll | python/ai_batch_form.py:72 | a loop over the elements succeeds iff the step succeeds on every element; then there is one result per element, in order |
| Results.Join | python/ai_batch_form.py:119 | `sep.join` of no parts is empty, and a join of some parts starts with the first part |
| Results.JoinLength | python/ai_batch_form.py:119 | a join is as long as its parts together, plus one separator between each two neighbouring parts |
| Results.JoinAppend | python/ai_batch_form.py:152 | joining two non-empty runs of parts gives the two joins with one separator between them |
| JsonValues.Index | python/ai_batch_form.py:57-61 | Python's `x[k]`: a list in range gives its element, out of range `IndexError`; a dict `KeyError`; a number, boolean or `None` `TypeError` |
| JsonValues.Elements | python/ai_batch_form.py:57 | iterating a list gives its elements; a string its characters, each as a one-character string, in order; a dict its keys, in order; anything else cannot be iterated |
| JsonValues.Lookup | python/ai_batch_form.py:99-104 | `d[key]` finds a value iff the key is present, and the value is stored under that key |
| JsonValues.Contains | python/ai_batch_form.py:99 | `key in v` is defined exactly for dicts, lists and strings; for a dict it is key presence |
| JsonValues.Subscript | python/ai_batch_form.py:98-100 | `v[key]` with a string key succeeds exactly on a dict holding the key, giving the value stored under it |
| JsonValues.Truthy | python/ai_batch_form.py:58 | a value is falsy exactly when it is `None`, `False`, `0`, `""`, `[]` or `{}` |
| JsonValues.NatDecimal | python/ai_batch_form.py:100 | `str` of a natural number is nonempty, is all digits, and has no leading zero |
| JsonValues.NatDecimalRoundTrip | python/ai_batch_form.py:100 | reading back the digits `str` writes for a natural number gives that number |
| JsonValues.DecimalRoundTrip | python/ai_batch_form.py:100 | reading back `str(i)` for any integer, sign included, gives `i` |
| JsonValues.Str | python/ai_batch_form.py:100 | `str` of a string is the string itself; of an integer its canonical decimal text (a minus sign for a negative number, then digits without a leading zero), which reads back as the number; of `None` the text `None` |
| JsonValues.Repr | python/ai_batch_form.py:142 | `repr` of `None`, `True` and `False` is their name; of an integer its canonical decimal text, which reads back as the number; of a string the string in single quotes; of a list a bracketed and of a dict a braced text |
| FormModel.TableLabel | python/ai_batch_form.py:138-139 | `table[code]` gives the label at a non-negative in-range code, counts from the back for a negative one, raises `IndexError` outside the table and `TypeError` for a non-integer code |
| FormModel.Traversal | python/ai_batch_form.py:157-158 | section-then-question order pairs every question, in `Questions` order, with a section of the form that holds it |
| FormModel.SectionPairs | python/ai_batch_form.py:136 | a section's questions, each paired with that section, in order |
| Decoder.Path | python/ai_batch_form.py:75-79 | a chain of positional subscripts such as `q[3][0]` fails at the first subscript that fails |
| Decoder.OptionLabels | python/ai_batch_form.py:72 | `[sub[0] for sub in list]` succeeds iff the list can be iterated and every entry has a position 0; then it holds those labels, in order |
| Decoder.DecodeQuestion | python/ai_batch_form.py:66-82 | each field comes from its fixed position; options, bounds, selection type and columns are present exactly for the kinds that read them; no value yet; fails iff a read position is missing |
| Decoder.DecodeSection | python/ai_batch_form.py:58-85 | a section is kept iff position 4 is truthy; then its title, kind and one decoded question per element come from positions 1, 3 and 4; it succeeds when all of these positions are present and every question array holds the positions its kind reads |
| Decoder.SomesOfDecoded | python/ai_batch_form.py:57-85 | the kept sections are exactly the decoded sections with a truthy question list, in payload order |
| Decoder.DecodeKeepsSectionsWithQuestions | python/ai_batch_form.py:57-85 | a successful decode keeps exactly the section arrays with a truthy question list, decodes each as `DecodeSection` says, and read position 4 of every section array |
| Decoder.DecodedSectionsAreNonEmpty | python/ai_batch_form.py:58 | every decoded section holds at least one question |
| Decoder.TotalOfDecoded | python/ai_batch_form.py:64-85 | the kept sections hold as many questions as their question lists have elements |
| Decoder.DecodeQuestionCount | python/ai_batch_form.py:64-85 | the decoded form has one question per element of the kept question lists |
| Decoder.Decode | python/ai_batch_form.py:53-90 | a payload whose section arrays cannot be reached fails with that error; a successful decode comes from reachable section arrays and keeps at most one section per array |
| Decoder.StringToObjectList | python/ai_batch_form.py:53-90 | the source's loop over section arrays returns exactly `Decode(payload)`, failures included |
| Decoder.ReadSections | python/ai_batch_form.py:57-85 | the loop over the section arrays fails with the first failing section, else gives the kept sections of `MapAll(DecodeSection, ...)` in order |
| Decoder.ReadSection | python/ai_batch_form.py:58-85 | one turn of that loop, with its inner loop over question arrays, returns exactly `DecodeSection` |
| Renderer.QuestionBlock | python/ai_batch_form.py:137-150 | a block fails iff the kind, required or (grid) selection code is outside its table; it is the title, kind label and required label, then `選項:` and the options for choice kinds, also `最小為:`/`最大為:` and the bounds for a linear scale, `題目:`, columns, `選項類型:` with the selection label and the options for a grid, and nothing more for other kinds |
| Renderer.KindLines | python/ai_batch_form.py:141-150 | the kind-specific lines fail iff the kind is a grid and its selection code has no label; choice and scale kinds start with `選項:` and the options, a grid with `題目:` and the columns, other kinds add nothing |
| Renderer.Render | python/ai_batch_form.py:130-131 | `None` or an empty list renders as empty text, without failing |
| Renderer.BlocksFollowTraversal | python/ai_batch_form.py:134-151 | the blocks come one per question in section-then-question order, each from its own section and question |
| Renderer.RenderOneBlockPerQuestion | python/ai_batch_form.py:133-152 | a rendered non-empty form holds one block per question in the traversal, joined by a blank line |
| Renderer.UnknownKindFails | python/ai_batch_form.py:138 | a non-empty section whose kind code has no label makes rendering fail |
| Renderer.ObjectsToString | python/ai_batch_form.py:124-152 | the source's nested loop returns exactly `Render(objects)` |
| Renderer.AppendBlocks | python/ai_batch_form.py:136-151 | the loop over one section's questions appends `SectionBlocks` of that section to the list so far, or fails as it does |
| Binder.Form.DeepCopy | python/ai_batch_form.py:327 | the copy is a new object with equal contents |
| Binder.AnswerList.PopFront | python/ai_batch_form.py:159 | `pop(0)` returns and removes the first answer; it raises `IndexError` on an empty list and leaves it empty |
| Binder.BindQuestions | python/ai_batch_form.py:158-160 | a binding that stops early has consumed every answer |
| Binder.BindSections | python/ai_batch_form.py:156-160 | binding gives one section per section of the form, and a binding that stops early has consumed every answer |
| Binder.AssignInOrder | python/ai_batch_form.py:156-160 | the reference reading: the k-th question in traversal order gets the k-th answer, if there is one; the length is kept |
| Binder.BindQuestionsInOrder | python/ai_batch_form.py:158-160 | binding one section is `AssignInOrder`; it succeeds iff there are at least as many answers as questions; the unconsumed answers are the suffix after them |
| Binder.BindSectionsInOrder | python/ai_batch_form.py:156-160 | binding the form gives the k-th question the k-th answer and changes no title, kind or question count; it succeeds iff there are enough answers; the surplus stays in the list |
| Binder.BindNeedsOneAnswerPerQuestion | python/ai_batch_form.py:159 | a one-question form fails to bind with no answers, and binds with exactly one answer, leaving none |
| Binder.SetValue | python/ai_batch_form.py:160 | writing one question's value sets that question's value to the answer, keeps the title and kind of its section and every other question of it, and changes no other section |
| Binder.BindSectionAt | python/ai_batch_form.py:158-160 | the inner loop rewrites only section `i`, as `BindSection` says; it leaves the answers `BindQuestions` leaves; it raises `IndexError` exactly when they run out |
| Binder.SetAnswer | python/ai_batch_form.py:156-160 | the form and answer list end as `BindSections` says, including the partly bound form left when the answers run out; it raises `IndexError` exactly then |
| Encoder.DatePart | python/ai_batch_form.py:99-100 | `key in v and v[key]` raises iff `in` is undefined or the key is "in" a list or string; a dict gives one fragment iff the part is present and truthy, written with the part's suffix |
| Encoder.DateFragments | python/ai_batch_form.py:97-104 | a date value that `in` cannot search raises `TypeError`; every fragment names the entry |
| Encoder.TimeFragments | python/ai_batch_form.py:105-110 | a time value that `in` cannot search raises `TypeError`; every fragment names the entry |
| Encoder.ListFragments | python/ai_batch_form.py:113-115 | one `entry.<id>=<element>` fragment per list element, in order |
| Encoder.QuestionFragments | python/ai_batch_form.py:97-117 | a date or time without a value raises `KeyError`, with an unsearchable value `TypeError`; other kinds never raise and give `ValueCount` fragments, one per list element in order or one for a truthy scalar; all name the entry |
| Encoder.Fragment | python/ai_batch_form.py:100-117 | a fragment is `entry.<id>`, the suffix, `=`, then `str` of the value |
| Encoder.DateAndTimeAsDict | python/ai_batch_form.py:97-110 | a dict date gives its present truthy parts in year, month, day order; a dict time its hour then its minute |
| Encoder.DateOmitsFalsyPart | python/ai_batch_form.py:99-104 | a falsy month is left out, while the year and the day around it keep their `_year` and `_day` suffixes |
| Encoder.SampleDateFragments | python/ai_batch_form.py:97-104 | a date question for entry 123 holding `{"year": 2024, "month": 0, "day": 15}` encodes as exactly `entry.123_year=2024` and `entry.123_day=15` |
| Encoder.EncodeFollowsTraversal | python/ai_batch_form.py:95-117 | the fragments come question by question in section-then-question order |
| Encoder.EncodeWithoutDates | python/ai_batch_form.py:111-117 | a form without date and time questions always encodes, into as many fragments as its questions' `ValueCount`s add up to |
| Encoder.EncodeEmpty | python/ai_batch_form.py:119-120 | no fragments give the bare address followed by `?` |
| Encoder.EncodeShape | python/ai_batch_form.py:95-121 | the address is the base address, `?`, and the fragments of every question in section-then-question order, joined by `&` |
| Encoder.Encode | python/ai_batch_form.py:119-121 | encoding succeeds iff every question's fragments do, and the address then starts with the base address and `?` |
| Encoder.AppendQuestion | python/ai_batch_form.py:97-117 | appending one question's fragments, with the loop over a list's elements, gives `QuestionFragments` after the accumulator, or its failure |
| Encoder.AppendSection | python/ai_batch_form.py:96-117 | appending one section's fragments gives `SectionFragments` after the accumulator, or its failure |
| Encoder.ObjectsToResultStrings | python/ai_batch_form.py:93-121 | the source's nested loop returns exactly `Encode(url, objects)` |
| Fence.SkipStart | python/ai_batch_form.py:256 | where `strip` starts lies between the given position and the end |
| Fence.SkipEnd | python/ai_batch_form.py:256 | where `strip` ends lies between the start and the given position |
| Fence.SkipStartSpaces | python/ai_batch_form.py:256 | everything skipped at the front is whitespace, and the first character kept is not |
| Fence.SkipEndSpaces | python/ai_batch_form.py:256 | everything skipped at the back is whitespace, and the last character kept is not |
| Fence.Strip | python/ai_batch_form.py:256 | `strip` never lengthens a text, and what it gives neither starts nor ends with whitespace |
| Fence.StripTrims | python/ai_batch_form.py:256 | `strip` gives the slice between the leading and the trailing whitespace, which start and end on non-whitespace |
| Fence.StripIdempotent | python/ai_batch_form.py:262 | stripping a stripped text changes nothing |
| Fence.ExtractJsonText | python/ai_batch_form.py:254-269 | a text that does not start with a fence comes out stripped and otherwise unchanged; the cleaned reply never starts or ends with whitespace, fenced or not |
| Fence.UnfenceClosed | python/ai_batch_form.py:259-262 | removing the opening and a closing fence leaves the stripped text between them |
| Fence.JsonFenceRemoved | python/ai_batch_form.py:257-262 | a reply fenced by `` ```json `` and `` ``` `` gives the stripped text between the fences |
| Fence.BareFenceRemoved | python/ai_batch_form.py:263-268 | a reply fenced by a bare `` ``` `` not followed by `json`, and closed by `` ``` ``, gives the stripped text between the fences |
| Fence.UnclosedBareFence | python/ai_batch_form.py:263-268 | a bare `` ``` `` opening, not followed by `json`, with no closing fence gives the stripped rest |
| Fence.UnclosedFence | python/ai_batch_form.py:257-262 | a `` ```json `` opening with no closing fence gives the stripped rest |
| Pipeline.FillForm | python/ai_form.py:290-291 | single mode fills the form in place and returns `Cycle`; a list reply leaves the form bound as `BindSections` says, any other reply leaves it unchanged |
| Pipeline.FillCopy | python/ai_batch_form.py:327-331 | deep copy, bind and encode return `Cycle` of the template, and the template is not written |
| Pipeline.Cycle | python/ai_batch_form.py:328-331 | a list reply shorter than the question count raises `IndexError`, a long enough one encodes the bound form; a non-list reply raises `KeyError` for a dict and `AttributeError` otherwise, unless the form has no question, which encodes unchanged |
| Pipeline.BatchUrls | python/ai_batch_form.py:316-345 | a batch collects at most one address per reply |
| Pipeline.Outcome | python/ai_batch_form.py:317-345 | a reply contributes at most one address, and one exactly when it was generated, parses and its cycle succeeds, namely the cycle's address |
| Pipeline.RunBatch | python/ai_batch_form.py:316-345 | the batch loop collects exactly `BatchUrls`, and every reply is either an address or counted as failed |
| Pipeline.SurplusIgnored | python/ai_batch_form.py:328 | answers beyond the question count do not change the address |
| Pipeline.BindEqualByQuestions | python/ai_batch_form.py:156-160 | two bindings of one form that agree on every question are the same form |
| Pipeline.FillRoundTrip | python/ai_batch_form.py:327-331 | a form without dates or times, given one truthy scalar answer per question, gives `url?entry.<id>=<answer>&...` in traversal order |
| Pipeline.BoundKeepsKinds | python/ai_batch_form.py:156-160 | binding keeps a form free of date and time sections |
| Pipeline.TwoAnswerExample | python/ai_batch_form.py:327-331 | a short-answer entry 111 and a linear-scale entry 222 answered `"42"` and `"7"` give `url?entry.111=42&entry.222=7` |

## Left out

- JSON parsing (`json.loads`): the decoder starts from an already parsed
  value, and the batch loop takes parsing as the `parse` parameter, where
  `None` stands for a parse error.
- Fetching the form (`get_form`, `requests`, the status check and the
  regular expression that finds `FB_PUBLIC_LOAD_DATA_`): this is network I/O.
- The generator call (`generate_response`, both client APIs, the variation
  prompt, temperature): it is a foreign service. The batch loop takes its
  replies as a sequence, with `None` for a call that raised.
- The prompt text (`PROMPT_PARTS`) and building the prompt from the rendered
  form: these are constant text.
- The command line, `print`, `sys.exit`, sleeping between requests and
  writing the addresses to a file: this is I/O and timing.
- Floating-point JSON numbers: they are not in the value type, so a float
  kind code such as `9.0`, which Python compares equal to `9`, is not
  modelled.
- `repr` of strings: it is modelled as single quotes around the text. The
  choice of quote and the escaping of embedded quotes and control characters
  are not modelled.
- Duplicate dict keys: `Lookup` takes the first occurrence, whereas
  `json.loads` keeps the last.
- URL escaping: the source does none, and neither does the model.
- Binder.SetAnswer: its inner loop over questions is the separate method
  `Binder.BindSectionAt`.
- Decoder.StringToObjectList: its loop is the separate method
  `Decoder.ReadSections`, whose loop body is the method `Decoder.ReadSection`.
- Renderer.ObjectsToString: its inner loop is the separate method
  `Renderer.AppendBlocks`.
- Renderer.Render: its own contract states only the empty case; the rest is
  stated by `Renderer.RenderOneBlockPerQuestion` and
  `Renderer.BlocksFollowTraversal`.
- Pipeline.FillRoundTrip: it is proved only for forms without date and time
  questions, with truthy scalar answers. Other cases are covered by the
  encoder lemmas.
- Fence.BareFenceRemoved: it requires that the body not start with `json`,
  since such a body would be read as a `` ```json `` fence.
- RunBatch: the batch starts from an already decoded form. Before its loop,
  `main` renders the form once (`python/ai_batch_form.py` line 301) and exits
  when no form was read (lines 296-299). So a kind code with no label ends the
  run before any cycle, whereas the model's batch still produces addresses.
- Exceptions are modelled only by their class (`IndexError`, `KeyError`,
  `TypeError`, `AttributeError`), not by their message.
