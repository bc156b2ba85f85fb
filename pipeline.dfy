/** One fill cycle and the batch loop: the parsed reply is bound into the form
    with `set_answer` and the form is encoded with
    `objects_to_result_strings`; in batch mode every cycle works on a fresh
    deep copy of the decoded form, and a failing cycle is counted and skipped. */
module Pipeline {
  import opened Results
  import opened JsonValues
  import opened FormModel
  import opened Binder
  import opened Encoder
  import opened Fence

  /** `set_answer(form, parsed)` then `objects_to_result_strings(url, form)`.
      A list reply is consumed from the front. Any other reply has no list
      `pop`: a dict raises `KeyError` for the missing key `0`, anything else
      `AttributeError`, but only once there is a question to bind. */
  function Cycle(secs: seq<Section>, parsed: Json, url: string): (r: Result<string>)
    ensures parsed.JArr? && |parsed.elems| < TotalQuestions(secs) ==> r == Err(IndexError)
    ensures parsed.JArr? && |parsed.elems| >= TotalQuestions(secs) ==> r == Encode(url, BindSections(secs, parsed.elems).items)
    ensures !parsed.JArr? && TotalQuestions(secs) > 0 ==> r == Err(if parsed.JObj? then KeyError else AttributeError)
    ensures !parsed.JArr? && TotalQuestions(secs) == 0 ==> r == Encode(url, secs)
  {
    if parsed.JArr? then
      BindSectionsInOrder(secs, parsed.elems);
      var b := BindSections(secs, parsed.elems);
      if !b.ok then Err(IndexError) else Encode(url, b.items)
    else if TotalQuestions(secs) == 0 then Encode(url, secs)
    else if parsed.JObj? then Err(KeyError)
    else Err(AttributeError)
  }

  /** The end of `main` in single mode: the form itself is filled in place,
      then encoded. */
  method FillForm(form: Form, parsed: Json, url: string) returns (r: Result<string>)
    modifies form
    ensures r == Cycle(old(form.sections), parsed, url)
    ensures parsed.JArr? ==> form.sections == BindSections(old(form.sections), parsed.elems).items
    ensures !parsed.JArr? ==> form.sections == old(form.sections)
  {
    if !parsed.JArr? {
      if TotalQuestions(form.sections) != 0 {
        return if parsed.JObj? then Err(KeyError) else Err(AttributeError);
      }
      r := ObjectsToResultStrings(url, form.sections);
      return;
    }
    var answers := new AnswerList(parsed.elems);
    var bound := SetAnswer(form, answers);
    if bound.Err? {
      return Err(bound.error);
    }
    r := ObjectsToResultStrings(url, form.sections);
  }

  /** One batch iteration: `deepcopy(form)`, bind, encode. The template
      itself is never written. */
  method FillCopy(template: Form, parsed: Json, url: string) returns (r: Result<string>)
    ensures r == Cycle(template.sections, parsed, url)
  {
    var copy := template.DeepCopy();
    r := FillForm(copy, parsed, url);
  }

  /** What one batch iteration adds to the list of addresses: nothing when
      generation raised (`None`), when the cleaned reply does not parse, or
      when the cycle fails. */
  function Outcome(secs: seq<Section>, reply: Option<string>, parse: string -> Option<Json>, url: string): (r: seq<string>)
    ensures |r| <= 1
    ensures r != [] <==>
              reply.Some? && parse(ExtractJsonText(reply.value)).Some?
              && Cycle(secs, parse(ExtractJsonText(reply.value)).value, url).Ok?
    ensures r != [] ==> Cycle(secs, parse(ExtractJsonText(reply.value)).value, url) == Ok(r[0])
  {
    if reply.None? then []
    else
      var parsed := parse(ExtractJsonText(reply.value));
      if parsed.None? then []
      else
        var r := Cycle(secs, parsed.value, url);
        if r.Ok? then [r.value] else []
  }

  /** The addresses a batch collects, in reply order. */
  function BatchUrls(secs: seq<Section>, replies: seq<Option<string>>, parse: string -> Option<Json>, url: string): (r: seq<string>)
    ensures |r| <= |replies|
    decreases |replies|
  {
    if replies == [] then []
    else BatchUrls(secs, replies[..|replies| - 1], parse, url) + Outcome(secs, replies[|replies| - 1], parse, url)
  }

  /** The batch loop of `main`. Generation is outside the model: `replies`
      holds what each call returned (`None` when it raised) and `parse`
      stands for `json.loads` (`None` when it raised). */
  method RunBatch(template: Form, replies: seq<Option<string>>, parse: string -> Option<Json>, url: string)
    returns (urls: seq<string>, failed: nat)
    ensures urls == BatchUrls(template.sections, replies, parse, url)
    ensures failed + |urls| == |replies|
  {
    urls := [];
    failed := 0;
    var i := 0;
    while i < |replies|
      invariant 0 <= i <= |replies|
      invariant urls == BatchUrls(template.sections, replies[..i], parse, url)
      invariant failed + |urls| == i
    {
      assert replies[..i + 1][..i] == replies[..i];
      var reply := replies[i];
      if reply.None? {
        failed := failed + 1;
      } else {
        var parsed := parse(ExtractJsonText(reply.value));
        if parsed.None? {
          failed := failed + 1;
        } else {
          var r := FillCopy(template, parsed.value, url);
          if r.Ok? {
            urls := urls + [r.value];
          } else {
            failed := failed + 1;
          }
        }
      }
      i := i + 1;
    }
    assert replies[..i] == replies;
  }

  // ---------------------------------------------------------------------------
  // Properties of a cycle.

  /** Surplus answers are ignored: only the first `TotalQuestions` answers
      reach the address. */
  lemma SurplusIgnored(secs: seq<Section>, answers: seq<Json>, extra: seq<Json>, url: string)
    requires |answers| == TotalQuestions(secs)
    ensures Cycle(secs, JArr(answers + extra), url) == Cycle(secs, JArr(answers), url)
  {
    var qs := Questions(secs);
    BindSectionsInOrder(secs, answers);
    BindSectionsInOrder(secs, answers + extra);
    var a := BindSections(secs, answers).items;
    var b := BindSections(secs, answers + extra).items;
    assert AssignInOrder(qs, answers + extra) == AssignInOrder(qs, answers) by {
      forall k | 0 <= k < |qs| ensures (answers + extra)[k] == answers[k] { }
    }
    BindEqualByQuestions(a, b, secs);
  }

  /** Two bindings of the same form with the same questions are the same form. */
  lemma {:induction false} BindEqualByQuestions(a: seq<Section>, b: seq<Section>, secs: seq<Section>)
    requires SameShape(a, secs) && SameShape(b, secs)
    requires Questions(a) == Questions(b)
    ensures a == b
    decreases |secs|
  {
    if secs != [] {
      assert a == [a[0]] + a[1..] && b == [b[0]] + b[1..];
      QuestionsCons(a[0], a[1..]);
      QuestionsCons(b[0], b[1..]);
      var n := |a[0].questions|;
      assert a[0].questions == Questions(a)[..n];
      assert b[0].questions == Questions(b)[..n];
      assert Questions(a[1..]) == Questions(a)[n..];
      assert Questions(b[1..]) == Questions(b)[n..];
      assert SameShape(a[1..], secs[1..]) && SameShape(b[1..], secs[1..]) by {
        forall i | 0 <= i < |a[1..]| ensures a[1..][i] == a[i + 1] && b[1..][i] == b[i + 1] && secs[1..][i] == secs[i + 1] { }
      }
      BindEqualByQuestions(a[1..], b[1..], secs[1..]);
      assert a[0] == b[0];
    }
  }

  /** Concatenating one-element lists gives the list of their elements. */
  lemma {:induction false} ConcatSingletons(xss: seq<seq<string>>, xs: seq<string>)
    requires |xss| == |xs|
    requires forall k :: 0 <= k < |xs| ==> xss[k] == [xs[k]]
    ensures Concat(xss) == xs
    decreases |xs|
  {
    if xs != [] {
      var n := |xs| - 1;
      ConcatSingletons(xss[..n], xs[..n]);
      assert xs == xs[..n] + [xs[n]];
    }
  }

  /** The answers as the encoder writes them: `entry.<id>=<answer>`, one per
      question in traversal order. */
  function AnswerFragments(qs: seq<Question>, answers: seq<Json>): (r: seq<string>)
    requires |answers| == |qs|
    ensures |r| == |qs|
  {
    seq(|qs|, k requires 0 <= k < |qs| => Fragment(qs[k].entryId, "", answers[k]))
  }

  /** A scalar answer that the encoder writes as one fragment. */
  predicate PlainAnswer(v: Json) {
    Truthy(v) && !v.JArr?
  }

  /** The round trip of a fill cycle: a form with no date or time questions,
      given exactly one truthy scalar answer per question, encodes to the base
      address, `?`, and `entry.<id>=<answer>` for each question in traversal
      order, joined by `&`. */
  lemma FillRoundTrip(secs: seq<Section>, answers: seq<Json>, url: string)
    requires NoDateOrTime(secs)
    requires |answers| == TotalQuestions(secs)
    requires forall k :: 0 <= k < |answers| ==> PlainAnswer(answers[k])
    ensures Cycle(secs, JArr(answers), url) == Ok(url + "?" + Join("&", AnswerFragments(Questions(secs), answers)))
  {
    var qs := Questions(secs);
    BindSectionsInOrder(secs, answers);
    var bound := BindSections(secs, answers).items;
    BoundKeepsKinds(secs, answers);
    EncodeFollowsTraversal(bound);
    var expected := AnswerFragments(qs, answers);
    BoundFragments(secs, answers);
    var m := MapAll(PairFragments, Traversal(bound));
    ConcatSingletons(m.value, expected);
  }

  /** Binding keeps every section's kind, so it keeps a form free of date
      and time questions. */
  lemma BoundKeepsKinds(secs: seq<Section>, answers: seq<Json>)
    requires NoDateOrTime(secs)
    ensures NoDateOrTime(BindSections(secs, answers).items)
  {
    BindSectionsInOrder(secs, answers);
  }

  /** Each bound question of the round trip yields its one fragment. */
  lemma BoundFragments(secs: seq<Section>, answers: seq<Json>)
    requires NoDateOrTime(secs)
    requires |answers| == TotalQuestions(secs)
    requires forall k :: 0 <= k < |answers| ==> PlainAnswer(answers[k])
    ensures var ps := Traversal(BindSections(secs, answers).items);
            |ps| == |answers|
            && forall k :: 0 <= k < |ps| ==> PairFragments(ps[k]) == Ok([AnswerFragments(Questions(secs), answers)[k]])
  {
    var qs := Questions(secs);
    BindSectionsInOrder(secs, answers);
    BoundKeepsKinds(secs, answers);
    var bound := BindSections(secs, answers).items;
    var ps := Traversal(bound);
    forall k | 0 <= k < |ps| ensures PairFragments(ps[k]) == Ok([AnswerFragments(qs, answers)[k]]) {
      assert ps[k].1 == qs[k].(value := Some(answers[k]));
    }
  }

  /** The two-question example: entries 111 and 222 of a short-answer
      section answered "42" and "7" give `url?entry.111=42&entry.222=7`. */
  lemma TwoAnswerExample(url: string, q1: Question, q2: Question)
    requires q1.entryId == JInt(111) && q2.entryId == JInt(222)
    ensures Cycle([Section(JStr("Q1"), JInt(ShortAnswer), [q1]), Section(JStr("Q2"), JInt(LinearScale), [q2])],
                  JArr([JStr("42"), JStr("7")]), url)
            == Ok(url + "?" + "entry.111=42&entry.222=7")
  {
    var secs := [Section(JStr("Q1"), JInt(ShortAnswer), [q1]), Section(JStr("Q2"), JInt(LinearScale), [q2])];
    var answers := [JStr("42"), JStr("7")];
    assert Questions(secs) == [q1, q2] by {
      assert secs[1..][1..] == [];
      assert Questions(secs[1..]) == [q2];
    }
    assert NoDateOrTime(secs);
    assert TotalQuestions(secs) == |answers|;
    assert forall k :: 0 <= k < |answers| ==> PlainAnswer(answers[k]);
    FillRoundTrip(secs, answers, url);
    ExampleFragments(q1, q2);
  }

  lemma ExampleFragments(q1: Question, q2: Question)
    requires q1.entryId == JInt(111) && q2.entryId == JInt(222)
    ensures Join("&", AnswerFragments([q1, q2], [JStr("42"), JStr("7")])) == "entry.111=42&entry.222=7"
  {
    ExampleTexts(q1, q2);
    JoinTwo("&", "entry.111=42", "entry.222=7");
    ExampleQuery();
  }

  lemma ExampleQuery()
    ensures "entry.111=42" + "&" + "entry.222=7" == "entry.111=42&entry.222=7"
  {
  }

  lemma JoinTwo(sep: string, a: string, b: string)
    ensures Join(sep, [a, b]) == a + sep + b
  {
    assert [a, b][1..] == [b];
  }

  lemma ExampleTexts(q1: Question, q2: Question)
    requires q1.entryId == JInt(111) && q2.entryId == JInt(222)
    ensures AnswerFragments([q1, q2], [JStr("42"), JStr("7")]) == ["entry.111=42", "entry.222=7"]
  {
    var frs := AnswerFragments([q1, q2], [JStr("42"), JStr("7")]);
    Decimal111();
    Decimal222();
    PlainFragment(111, "111", "42");
    PlainFragment(222, "222", "7");
    assert frs[0] == "entry.111=42";
    assert frs[1] == "entry.222=7";
  }

  lemma PlainFragment(id: int, idText: string, v: string)
    requires Str(JInt(id)) == idText
    ensures Fragment(JInt(id), "", JStr(v)) == "entry." + idText + "=" + v
  {
  }

  lemma Decimal111()
    ensures Str(JInt(111)) == "111"
  {
    assert NatDecimal(1) == "1" && NatDecimal(11) == "11";
  }

  lemma Decimal222()
    ensures Str(JInt(222)) == "222"
  {
    assert NatDecimal(2) == "2" && NatDecimal(22) == "22";
  }
}
