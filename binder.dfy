/** The answer binder: `set_answer` walks the sections and their questions in
    order, pops the next answer off the front of the shared answer list and
    stores it as the question's value, in place. */
module Binder {
  import opened Results
  import opened JsonValues
  import opened FormModel

  /** The decoded form the binder writes into. */
  class Form {
    var sections: seq<Section>

    constructor (sections: seq<Section>)
      ensures this.sections == sections
    {
      this.sections := sections;
    }

    /** `deepcopy(form)`: a new form object with equal contents; sections and
        questions are values, so nothing is shared with the original. */
    method DeepCopy() returns (c: Form)
      ensures fresh(c) && c.sections == sections
    {
      c := new Form(sections);
    }
  }

  /** The list of answers the generator returned, consumed from the front. */
  class AnswerList {
    var items: seq<Json>

    constructor (items: seq<Json>)
      ensures this.items == items
    {
      this.items := items;
    }

    /** `answer_list.pop(0)`: raises on an empty list. */
    method PopFront() returns (r: Result<Json>)
      modifies this
      ensures old(items) == [] ==> r == Err(IndexError) && items == []
      ensures old(items) != [] ==> r == Ok(old(items)[0]) && items == old(items)[1..]
    {
      if items == [] {
        return Err(IndexError);
      }
      r := Ok(items[0]);
      items := items[1..];
    }
  }

  /** What binding leaves behind: the form, the unconsumed answers, and
      whether every question got one. */
  datatype Bound<T> = Bound(items: T, rest: seq<Json>, ok: bool)

  /** Binding the questions of one section, front to back. When the answers
      run out, the questions bound so far keep their values and the rest are
      left as they were. */
  function BindQuestions(qs: seq<Question>, answers: seq<Json>): (r: Bound<seq<Question>>)
    ensures !r.ok ==> r.rest == []
    decreases |qs|
  {
    if qs == [] then Bound([], answers, true)
    else if answers == [] then Bound(qs, [], false)
    else
      var t := BindQuestions(qs[1..], answers[1..]);
      Bound([qs[0].(value := Some(answers[0]))] + t.items, t.rest, t.ok)
  }

  /** A section once its questions are bound to the front of `answers`. */
  function BindSection(sec: Section, answers: seq<Json>): Section {
    sec.(questions := BindQuestions(sec.questions, answers).items)
  }

  /** Binding section by section; binding stops at the first missing answer. */
  function BindSections(secs: seq<Section>, answers: seq<Json>): (r: Bound<seq<Section>>)
    ensures |r.items| == |secs|
    ensures !r.ok ==> r.rest == []
    decreases |secs|
  {
    if secs == [] then Bound([], answers, true)
    else
      var b := BindQuestions(secs[0].questions, answers);
      var first := BindSection(secs[0], answers);
      if !b.ok then Bound([first] + secs[1..], [], false)
      else
        var t := BindSections(secs[1..], b.rest);
        Bound([first] + t.items, t.rest, t.ok)
  }

  /** The reference reading of binding: the k-th question in traversal order
      gets the k-th answer, if there is one. */
  function AssignInOrder(qs: seq<Question>, answers: seq<Json>): (r: seq<Question>)
    ensures |r| == |qs|
  {
    seq(|qs|, k requires 0 <= k < |qs| => if k < |answers| then qs[k].(value := Some(answers[k])) else qs[k])
  }

  /** The answers left once `n` of them were consumed, or none if fewer were there. */
  function Leftover(answers: seq<Json>, n: nat): seq<Json> {
    if n <= |answers| then answers[n..] else []
  }

  lemma {:induction false} BindQuestionsInOrder(qs: seq<Question>, answers: seq<Json>)
    ensures BindQuestions(qs, answers).items == AssignInOrder(qs, answers)
    ensures BindQuestions(qs, answers).ok <==> |answers| >= |qs|
    ensures BindQuestions(qs, answers).rest == Leftover(answers, |qs|)
    decreases |qs|
  {
    if qs != [] && answers != [] {
      BindQuestionsInOrder(qs[1..], answers[1..]);
      var r := BindQuestions(qs, answers).items;
      var expected := AssignInOrder(qs, answers);
      assert |r| == |expected|;
      forall k | 0 <= k < |r| ensures r[k] == expected[k] {
        if k > 0 {
          assert r[k] == AssignInOrder(qs[1..], answers[1..])[k - 1];
        }
      }
      if |answers| >= |qs| {
        assert answers[1..][|qs| - 1..] == answers[|qs|..];
      }
    } else if qs != [] {
      assert AssignInOrder(qs, answers) == qs;
    }
  }

  lemma AssignInOrderAppend(xs: seq<Question>, ys: seq<Question>, answers: seq<Json>)
    ensures AssignInOrder(xs + ys, answers) == AssignInOrder(xs, answers) + AssignInOrder(ys, Leftover(answers, |xs|))
  {
    var l := AssignInOrder(xs + ys, answers);
    var r := AssignInOrder(xs, answers) + AssignInOrder(ys, Leftover(answers, |xs|));
    assert |l| == |r|;
    forall k | 0 <= k < |l| ensures l[k] == r[k] {
      if k >= |xs| {
        assert (xs + ys)[k] == ys[k - |xs|];
      }
    }
  }

  /** Every section keeps its title, kind and number of questions. */
  ghost predicate SameShape(after: seq<Section>, before: seq<Section>) {
    && |after| == |before|
    && forall i :: 0 <= i < |after| ==>
         after[i].title == before[i].title && after[i].kind == before[i].kind
         && |after[i].questions| == |before[i].questions|
  }

  /** Binding gives the k-th question in traversal order the k-th answer and
      changes nothing else; it succeeds exactly when there are at least as
      many answers as questions, and the surplus stays in the list. */
  lemma {:induction false} BindSectionsInOrder(secs: seq<Section>, answers: seq<Json>)
    ensures Questions(BindSections(secs, answers).items) == AssignInOrder(Questions(secs), answers)
    ensures SameShape(BindSections(secs, answers).items, secs)
    ensures BindSections(secs, answers).ok <==> |answers| >= TotalQuestions(secs)
    ensures BindSections(secs, answers).rest == Leftover(answers, TotalQuestions(secs))
    decreases |secs|
  {
    if secs != [] {
      var s, tail := secs[0], secs[1..];
      assert secs == [s] + tail;
      QuestionsCons(s, tail);
      var b := BindQuestions(s.questions, answers);
      BindQuestionsInOrder(s.questions, answers);
      var first := BindSection(s, answers);
      AssignInOrderAppend(s.questions, Questions(tail), answers);
      var res := BindSections(secs, answers);
      if !b.ok {
        assert res.items == [first] + tail;
        QuestionsCons(first, tail);
        assert AssignInOrder(Questions(tail), []) == Questions(tail);
      } else {
        var t := BindSections(tail, b.rest);
        BindSectionsInOrder(tail, b.rest);
        assert res.items == [first] + t.items;
        QuestionsCons(first, t.items);
        assert b.rest == answers[|s.questions|..];
        if t.ok {
          assert answers[|s.questions|..][TotalQuestions(tail)..] == answers[TotalQuestions(secs)..];
        }
      }
    }
  }

  /** Binding fails when there are fewer answers than questions; binding a
      one-question form needs exactly one answer. */
  lemma BindNeedsOneAnswerPerQuestion(secs: seq<Section>, answers: seq<Json>)
    requires TotalQuestions(secs) == 1
    ensures !BindSections(secs, []).ok
    ensures |answers| == 1 ==> BindSections(secs, answers).ok && BindSections(secs, answers).rest == []
  {
    BindSectionsInOrder(secs, []);
    BindSectionsInOrder(secs, answers);
  }

  /** The binder state after `done` has been bound and `pending` is still to come. */
  function Glue<T>(done: seq<T>, pending: Bound<seq<T>>): Bound<seq<T>> {
    Bound(done + pending.items, pending.rest, pending.ok)
  }

  lemma GlueEmpty<T>(pending: Bound<seq<T>>)
    ensures Glue([], pending) == pending
  {
    assert [] + pending.items == pending.items;
  }

  lemma GlueGlue<T>(done: seq<T>, more: seq<T>, pending: Bound<seq<T>>)
    ensures Glue(done, Glue(more, pending)) == Glue(done + more, pending)
  {
    assert done + (more + pending.items) == (done + more) + pending.items;
  }

  /** One step of the inner loop: the question at `j` takes the next answer,
      or binding stops there. */
  lemma BindQuestionsStep(done: seq<Question>, qs: seq<Question>, j: nat, answers: seq<Json>)
    requires j < |qs|
    ensures answers == [] ==> Glue(done, BindQuestions(qs[j..], answers)) == Bound(done + qs[j..], [], false)
    ensures answers != [] ==>
              Glue(done, BindQuestions(qs[j..], answers))
              == Glue(done + [qs[j].(value := Some(answers[0]))], BindQuestions(qs[j + 1..], answers[1..]))
  {
    assert qs[j..][1..] == qs[j + 1..];
    if answers != [] {
      GlueGlue(done, [qs[j].(value := Some(answers[0]))], BindQuestions(qs[j + 1..], answers[1..]));
    }
  }

  /** Writing the next bound section over position `i`. */
  lemma WriteSection(done: seq<Section>, secs: seq<Section>, i: nat, first: Section)
    requires |done| == i < |secs|
    ensures (done + secs[i..])[i] == secs[i]
    ensures (done + secs[i..])[i := first] == (done + [first]) + secs[i + 1..]
    ensures (done + secs[i..])[i := first] == done + ([first] + secs[i + 1..])
  {
  }

  /** One step of the outer loop: the section at `i` is bound, then the rest. */
  lemma BindSectionsStep(secs: seq<Section>, i: nat, answers: seq<Json>)
    requires i < |secs|
    ensures var b := BindQuestions(secs[i].questions, answers);
            BindSections(secs[i..], answers)
            == if b.ok then Glue([BindSection(secs[i], answers)], BindSections(secs[i + 1..], b.rest))
               else Bound([BindSection(secs[i], answers)] + secs[i + 1..], [], false)
  {
    assert secs[i..][0] == secs[i];
    assert secs[i..][1..] == secs[i + 1..];
  }

  /** Section `i` with its questions replaced by `qs`. */
  function WithQuestions(secs: seq<Section>, i: nat, qs: seq<Question>): seq<Section>
    requires i < |secs|
  {
    secs[i := secs[i].(questions := qs)]
  }

  /** `topic_list[i]['questions'][j]['value'] = v`. */
  function SetValue(secs: seq<Section>, i: nat, j: nat, v: Json): (r: seq<Section>)
    requires i < |secs| && j < |secs[i].questions|
    ensures |r| == |secs| && forall k :: 0 <= k < |r| && k != i ==> r[k] == secs[k]
    ensures r[i].title == secs[i].title && r[i].kind == secs[i].kind
    ensures r[i].questions == secs[i].questions[j := secs[i].questions[j].(value := Some(v))]
  {
    var q := secs[i].questions[j];
    WithQuestions(secs, i, secs[i].questions[j := q.(value := Some(v))])
  }

  /** Writing the answer of question `j` into a section whose first `j`
      questions are bound already. */
  lemma WriteBound(secs: seq<Section>, i: nat, done: seq<Question>, qs: seq<Question>, j: nat, v: Json)
    requires i < |secs| && |done| == j < |qs|
    ensures var cur := WithQuestions(secs, i, done + qs[j..]);
            j < |cur[i].questions| &&
            SetValue(cur, i, j, v) == WithQuestions(secs, i, (done + [qs[j].(value := Some(v))]) + qs[j + 1..])
  {
    var cur := WithQuestions(secs, i, done + qs[j..]);
    assert cur[i].questions == done + qs[j..];
    assert (done + qs[j..])[j := qs[j].(value := Some(v))] == (done + [qs[j].(value := Some(v))]) + qs[j + 1..];
  }

  /** The inner loop of `set_answer`: binds the questions of section `i`,
      front to back, stopping when the answer list runs out. */
  method BindSectionAt(form: Form, i: nat, answers: AnswerList) returns (r: Result<()>)
    requires i < |form.sections|
    modifies form, answers
    ensures form.sections == old(form.sections)[i := BindSection(old(form.sections[i]), old(answers.items))]
    ensures answers.items == BindQuestions(old(form.sections[i].questions), old(answers.items)).rest
    ensures r.Ok? <==> BindQuestions(old(form.sections[i].questions), old(answers.items)).ok
    ensures r.Err? ==> r.error == IndexError
  {
    ghost var secs0, answers0 := form.sections, answers.items;
    var questions := form.sections[i].questions;
    ghost var done: seq<Question> := [];
    var j := 0;
    assert [] + questions[0..] == questions;
    assert WithQuestions(secs0, i, questions) == secs0;
    GlueEmpty(BindQuestions(questions, answers0));
    while j < |questions|
      invariant 0 <= j <= |questions| && |done| == j
      invariant form.sections == WithQuestions(secs0, i, done + questions[j..])
      invariant Glue(done, BindQuestions(questions[j..], answers.items)) == BindQuestions(questions, answers0)
    {
      BindQuestionsStep(done, questions, j, answers.items);
      var answer := answers.PopFront();
      if answer.Err? {
        return Err(IndexError);
      }
      WriteBound(secs0, i, done, questions, j, answer.value);
      form.sections := SetValue(form.sections, i, j, answer.value);
      done := done + [questions[j].(value := Some(answer.value))];
      j := j + 1;
    }
    assert done + questions[j..] == done;
    r := Ok(());
  }

  /** `set_answer(topic_list, answer_list)`: stores the answers into the form
      in traversal order, consuming them from the list; raises when the list
      runs out, leaving the questions bound so far in place. */
  method SetAnswer(form: Form, answers: AnswerList) returns (r: Result<()>)
    modifies form, answers
    ensures form.sections == BindSections(old(form.sections), old(answers.items)).items
    ensures answers.items == BindSections(old(form.sections), old(answers.items)).rest
    ensures r.Ok? <==> BindSections(old(form.sections), old(answers.items)).ok
    ensures r.Err? ==> r.error == IndexError
  {
    ghost var secs0, answers0 := form.sections, answers.items;
    ghost var done: seq<Section> := [];
    var i := 0;
    assert [] + secs0[0..] == secs0;
    GlueEmpty(BindSections(secs0, answers0));
    while i < |form.sections|
      invariant 0 <= i <= |secs0| && |done| == i
      invariant form.sections == done + secs0[i..]
      invariant Glue(done, BindSections(secs0[i..], answers.items)) == BindSections(secs0, answers0)
    {
      BindSectionsStep(secs0, i, answers.items);
      ghost var first := BindSection(secs0[i], answers.items);
      GlueGlue(done, [first], BindSections(secs0[i + 1..], BindQuestions(secs0[i].questions, answers.items).rest));
      WriteSection(done, secs0, i, first);
      var bound := BindSectionAt(form, i, answers);
      if bound.Err? {
        return Err(IndexError);
      }
      done := done + [first];
      i := i + 1;
    }
    assert done + secs0[i..] == done;
    r := Ok(());
  }
}
