/** The open question and the run's phase, told by the steps that were taken. */
module OpenQuestions {
  import opened Sequences
  import opened ThreadInbox
  import opened LedgerInvariant
  import opened ConversationRuns
  import opened ConversationTheorems
  import opened RecordedAnswers

  // ---- one step more ------------------------------------------------------------------------------------------

  lemma {:induction false} NextStep(w: World, steps: seq<Step>)
    requires ValidRun(w, steps) && steps != []
    ensures var front, s := steps[..|steps|-1], steps[|steps|-1];
            ValidRun(w, front) && Enabled(Run(w, front), s) && Run(w, steps) == Apply(Run(w, front), s)
    decreases |steps|
  {
    if |steps| > 1 {
      NextStep(Apply(w, steps[0]), steps[1..]);
      assert steps[..|steps|-1][0] == steps[0] && steps[..|steps|-1][1..] == steps[1..][..|steps|-2];
    }
  }

  // ---- the phase ------------------------------------------------------------------------------------------------

  /** A run is closed once released, else finalizing once finished, else running once started. */
  lemma {:induction false} PhaseIs(requester: Option<int>, steps: seq<Step>)
    requires ValidRun(Start(requester), steps)
    ensures var phase := Run(Start(requester), steps).c.ledger.phase;
            && (phase.Closed? <==> Release in steps)
            && (phase.Finalizing? <==> Finish in steps && Release !in steps)
            && (phase.Running? <==> StartRunning in steps && Finish !in steps && Release !in steps)
    decreases |steps|
  {
    if steps != [] {
      var front, s := steps[..|steps|-1], steps[|steps|-1];
      NextStep(Start(requester), steps);
      PhaseIs(requester, front);
      assert steps == front + [s];
      PhaseStep(Run(Start(requester), front), s);
    }
  }

  lemma {:induction false} PhaseStep(w: World, s: Step)
    requires Enabled(w, s)
    ensures var phase, next := w.c.ledger.phase, Apply(w, s).c.ledger.phase;
            && (next.Closed? <==> phase.Closed? || s.Release?)
            && (next.Finalizing? <==> (phase.Finalizing? || (s.Finish? && !phase.Closed?)) && !s.Release?)
            && (next.Running? <==> (phase.Running? || s.StartRunning?) && !s.Finish? && !s.Release?)
            && (s.StartRunning? ==> phase.Setup?)
  {
  }

  // ---- the question ---------------------------------------------------------------------------------------------

  /** What the last of the steps that says so makes of the question's waiting, and of its message. */
  function Waiting(since: seq<Step>, qid: nat): bool {
    if since == [] then false
    else
      var s := since[|since|-1];
      if s.QuestionWaits? && s.qid == qid then s.waiting else Waiting(since[..|since|-1], qid)
  }

  function MessageId(since: seq<Step>, qid: nat): nat {
    if since == [] then 0
    else
      var s := since[|since|-1];
      if s.QuestionSent? && s.qid == qid then s.messageId else MessageId(since[..|since|-1], qid)
  }

  /** The question was asked just before these steps, none of which asked another or dropped it, and stands so after them. */
  predicate Stands(asked: Step, since: seq<Step>, q: Question) {
    && asked == Ask(q.text, q.blocking)
    && (forall s <- since :: !s.Ask? && s != QuestionDropped(q.qid))
    && q.waiting == Waiting(since, q.qid) && q.messageId == MessageId(since, q.qid)
    && (q.timedOut <==> QuestionTimesOut(q.qid) in since)
  }

  /** What a step says of a question that stays open. */
  function Told(q: Question, s: Step): Question {
    q.(waiting := if s.QuestionWaits? && s.qid == q.qid then s.waiting else q.waiting,
       messageId := if s.QuestionSent? && s.qid == q.qid then s.messageId else q.messageId,
       timedOut := q.timedOut || s == QuestionTimesOut(q.qid))
  }

  lemma {:induction false} StandsSnoc(asked: Step, since: seq<Step>, q: Question, s: Step)
    requires Stands(asked, since, q) && !s.Ask? && s != QuestionDropped(q.qid)
    ensures Stands(asked, since + [s], Told(q, s))
  {
    assert (since + [s])[..|since|] == since;
  }

  /** Whether a decision is recorded on a message that may be answering the open question. */
  predicate Answers(w: World, s: Step) {
    && s.Decide? && s.choice.Some? && w.c.ledger.question.Some?
    && exists e <- w.c.ledger.events :: IsAbout(e, s.ids, s.choice.value) && e.questionId == Some(w.c.ledger.question.value.qid)
  }

  predicate OnQuestion(s: Step) { s.QuestionSent? || s.QuestionDropped? || s.QuestionWaits? || s.QuestionTimesOut? }

  lemma {:induction false} DecideStep(w: World, s: Step)
    requires Inv(w.c.ledger) && Enabled(w, s) && s.Decide?
    ensures Apply(w, s).c.ledger.question == if Answers(w, s) then None else w.c.ledger.question
  {
    if s.choice.Some? {
      DecisionChanges(w.c, s.ids, s.choice.value, s.reply);
    }
  }

  lemma {:induction false} OtherStep(w: World, s: Step)
    requires Enabled(w, s) && !s.Ask? && !s.Decide? && !OnQuestion(s)
    ensures Apply(w, s).c.ledger.question == w.c.ledger.question
  {
  }

  lemma {:induction false} OnQuestionStep(w: World, s: Step)
    requires Enabled(w, s) && OnQuestion(s) && w.c.ledger.question.Some?
    ensures var q := w.c.ledger.question.value;
            Apply(w, s).c.ledger.question == if s == QuestionDropped(q.qid) then None else Some(Told(q, s))
  {
  }

  /** What one step makes of the open question. */
  lemma {:induction false} QuestionStep(w: World, s: Step)
    requires Inv(w.c.ledger) && Enabled(w, s) && w.c.ledger.question.Some? && !s.Ask?
    ensures var q := w.c.ledger.question.value;
            Apply(w, s).c.ledger.question == if s == QuestionDropped(q.qid) || Answers(w, s) then None else Some(Told(q, s))
  {
    if s.Decide? {
      DecideStep(w, s);
    } else if OnQuestion(s) {
      OnQuestionStep(w, s);
    } else {
      OtherStep(w, s);
    }
  }

  lemma {:induction false} NoneOpens(w: World, s: Step)
    requires Inv(w.c.ledger) && Enabled(w, s) && w.c.ledger.question.None? && !s.Ask?
    ensures Apply(w, s).c.ledger.question.None?
  {
    if s.Decide? {
      DecideStep(w, s);
    } else if !OnQuestion(s) {
      OtherStep(w, s);
    }
  }

  lemma {:induction false} Asked(w: World, s: Step)
    requires Enabled(w, s) && s.Ask?
    ensures var q := Apply(w, s).c.ledger.question; q.Some? && Stands(s, [], q.value)
  {
  }

  predicate LastAsked(steps: seq<Step>, k: nat, q: Question) { k < |steps| && Stands(steps[k], steps[k+1..], q) }

  lemma {:induction false} StandsOn(w: World, s: Step, front: seq<Step>, k: nat)
    requires Inv(w.c.ledger) && Enabled(w, s) && !s.Ask? && w.c.ledger.question.Some? && Apply(w, s).c.ledger.question.Some?
    requires LastAsked(front, k, w.c.ledger.question.value)
    ensures LastAsked(front + [s], k, Apply(w, s).c.ledger.question.value)
  {
    QuestionStep(w, s);
    StandsSnoc(front[k], front[k+1..], w.c.ledger.question.value, s);
    assert (front + [s])[k+1..] == front[k+1..] + [s];
  }

  lemma {:induction false} AskedNow(w: World, s: Step, front: seq<Step>)
    requires Enabled(w, s) && s.Ask?
    ensures Apply(w, s).c.ledger.question.Some? && LastAsked(front + [s], |front|, Apply(w, s).c.ledger.question.value)
  {
    Asked(w, s);
    assert (front + [s])[|front|+1..] == [];
  }

  lemma {:induction false} InvAt(requester: Option<int>, steps: seq<Step>)
    requires ValidRun(Start(requester), steps)
    ensures Inv(Run(Start(requester), steps).c.ledger)
  {
    StartOk(requester);
    RunOk(Start(requester), steps);
  }

  lemma {:induction false} SomeStep(requester: Option<int>, steps: seq<Step>)
    requires ValidRun(Start(requester), steps) && Run(Start(requester), steps).c.ledger.question.Some?
    ensures steps != []
  {
  }

  lemma {:induction false} WasOpen(w: World, s: Step)
    requires Inv(w.c.ledger) && Enabled(w, s) && !s.Ask? && Apply(w, s).c.ledger.question.Some?
    ensures w.c.ledger.question.Some?
  {
    if w.c.ledger.question.None? {
      NoneOpens(w, s);
    }
  }

  /** What a step makes of where the open question was asked. */
  lemma {:induction false} StepStands(w: World, s: Step, front: seq<Step>, k: nat) returns (j: nat)
    requires Inv(w.c.ledger) && Enabled(w, s) && Apply(w, s).c.ledger.question.Some?
    requires w.c.ledger.question.Some? ==> LastAsked(front, k, w.c.ledger.question.value)
    ensures LastAsked(front + [s], j, Apply(w, s).c.ledger.question.value)
  {
    if s.Ask? {
      j := |front|;
      AskedNow(w, s, front);
    } else {
      j := k;
      WasOpen(w, s);
      StandsOn(w, s, front, k);
    }
  }

  /** Over any run, the open question is the one asked last, as the steps since then left it. */
  lemma {:induction false} QuestionIs(requester: Option<int>, steps: seq<Step>) returns (k: nat)
    requires ValidRun(Start(requester), steps) && Run(Start(requester), steps).c.ledger.question.Some?
    ensures LastAsked(steps, k, Run(Start(requester), steps).c.ledger.question.value)
    decreases |steps|
  {
    SomeStep(requester, steps);
    var front, s := steps[..|steps|-1], steps[|steps|-1];
    NextStep(Start(requester), steps);
    InvAt(requester, front);
    k := 0;
    if Run(Start(requester), front).c.ledger.question.Some? {
      k := QuestionIs(requester, front);
    }
    k := StepStands(Run(Start(requester), front), s, front, k);
    assert steps == front + [s];
  }

  predicate IsAsk(s: Step) { s.Ask? }

  function Asks(steps: seq<Step>): nat { |Filter(IsAsk, steps)| }

  lemma {:induction false} NumbersStep(w: World, s: Step)
    requires Inv(w.c.ledger) && Enabled(w, s)
    ensures var l, r := w.c.ledger, Apply(w, s).c.ledger;
            && r.nextQid == l.nextQid + (if s.Ask? then 1 else 0)
            && (s.Ask? ==> r.question.Some? && r.question.value.qid == l.nextQid)
            && (!s.Ask? && r.question.Some? ==> l.question.Some? && r.question.value.qid == l.question.value.qid)
  {
    if s.Decide? {
      if s.choice.Some? {
        DecisionChanges(w.c, s.ids, s.choice.value, s.reply);
      }
    } else if !s.Ask? {
      OtherNumbers(w, s);
    }
  }

  lemma {:induction false} OtherNumbers(w: World, s: Step)
    requires Enabled(w, s) && !s.Ask? && !s.Decide?
    ensures var l, r := w.c.ledger, Apply(w, s).c.ledger;
            && r.nextQid == l.nextQid
            && (r.question.Some? ==> l.question.Some? && r.question.value.qid == l.question.value.qid)
  {
  }

  /** Questions are numbered as they are asked, so no step about one can be taken for another's. */
  lemma {:induction false} NumberedAsAsked(requester: Option<int>, steps: seq<Step>)
    requires ValidRun(Start(requester), steps)
    ensures var l := Run(Start(requester), steps).c.ledger;
            l.nextQid == Asks(steps) + 1 && (l.question.Some? ==> l.question.value.qid == Asks(steps))
    decreases |steps|
  {
    if steps != [] {
      var front, s := steps[..|steps|-1], steps[|steps|-1];
      NextStep(Start(requester), steps);
      InvAt(requester, front);
      NumberedAsAsked(requester, front);
      NumbersStep(Run(Start(requester), front), s);
      FilterSnoc(IsAsk, front, s);
      assert steps == front + [s];
    }
  }

  /** A question is closed by being dropped, or by a decision on a message that may be answering it, and by nothing else. */
  lemma {:induction false} ClosesIff(requester: Option<int>, steps: seq<Step>, s: Step)
    requires ValidRun(Start(requester), steps) && Enabled(Run(Start(requester), steps), s)
    requires Run(Start(requester), steps).c.ledger.question.Some?
    ensures var w := Run(Start(requester), steps);
            Apply(w, s).c.ledger.question.None? <==> s == QuestionDropped(w.c.ledger.question.value.qid) || Answers(w, s)
  {
    InvAt(requester, steps);
    if s.Ask? {
      Asked(Run(Start(requester), steps), s);
    } else {
      QuestionStep(Run(Start(requester), steps), s);
    }
  }
}
