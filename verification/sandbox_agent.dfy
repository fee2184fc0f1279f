/**
 The loop that runs the nested agent to a finished answer, on the objects. `Perform` lets
 the coordinator and its ledger take one step of a run, whatever step comes next.
 */
module SandboxAgent {
  import opened Sequences
  import opened ThreadInbox
  import opened LedgerInvariant
  import opened RunLedgers
  import opened Conversation
  import opened SandboxConversations
  import opened ConversationRuns
  import opened Finishing

  lemma {:induction false} OrderedIsIncreasing(l: Ledger)
    requires Inv(l)
    ensures Increasing(l.events)
  {
    assert forall i, j | 0 <= i < j < |l.events| :: Before(l.events[i], l.events[j]);
  }

  /** Every step of a run, taken by the objects, is the step of the values. */
  method Perform(conv: SandboxConversation, s: Step, ghost w: World)
    requires conv.Value() == w.c && LedgerOk(w) && Enabled(w, s)
    modifies conv, conv.ledger
    ensures conv.Value() == Apply(w, s).c
  {
    OrderedIsIncreasing(w.c.ledger);
    match s {
      case Arrive(m) => var _ := conv.ledger.Deliver(m);
      case CallOut(items) => var _ := conv.InputFilter(items);
      case CallDone(response) => conv.OnModelResponse(response);
      case Decide(ids, choice, reply) => var _, _ := conv.Respond(ids, choice, reply);
      case GatedCall => var _ := conv.Gate();
      case GatedEnd =>
      case _ => PerformOnLedger(conv.ledger, s);
    }
  }

  method PerformOnLedger(ledger: RunLedger, s: Step)
    requires !s.Arrive? && !s.CallOut? && !s.CallDone? && !s.Decide? && !s.GatedCall? && !s.GatedEnd?
    modifies ledger
    ensures ledger.Value() == AskStep(old(ledger.Value()), s)
  {
    match s {
      case Ask(text, blocking) => var _ := ledger.OpenQuestion(text, blocking);
      case QuestionSent(qid, id) => ledger.NoteQuestionSent(qid, id);
      case QuestionDropped(qid) => ledger.CloseQuestion(qid);
      case QuestionWaits(qid, waiting) => ledger.SetWaiting(qid, waiting);
      case QuestionTimesOut(qid) => ledger.NoteTimedOut(qid);
      case StartRunning => ledger.phase := Running;
      case Finish => ledger.Finalize();
      case Release => ledger.phase := Closed;
    }
  }

  method RunPass(conv: SandboxConversation, steps: seq<Step>, ghost w: World)
    requires conv.Value() == w.c && LedgerOk(w) && ValidRun(w, steps)
    modifies conv, conv.ledger
    ensures conv.Value() == Run(w, steps).c && LedgerOk(Run(w, steps))
  {
    ghost var now := w;
    var k := 0;
    while k < |steps|
      invariant k <= |steps| && conv.Value() == now.c && LedgerOk(now)
      invariant ValidRun(now, steps[k..]) && Run(now, steps[k..]) == Run(w, steps)
    {
      assert steps[k..][1..] == steps[k+1..];
      Perform(conv, steps[k], now);
      StepLedgerOk(now, steps[k]);
      now := Apply(now, steps[k]);
      k := k + 1;
    }
  }

  lemma {:induction false} ContinuedOk(w: World, c: Conv)
    requires LedgerOk(w) && c.ledger == w.c.ledger && c.staged == w.c.staged
    ensures LedgerOk(w.(c := c))
  {
  }

  /** After a completed pass: continue, or commit the boundary with no step in between. */
  method CheckAndFinish(conv: SandboxConversation, turnsLeft: nat, p: Pass, ghost before: World)
    returns (more: bool)
    requires ValidRun(before, p.steps) && conv.Value() == Run(before, p.steps).c && p.end.Completed?
    modifies conv, conv.ledger
    ensures more <==> Continues(before, p, turnsLeft + p.turns)
    ensures conv.Value() == if more then Continued(before, p).c else Finalized(Checked(before, p)).c
  {
    var nudge := conv.ContinuationNudge(p.fileRevisions);
    if !nudge || conv.continuations >= MAX_CONTINUATIONS || turnsLeft < MIN_CONTINUATION_TURNS {
      conv.ledger.Finalize();
      return false;
    }
    conv.continuations := conv.continuations + 1;
    return true;
  }

  /** One pass and what follows it: no ending yet, or the one the run has reached. */
  method OnePass(conv: SandboxConversation, turnsLeft: nat, completed: Option<string>, p: Pass,
                 ghost left: seq<Pass>, ghost w: World)
    returns (ending: Option<Ending>)
    requires conv.Value() == w.c && LedgerOk(w) && ValidPasses(w, turnsLeft, left) && left[0] == p
    modifies conv, conv.ledger
    ensures ending.None? ==> Continues(w, p, turnsLeft) && conv.Value() == Continued(w, p).c && LedgerOk(Continued(w, p))
    ensures ending.Some? ==> ending.value == Converse(w, turnsLeft, completed, left).ending
                             && conv.Value() == Converse(w, turnsLeft, completed, left).world.c
  {
    RunPass(conv, p.steps, w);
    if p.end.Broken? || (!p.end.Completed? && completed.None?) {
      conv.ledger.Finalize();
      return Some(Stopped(p.end));
    }
    if !p.end.Completed? {
      conv.ledger.Finalize();
      return Some(Answer(completed.value));
    }
    var more := CheckAndFinish(conv, turnsLeft - p.turns, p, w);
    if !more {
      return Some(Answer(p.end.answer));
    }
    ContinuedOk(Run(w, p.steps), Continued(w, p).c);
    return None;
  }

  /** Where a run stands between passes. */
  datatype Station = Station(w: World, turnsLeft: nat, completed: Option<string>, left: seq<Pass>)

  function EndOf(at: Station): (Ending, Conv)
    requires ValidPasses(at.w, at.turnsLeft, at.left)
  {
    var o := Converse(at.w, at.turnsLeft, at.completed, at.left);
    (o.ending, o.world.c)
  }

  /** How the passes that are left end, and in what state, if they may be run at all. */
  function Outcome(at: Station): Option<(Ending, Conv)> {
    if LedgerOk(at.w) && ValidPasses(at.w, at.turnsLeft, at.left) then Some(EndOf(at)) else None
  }

  predicate Follows(at: Station, next: Station) {
    && ValidPasses(at.w, at.turnsLeft, at.left) && Continues(at.w, at.left[0], at.turnsLeft)
    && var p := at.left[0];
       next == Station(Continued(at.w, p), at.turnsLeft - p.turns, Some(p.end.answer), at.left[1..])
  }

  lemma {:induction false} SameEnd(at: Station, next: Station)
    requires Follows(at, next)
    ensures ValidPasses(next.w, next.turnsLeft, next.left) && EndOf(next) == EndOf(at)
  {
  }

  lemma {:induction false} SameOutcome(at: Station, next: Station)
    requires LedgerOk(at.w) && LedgerOk(next.w) && Follows(at, next)
    ensures Outcome(next) == Outcome(at)
  {
    SameEnd(at, next);
  }

  lemma {:induction false} MorePasses(at: Station)
    requires Outcome(at).Some?
    ensures at.left != []
  {
  }

  /** One pass on the way to where the whole run ends: the ending, or where the run stands then. */
  method PassTowards(conv: SandboxConversation, turnsLeft: nat, completed: Option<string>, p: Pass, ghost at: Station)
    returns (ending: Option<Ending>, ghost next: Station)
    requires conv.Value() == at.w.c && Outcome(at).Some? && at.turnsLeft == turnsLeft && at.completed == completed && [p] <= at.left
    modifies conv, conv.ledger
    ensures ending.Some? ==> Outcome(at) == Some((ending.value, conv.Value()))
    ensures ending.None? ==> conv.Value() == next.w.c && Outcome(next) == Outcome(at)
    ensures ending.None? ==> p.end.Completed? && next.turnsLeft == turnsLeft - p.turns
    ensures ending.None? ==> next.completed == Some(p.end.answer) && next.left == at.left[1..]
  {
    next := at;
    ending := OnePass(conv, turnsLeft, completed, p, at.left, at.w);
    if ending.None? {
      next := Station(Continued(at.w, p), turnsLeft - p.turns, Some(p.end.answer), at.left[1..]);
      SameOutcome(at, next);
    }
  }

  /** The turn budget, the fallback answer and the boundary, pass by pass. */
  method RunPasses(conv: SandboxConversation, budget: nat, passes: seq<Pass>, ghost start: Station) returns (result: Ending)
    requires conv.Value() == start.w.c && Outcome(start).Some?
    requires start.turnsLeft == budget && start.completed == None && start.left == passes
    modifies conv, conv.ledger
    ensures Outcome(start) == Some((result, conv.Value()))
  {
    var turnsLeft: nat := budget;
    var completed: Option<string> := None;
    ghost var at := start;
    var k := 0;
    while true
      invariant k <= |passes| && conv.Value() == at.w.c && Outcome(at) == Outcome(start)
      invariant at.turnsLeft == turnsLeft && at.completed == completed && at.left == passes[k..]
      decreases |passes| - k
    {
      MorePasses(at);
      var p := passes[k];
      var ending;
      ending, at := PassTowards(conv, turnsLeft, completed, p, at);
      if ending.Some? {
        return ending.value;
      }
      completed, turnsLeft, k := Some(p.end.answer), turnsLeft - p.turns, k + 1;
    }
  }

  method RunToFinish(conv: SandboxConversation, budget: nat, passes: seq<Pass>, ghost w: World) returns (result: Ending)
    requires conv.Value() == w.c && LedgerOk(w) && ValidPasses(w, budget, passes)
    modifies conv, conv.ledger
    ensures result == Converse(w, budget, None, passes).ending
    ensures conv.Value() == Converse(w, budget, None, passes).world.c
  {
    result := RunPasses(conv, budget, passes, Station(w, budget, None, passes));
  }
}
