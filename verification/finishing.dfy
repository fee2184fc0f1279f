/** How a run finishes: continuations within one budget, then the finishing boundary. */
module Finishing {
  import opened Sequences
  import opened ThreadInbox
  import opened LedgerInvariant
  import opened Conversation
  import opened ConversationRuns
  import opened RefusalsEnd
  import opened ConversationTheorems

  const MAX_CONTINUATIONS := 2
  const MIN_CONTINUATION_TURNS := 2

  /** How one runner pass ends. Around a continuation all failures but the broken are caught. */
  datatype PassEnd =
    | Completed(answer: string)
    | ModelFailed   // out of turns, a model error or refusal, or a model call's own timeout
    | TimedOut      // the run's wall clock
    | Broken        // any other exception

  /** One pass: what happened during it, the responses it used, and the revisions of the files attached by its end. */
  datatype Pass = Pass(steps: seq<Step>, turns: nat, end: PassEnd, fileRevisions: seq<nat>)

  datatype Ending = Answer(answer: string) | Stopped(why: PassEnd)

  /** `last` is how the last pass ended; `nudged` that it left a reason to continue but no room to. */
  datatype RunEnd = RunEnd(world: World, ending: Ending, last: PassEnd, passes: nat, turns: nat, nudged: bool)

  function Finalized(w: World): World { w.(c := w.c.(ledger := Finalize(w.c.ledger))) }

  /** The world after a completed pass has been checked for loose ends. */
  function Checked(w: World, p: Pass): World
    requires ValidRun(w, p.steps)
  {
    var after := Run(w, p.steps);
    after.(c := Nudge(after.c, p.fileRevisions).0)
  }

  predicate WantsMore(w: World, p: Pass)
    requires ValidRun(w, p.steps)
  {
    Nudge(Run(w, p.steps).c, p.fileRevisions).1
  }

  predicate Continues(w: World, p: Pass, turnsLeft: nat)
    requires ValidRun(w, p.steps)
  {
    && p.end.Completed? && p.turns <= turnsLeft && WantsMore(w, p)
    && Checked(w, p).c.continuations < MAX_CONTINUATIONS
    && turnsLeft - p.turns >= MIN_CONTINUATION_TURNS
  }

  function Continued(w: World, p: Pass): World
    requires ValidRun(w, p.steps)
  {
    var checked := Checked(w, p);
    checked.(c := checked.c.(continuations := checked.c.continuations + 1))
  }

  /** The passes are what the runner may do: valid steps, never more responses than the pass was given. */
  predicate ValidPasses(w: World, turnsLeft: nat, passes: seq<Pass>)
    decreases |passes|
  {
    && passes != []
    && ValidRun(w, passes[0].steps) && passes[0].turns <= turnsLeft
    && (Continues(w, passes[0], turnsLeft) ==>
          ValidPasses(Continued(w, passes[0]), turnsLeft - passes[0].turns, passes[1..]))
  }

  /** Runs passes until one may be the last; `previous` is the latest completed answer. */
  function Converse(w: World, turnsLeft: nat, previous: Option<string>, passes: seq<Pass>): RunEnd
    requires ValidPasses(w, turnsLeft, passes)
    decreases |passes|
  {
    var p := passes[0];
    var after := Run(w, p.steps);
    if p.end.Broken? || (!p.end.Completed? && previous.None?) then
      RunEnd(Finalized(after), Stopped(p.end), p.end, 1, p.turns, false)
    else if !p.end.Completed? then
      RunEnd(Finalized(after), Answer(previous.value), p.end, 1, p.turns, false)
    else if Continues(w, p, turnsLeft) then
      var rest := Converse(Continued(w, p), turnsLeft - p.turns, Some(p.end.answer), passes[1..]);
      rest.(passes := rest.passes + 1, turns := rest.turns + p.turns)
    else
      RunEnd(Finalized(Checked(w, p)), Answer(p.end.answer), p.end, 1, p.turns, WantsMore(w, p))
  }

  // ---- bounds ------------------------------------------------------------------------------------

  lemma {:induction false} ContinuationsKept(w: World, steps: seq<Step>)
    requires ValidRun(w, steps)
    ensures Run(w, steps).c.continuations == w.c.continuations
    decreases |steps|
  {
    if steps != [] {
      ContinuationsKept(Apply(w, steps[0]), steps[1..]);
    }
  }

  /** All the passes together fit one turn budget and at most three passes run. */
  lemma {:induction false} WithinBudget(w: World, turnsLeft: nat, previous: Option<string>, passes: seq<Pass>)
    requires ValidPasses(w, turnsLeft, passes) && w.c.continuations <= MAX_CONTINUATIONS
    ensures Converse(w, turnsLeft, previous, passes).turns <= turnsLeft
    ensures Converse(w, turnsLeft, previous, passes).passes <= 1 + MAX_CONTINUATIONS - w.c.continuations
    decreases |passes|
  {
    var p := passes[0];
    ContinuationsKept(w, p.steps);
    if Continues(w, p, turnsLeft) {
      WithinBudget(Continued(w, p), turnsLeft - p.turns, Some(p.end.answer), passes[1..]);
    }
  }

  /** The passes before the last all completed; the ending is the last pass's answer, the latest one before it, or none. */
  predicate EndsRight(o: RunEnd, previous: Option<string>, passes: seq<Pass>) {
    && 1 <= o.passes <= |passes|
    && (forall k | 0 <= k < o.passes - 1 :: passes[k].end.Completed?)
    && o.last == passes[o.passes - 1].end && (o.nudged ==> o.last.Completed?)
    && var before := if o.passes > 1 then Some(passes[o.passes - 2].end.answer) else previous;
       o.ending == if o.last.Completed? then Answer(o.last.answer)
                   else if o.last.Broken? || before.None? then Stopped(o.last)
                   else Answer(before.value)
  }

  lemma {:induction false} EndsRightAfter(rest: RunEnd, o: RunEnd, previous: Option<string>, p: Pass, more: seq<Pass>)
    requires p.end.Completed? && EndsRight(rest, Some(p.end.answer), more)
    requires o == rest.(passes := rest.passes + 1, turns := o.turns)
    ensures EndsRight(o, previous, [p] + more)
  {
    var all := [p] + more;
    assert forall k | 0 < k < |all| :: all[k] == more[k-1];
  }

  /** How the last pass ends decides the answer: its own, the latest one before it, or none. */
  lemma {:induction false} LastCompletedAnswer(w: World, turnsLeft: nat, previous: Option<string>, passes: seq<Pass>)
    requires ValidPasses(w, turnsLeft, passes)
    ensures EndsRight(Converse(w, turnsLeft, previous, passes), previous, passes)
    decreases |passes|
  {
    var p := passes[0];
    if Continues(w, p, turnsLeft) {
      var rest := Converse(Continued(w, p), turnsLeft - p.turns, Some(p.end.answer), passes[1..]);
      LastCompletedAnswer(Continued(w, p), turnsLeft - p.turns, Some(p.end.answer), passes[1..]);
      assert passes == [p] + passes[1..];
      EndsRightAfter(rest, Converse(w, turnsLeft, previous, passes), previous, p, passes[1..]);
    }
  }

  // ---- when there is another pass ---------------------------------------------------------------------------

  /** Files of this run are older than its last change while others are not, and it has not been told so yet. */
  predicate MixedFiles(c: Conv, p: Pass) {
    && !c.nudgedFiles && c.ledger.changeRevision != 0
    && (exists r <- p.fileRevisions :: r < c.ledger.changeRevision)
    && (exists r <- p.fileRevisions :: r >= c.ledger.changeRevision)
  }

  /** A message is still to be attended to. */
  predicate Unattended(c: Conv) {
    exists e <- c.ledger.events :: (e.stage.Received? || e.stage.Presented?) && !e.outcome.Unacknowledged?
  }

  lemma {:induction false} UnattendedIff(c: Conv)
    ensures Unaddressed(c.ledger.events) != [] <==> Unattended(c)
  {
    var open := Unaddressed(c.ledger.events);
    assert open != [] ==> open[0] in open;
    if Unattended(c) {
      var e :| e in c.ledger.events && Pending(e);
      assert e in open;
    }
  }

  /**
   There is a second pass exactly when the first completed, a message is unattended or files are mixed, two
   continuations have not been made yet, and two turns are left.
   */
  lemma {:induction false} AnotherPassIff(w: World, turnsLeft: nat, previous: Option<string>, passes: seq<Pass>)
    requires ValidPasses(w, turnsLeft, passes)
    ensures var p, c := passes[0], Run(w, passes[0].steps).c;
            Converse(w, turnsLeft, previous, passes).passes > 1 <==>
            p.end.Completed? && (Unattended(c) || MixedFiles(c, p)) && c.continuations < 2 && turnsLeft - p.turns >= 2
  {
    var p := passes[0];
    UnattendedIff(Run(w, p.steps).c);
    if Continues(w, p, turnsLeft) {
      AtLeastOne(Continued(w, p), turnsLeft - p.turns, Some(p.end.answer), passes[1..]);
    }
  }

  lemma {:induction false} AtLeastOne(w: World, turnsLeft: nat, previous: Option<string>, passes: seq<Pass>)
    requires ValidPasses(w, turnsLeft, passes)
    ensures Converse(w, turnsLeft, previous, passes).passes >= 1
  {
  }

  // ---- after the boundary --------------------------------------------------------------------------

  predicate Past(l: Ledger) { l.phase.Finalizing? || l.phase.Closed? }

  lemma {:induction false} DecideAddressed(s: seq<Event>, r: seq<Event>)
    requires Settles(s, r) && Unaddressed(s) == []
    ensures Unaddressed(r) == []
  {
    SettlesPending(s, r);
  }

  lemma {:induction false} GateSettles(s: seq<Event>, ack: set<nat>, call: nat)
    ensures Settles(s, GateAll(s, ack, call))
  {
  }

  lemma {:induction false} PresentSettles(s: seq<Event>, nums: seq<nat>, anchor: nat)
    ensures Settles(s, PresentAll(s, nums, anchor))
  {
  }

  lemma {:induction false} RespondSettles(c: Conv, ids: seq<nat>, choice: Option<Decision>, reply: string)
    ensures Settles(c.ledger.events, Respond(c, ids, choice, reply).ledger.events)
    ensures Respond(c, ids, choice, reply).ledger.phase == c.ledger.phase
    ensures Respond(c, ids, choice, reply).ledger.revision == c.ledger.revision
  {
  }

  lemma {:induction false} StepSettles(w: World, s: Step)
    requires Enabled(w, s) && Past(w.c.ledger)
    ensures Settles(w.c.ledger.events, Apply(w, s).c.ledger.events)
    ensures Past(Apply(w, s).c.ledger) && Apply(w, s).c.ledger.revision == w.c.ledger.revision
  {
    match s
    case CallDone(response) =>
      if w.c.staged.Some? {
        PresentSettles(w.c.ledger.events, w.c.staged.value.nums, w.c.staged.value.anchor);
      }
    case Decide(ids, choice, reply) => RespondSettles(w.c, ids, choice, reply);
    case GatedCall => GateSettles(w.c.ledger.events, w.c.batchAck, w.c.modelCalls);
    case _ =>
  }

  lemma {:induction false} SettlesOn(s: seq<Event>, r: seq<Event>, t: seq<Event>)
    requires Settles(s, r) && Settles(r, t)
    ensures Settles(s, t)
  {
  }

  /**
   Past the boundary no message is accepted into the run any more, and none becomes unaddressed that was not: the
   ledger's events stay the same ones, and what still needs attention only gets less.
   */
  lemma {:induction false} PastRun(w: World, steps: seq<Step>)
    requires ValidRun(w, steps) && Past(w.c.ledger)
    ensures var after := Run(w, steps).c.ledger;
            Past(after) && after.revision == w.c.ledger.revision && Settles(w.c.ledger.events, after.events)
    decreases |steps|
  {
    if steps != [] {
      StepSettles(w, steps[0]);
      PastRun(Apply(w, steps[0]), steps[1..]);
      SettlesOn(w.c.ledger.events, Apply(w, steps[0]).c.ledger.events, Run(w, steps).c.ledger.events);
    }
  }

  lemma {:induction false} ConverseFinishes(w: World, turnsLeft: nat, previous: Option<string>, passes: seq<Pass>)
    requires ValidPasses(w, turnsLeft, passes)
    ensures var o := Converse(w, turnsLeft, previous, passes);
            && Past(o.world.c.ledger)
            && (o.last.Completed? && !o.nudged ==> Unaddressed(o.world.c.ledger.events) == [])
    decreases |passes|
  {
    var p := passes[0];
    if p.end.Completed? && Continues(w, p, turnsLeft) {
      ConverseFinishes(Continued(w, p), turnsLeft - p.turns, Some(p.end.answer), passes[1..]);
    }
  }

  /**
   A run that finishes with no nudge left has no unaddressed message, and none can appear afterwards. When a
   bound stopped it instead, or a continuation failed, whatever is unaddressed stays reported as such.
   */
  lemma {:induction false} FinishedStaysFinished(w: World, budget: nat, passes: seq<Pass>, after: seq<Step>)
    requires ValidPasses(w, budget, passes)
    requires var o := Converse(w, budget, None, passes);
             && ValidRun(o.world, after)
             && o.last.Completed? && !o.nudged
    ensures Unaddressed(Run(Converse(w, budget, None, passes).world, after).c.ledger.events) == []
  {
    ConverseFinishes(w, budget, None, passes);
    var o := Converse(w, budget, None, passes).world;
    PastRun(o, after);
    DecideAddressed(o.c.ledger.events, Run(o, after).c.ledger.events);
  }
}
