/** What holds over every run of a sandbox conversation, from the claim of its thread on. */
module ConversationTheorems {
  import opened Sequences
  import opened ThreadInbox
  import opened LedgerInvariant
  import opened Conversation
  import opened Weaving
  import opened ConversationRuns
  import opened PrefixStability
  import opened GateSafety
  import opened RefusalsEnd
  import opened RefusalsBounded

  ghost predicate WorldOk(w: World) { GateOk(w) && LogOk(w) && Covered(w) }

  lemma {:induction false} StartOk(requester: Option<int>)
    ensures WorldOk(Start(requester))
  {
    NewLedgerInv(requester);
  }

  lemma {:induction false} StepOk(w: World, s: Step)
    requires WorldOk(w) && Enabled(w, s)
    ensures WorldOk(Apply(w, s))
  {
    StepGateOk(w, s);
    StepLog(w, s);
    StepCovered(w, s);
  }

  lemma {:induction false} RunOk(w: World, steps: seq<Step>)
    requires WorldOk(w) && ValidRun(w, steps)
    ensures WorldOk(Run(w, steps))
    decreases |steps|
  {
    if steps != [] {
      StepOk(w, steps[0]);
      RunOk(Apply(w, steps[0]), steps[1..]);
    }
  }

  // ---- input placement ----------------------------------------------------------------------

  function ThreadsOf(items: seq<Item>): seq<Item>
    decreases |items|
  {
    if items == [] then []
    else
      var rest, x := ThreadsOf(items[..|items|-1]), items[|items|-1];
      if x.Thread? then rest + [x] else rest
  }

  lemma {:induction false} ThreadsConcat(x: seq<Item>, y: seq<Item>)
    ensures ThreadsOf(x + y) == ThreadsOf(x) + ThreadsOf(y)
    decreases |y|
  {
    if y == [] {
      assert x + y == x;
    } else {
      assert (x + y)[..|x + y| - 1] == x + y[..|y|-1];
      ThreadsConcat(x, y[..|y|-1]);
    }
  }

  lemma {:induction false} ThreadsOfBase(x: seq<Item>)
    requires AllBase(x)
    ensures ThreadsOf(x) == []
    decreases |x|
  {
    if x != [] {
      assert x == x[..|x|-1] + [x[|x|-1]];
      ThreadsOfBase(x[..|x|-1]);
      assert x[|x|-1] in x;
    }
  }

  /** Threads of a message put between two stretches, the second without any. */
  lemma {:induction false} ThreadsAround(x: seq<Item>, p: Item, y: seq<Item>)
    requires p.Thread? && AllBase(y)
    ensures ThreadsOf(x + [p] + y) == ThreadsOf(x) + [p]
  {
    ThreadsOfBase(y);
    ThreadsConcat(x + [p], y);
    ThreadsConcat(x, [p]);
    ThreadsOfOne(p);
  }

  lemma {:induction false} FitFront(base: seq<Item>, ps: seq<Placement>)
    requires AllBase(base) && AllThread(ps) && Fits(ps, |base|) && ps != []
    ensures var front, p := ps[..|ps|-1], ps[|ps|-1];
            && p.anchor <= |base| && p.item.Thread? && ItemsOf(ps) == ItemsOf(front) + [p.item]
            && AllBase(base[..p.anchor]) && AllBase(base[p.anchor..]) && AllThread(front) && Fits(front, p.anchor)
  {
  }

  lemma {:induction false} ThreadsOfWeave(base: seq<Item>, ps: seq<Placement>)
    requires AllBase(base) && AllThread(ps) && Fits(ps, |base|)
    ensures ThreadsOf(Weave(base, ps)) == ItemsOf(ps)
    decreases |ps|
  {
    if ps == [] {
      ThreadsOfBase(base);
    } else {
      var front, p := ps[..|ps|-1], ps[|ps|-1];
      FitFront(base, ps);
      ThreadsOfWeave(base[..p.anchor], front);
      ThreadsAround(Weave(base[..p.anchor], front), p.item, base[p.anchor..]);
    }
  }

  lemma {:induction false} ThreadsOfOne(x: Item)
    ensures ThreadsOf([x]) == if x.Thread? then [x] else []
  {
    assert [x][..0] == [];
  }

  lemma {:induction false} NumbersIncrease(events: seq<Event>)
    requires Ordered(events)
    ensures Increasing(events)
  {
    assert forall i, j | 0 <= i < j < |events| :: Before(events[i], events[j]);
  }

  lemma {:induction false} FilteredIsFaithful(l: Ledger, items: seq<Item>)
    requires Inv(l) && AllBase(items)
    ensures Keep(FilteredInput(l, items), {}) == items
    ensures ThreadsOf(FilteredInput(l, items)) == RenderAll(l.events, l.requester)
  {
    var ps := AllPlaced(l.events, |items|, l.requester);
    FilteredIsWoven(l, items);
    PlacedFits(l.events, |items|, l.requester, l.revision);
    KeepWeave(items, ps, {});
    KeepNone(ps);
    ThreadsOfWeave(items, ps);
    assert ItemsOf(ps) == RenderAll(l.events, l.requester);
  }

  /**
   Whatever has happened, and whatever the SDK sends, the next call's input is the SDK's own with every retained
   message shown exactly once, in the order they were accepted.
   */
  lemma {:induction false} InputIsFaithful(requester: Option<int>, steps: seq<Step>, items: seq<Item>)
    requires ValidRun(Start(requester), steps) && AllBase(items)
    ensures var l := Run(Start(requester), steps).c.ledger;
            && Keep(FilteredInput(l, items), {}) == items
            && ThreadsOf(FilteredInput(l, items)) == RenderAll(l.events, requester)
            && Increasing(l.events)
  {
    StartOk(requester);
    RunOk(Start(requester), steps);
    RequesterKept(Start(requester), steps);
    var l := Run(Start(requester), steps).c.ledger;
    FilteredIsFaithful(l, items);
    NumbersIncrease(l.events);
  }

  lemma {:induction false} RequesterKept(w: World, steps: seq<Step>)
    requires ValidRun(w, steps)
    ensures Run(w, steps).c.ledger.requester == w.c.ledger.requester
    decreases |steps|
  {
    if steps != [] {
      RequesterKept(Apply(w, steps[0]), steps[1..]);
    }
  }

  /**
   Of any two completed calls, the later one's input begins with what the earlier was sent, less the
   messages compacted in between; so it begins with exactly that if and only if none of them was.
   */
  lemma {:induction false} LaterCallsExtend(requester: Option<int>, steps: seq<Step>, i: nat, j: nat)
    requires ValidRun(Start(requester), steps)
    requires i < j < |Run(Start(requester), steps).calls|
    ensures var calls := Run(Start(requester), steps).calls;
            && Keep(calls[i].input, calls[j].retained) <= calls[j].input
            && (calls[i].input <= calls[j].input
                <==> forall x <- calls[i].input :: x.Thread? ==> x.num in calls[j].retained)
  {
    StartOk(requester);
    RunOk(Start(requester), steps);
    var calls := Run(Start(requester), steps).calls;
    var a, b := calls[i], calls[j];
    assert a in calls && b in calls;
    if a.input <= b.input {
      forall x | x in a.input && x.Thread? ensures x.num in b.retained {
        var k :| 0 <= k < |a.input| && a.input[k] == x;
        assert b.input[k] == x;
      }
    }
    if forall x <- a.input :: x.Thread? ==> x.num in b.retained {
      KeepAll(a.input, b.retained);
    }
  }

  // ---- gating -----------------------------------------------------------------------------------

  /**
   When a gated action starts, every message accepted so far was part of a model call that has completed,
   no blocking question is being waited for, and each message shown but not answered is covered by the
   current response or was given up on.
   */
  lemma {:induction false} GatedActionsSawEverything(requester: Option<int>, steps: seq<Step>)
    requires ValidRun(Start(requester), steps)
    requires Enabled(Run(Start(requester), steps), GatedCall)
    requires Apply(Run(Start(requester), steps), GatedCall).running
    ensures var w := Apply(Run(Start(requester), steps), GatedCall);
            && !Waiting(w.c.ledger)
            && (forall n: nat | 1 <= n <= w.c.ledger.revision :: ShownBy(w.calls, n))
            && (forall e <- w.c.ledger.events :: e.stage.Presented? ==> e.outcome.Unacknowledged? || e.num in w.c.batchAck)
  {
    var w := Run(Start(requester), steps);
    StartOk(requester);
    RunOk(Start(requester), steps);
    StepOk(w, GatedCall);
    AllowedMeans(w.c);
  }

  /** The gate gives up on a message it would otherwise refuse over once more. */
  predicate GivenUp(e: Event, call: nat) {
    e.gateRefusals + (if e.lastRefusedCall == Some(call) then 0 else 1) > MAX_GATE_REFUSALS
  }

  lemma {:induction false} StaysOpenIff(e: Event, ack: set<nat>, call: nat)
    ensures Open(GateOne(e, ack, call), ack) <==> Open(e, ack) && !GivenUp(e, call)
  {
  }

  lemma {:induction false} NoneOpenIff(s: seq<Event>, ack: set<nat>, call: nat)
    ensures StillOpen(GateAll(s, ack, call), ack) == [] <==> forall e <- s :: Open(e, ack) ==> GivenUp(e, call)
  {
    var r := GateAll(s, ack, call);
    StillOpenMembers(r, ack);
    forall i | 0 <= i < |s| ensures Open(r[i], ack) <==> Open(s[i], ack) && !GivenUp(s[i], call) {
      StaysOpenIff(s[i], ack, call);
    }
    if StillOpen(r, ack) == [] {
      forall e | e in s ensures Open(e, ack) ==> GivenUp(e, call) {
        var i :| 0 <= i < |s| && s[i] == e;
        assert r[i] in r;
      }
    } else {
      assert StillOpen(r, ack)[0] in StillOpen(r, ack);
      var x :| x in r && x.num == StillOpen(r, ack)[0] && Open(x, ack);
      var i :| 0 <= i < |r| && r[i] == x;
      assert s[i] in s;
    }
  }

  lemma {:induction false} UnseenIff(s: seq<Event>)
    requires forall e <- s :: EventOk(e)
    ensures Filter(IsReceived, Unaddressed(s)) == [] <==> forall e <- s :: !e.stage.Received?
  {
    if forall e <- s :: !e.stage.Received? {
      NoUnseen(s);
    } else {
      var e :| e in s && e.stage.Received?;
      assert e in Filter(IsReceived, Unaddressed(s));
    }
  }

  /** Exactly when the gate lets an action run. */
  lemma {:induction false} AllowedIff(c: Conv)
    requires Inv(c.ledger)
    ensures Gate(c).1.Allowed? <==>
            && !(c.ledger.question.Some? && c.ledger.question.value.blocking && c.ledger.question.value.waiting)
            && forall e <- c.ledger.events ::
                 && !e.stage.Received?
                 && (e.stage.Presented? && !e.outcome.Unacknowledged? && e.num !in c.batchAck ==>
                       e.gateRefusals + (if e.lastRefusedCall == Some(c.modelCalls) then 0 else 1) > 2)
  {
    GateIs(c);
    AllEventOk(c.ledger.events, c.ledger.revision);
    UnseenIff(c.ledger.events);
    NoneOpenIff(c.ledger.events, c.batchAck, c.modelCalls);
  }

  lemma {:induction false} NoUnseen(s: seq<Event>)
    requires forall e <- s :: !e.stage.Received?
    ensures Filter(IsReceived, Unaddressed(s)) == []
  {
    FilterNone(IsReceived, Unaddressed(s));
  }

  /** One message holds gated actions back in at most two responses, however many gated calls each makes. */
  lemma {:induction false} MessageRefusesTwice(requester: Option<int>, steps: seq<Step>, n: nat)
    requires ValidRun(Start(requester), steps)
    ensures |RefusedIn(Run(Start(requester), steps).refusals, n)| <= 2
  {
    StartOk(requester);
    RunOk(Start(requester), steps);
  }

  /** From any point on where messages stop arriving, refusals end; and within three responses if the model stays silent. */
  lemma {:induction false} RefusalsEndAfterDeliveries(requester: Option<int>, before: seq<Step>, after: seq<Step>)
    requires ValidRun(Start(requester), before)
    requires ValidRun(Run(Start(requester), before), after) && QuietRun(Run(Start(requester), before), after)
    ensures var w := Run(Start(requester), before);
            && |RefusedResponses(Run(w, after).refusals)| <= |RefusedResponses(w.refusals)| + 41
            && (SilentRun(w, after) ==>
                  |RefusedResponses(Run(w, after).refusals)| <= |RefusedResponses(w.refusals)| + 3)
  {
    var w := Run(Start(requester), before);
    StartOk(requester);
    RunOk(Start(requester), before);
    TwoForEachPending(w, after);
    if SilentRun(w, after) {
      SilentRefusalsBounded(w, after);
    }
  }

  // ---- the ledger ----------------------------------------------------------------------------------

  /** A decision is recorded exactly on what is addressed or resolved; addressed means it will still be applied. */
  predicate StagesAgree(e: Event) {
    && (e.outcome.Decided? <==> e.stage.Addressed? || e.stage.Resolved?)
    && (e.stage.Addressed? <==> e.outcome == Decided(WillApply))
    && (e.stage.Received? ==> e.outcome.Undecided? && e.gateRefusals == 0)
  }

  lemma {:induction false} StageAgreesWithOutcome(requester: Option<int>, steps: seq<Step>, e: Event)
    requires ValidRun(Start(requester), steps) && e in Run(Start(requester), steps).c.ledger.events
    ensures StagesAgree(e)
  {
    StartOk(requester);
    RunOk(Start(requester), steps);
    var l := Run(Start(requester), steps).c.ledger;
    AllEventOk(l.events, l.revision);
  }

  /** Whatever a step takes out of the ledger was resolved. */
  lemma {:induction false} OnlyResolvedAreCompacted(requester: Option<int>, steps: seq<Step>, s: Step)
    requires ValidRun(Start(requester), steps) && Enabled(Run(Start(requester), steps), s)
    ensures var w := Run(Start(requester), steps);
            forall e <- w.c.ledger.events :: e.stage.Resolved? || e.num in Numbers(Apply(w, s).c.ledger.events)
  {
    StartOk(requester);
    RunOk(Start(requester), steps);
    StepDropsResolved(Run(Start(requester), steps), s);
  }

  lemma {:induction false} StepDropsResolved(w: World, s: Step)
    requires LedgerOk(w) && Enabled(w, s)
    ensures forall e <- w.c.ledger.events :: e.stage.Resolved? || e.num in Numbers(Apply(w, s).c.ledger.events)
  {
    var l := w.c.ledger;
    match s
    case Arrive(m) => ArriveDropsResolved(l, m);
    case CallOut(items) =>
    case CallDone(response) =>
      CallCompletes(w, response);
      PresentNumbers(l.events, w.c.staged.value.nums, w.c.staged.value.anchor);
    case _ =>
      RecordsOnlyKeeps(w, s);
      SameFaceNumbers(l.events, Apply(w, s).c.ledger.events);
  }

  lemma {:induction false} ArriveDropsResolved(l: Ledger, m: Message)
    ensures forall e <- l.events :: e.stage.Resolved? || e.num in Numbers(Deliver(l, m).0.events)
  {
    ArriveEvents(l, m);
    var s := l.events + [Arriving(l, m)];
    DropResolvedMembers(s, |l.events| + 1 - MAX_RETAINED_EVENTS);
    forall e | e in l.events ensures e.stage.Resolved? || e.num in Numbers(Deliver(l, m).0.events) {
      assert e in s;
    }
  }

  /**
   Every accepted message is retained or was compacted, within the bounds; one no longer retained was shown to
   the model, and a status claiming the sandbox responded means a shown message with that decision recorded.
   */
  lemma {:induction false} LedgerAccounts(requester: Option<int>, steps: seq<Step>)
    requires ValidRun(Start(requester), steps)
    ensures var w := Run(Start(requester), steps);
            var l := w.c.ledger;
            && l.revision == |l.events| + l.compacted
            && |l.events| <= 60 && |Unaddressed(l.events)| <= 20 && PendingChars(l.events) <= 4000 && |l.followUps| <= 10
            && (forall n: nat | 1 <= n <= l.revision && n !in Numbers(l.events) :: ShownBy(w.calls, n))
            && (forall e <- l.events :: StatusOf(e).Told? ==>
                  ShownBy(w.calls, e.num) && e.outcome == Decided(StatusOf(e).decision))
  {
    StartOk(requester);
    RunOk(Start(requester), steps);
    var w := Run(Start(requester), steps);
    var l := w.c.ledger;
    forall e | e in l.events && StatusOf(e).Told?
      ensures ShownBy(w.calls, e.num) && e.outcome == Decided(StatusOf(e).decision)
    {
      var i :| 0 <= i < |l.events| && l.events[i] == e;
      OneEventPerNumber(l.events, i, l.revision);
    }
  }

  lemma {:induction false} OneEventPerNumber(events: seq<Event>, i: nat, revision: nat)
    requires EventsOk(events, revision) && i < |events|
    ensures forall x <- events :: x.num == events[i].num ==> x == events[i]
  {
  }
}
