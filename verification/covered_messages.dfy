/** What the gate's cover means for the messages themselves: which of them an action starts on unanswered. */
module CoveredMessages {
  import opened Sequences
  import opened Text
  import opened ThreadInbox
  import opened LedgerInvariant
  import opened Conversation
  import opened ConversationRuns
  import opened GateSafety
  import opened RefusalsEnd
  import opened ConversationTheorems

  /** Shown to the model, and neither decided nor given up on. */
  predicate LeftOpen(e: Event) { e.stage.Presented? && e.outcome.Undecided? }

  predicate AwaitsAnswer(events: seq<Event>, n: nat) { exists e <- events :: e.num == n && LeftOpen(e) }

  /** The messages a respond call records its decision on. */
  function Targets(events: seq<Event>, ids: seq<nat>, d: Decision): seq<nat> {
    if ids == [] then DefaultTargets(events, d) else ids
  }

  /** A respond call with a known decision that records it on message `n`. */
  predicate RecordsOn(w: World, s: Step, n: nat) {
    s.Decide? && s.choice.Some? && n in Targets(w.c.ledger.events, s.ids, s.choice.value)
  }

  predicate RecordedIn(w: World, steps: seq<Step>, n: nat)
    requires ValidRun(w, steps)
    decreases |steps|
  {
    steps != [] && (RecordsOn(w, steps[0], n) || RecordedIn(Apply(w, steps[0]), steps[1..], n))
  }

  // ---- one respond call -------------------------------------------------------------------------------

  lemma {:induction false} DecidedIff(s: seq<Event>, nums: seq<nat>, d: Decision, reply: string, n: nat)
    ensures AwaitsAnswer(DecideAll(s, nums, d, reply), n) <==> AwaitsAnswer(s, n) && n !in nums
  {
    var r := DecideAll(s, nums, d, reply);
    if e :| e in r && e.num == n && LeftOpen(e) {
      var i :| 0 <= i < |r| && r[i] == e;
      assert s[i] in s;
    }
    if n !in nums && AwaitsAnswer(s, n) {
      var e :| e in s && e.num == n && LeftOpen(e);
      var i :| 0 <= i < |s| && s[i] == e;
      assert r[i] in r;
    }
  }

  lemma {:induction false} DefaultTargetsMembers(events: seq<Event>, d: Decision, e: Event)
    requires e in events && DefaultTarget(e, d)
    ensures e.num in DefaultTargets(events, d)
    decreases |events|
  {
    if events[|events|-1] != e {
      DefaultTargetsMembers(events[..|events|-1], d, e);
    }
  }

  lemma {:induction false} RespondIs(c: Conv, ids: seq<nat>, choice: Option<Decision>, reply: string, n: nat)
    ensures AwaitsAnswer(Respond(c, ids, choice, reply).ledger.events, n) <==>
            AwaitsAnswer(c.ledger.events, n) && !(choice.Some? && n in Targets(c.ledger.events, ids, choice.value))
  {
    if choice.Some? {
      DecidedIff(c.ledger.events, Targets(c.ledger.events, ids, choice.value), choice.value, Strip(reply), n);
    }
  }

  /** A respond call that the gate takes to cover an unanswered message leaves it so exactly when its decision is unknown. */
  lemma {:induction false} CoveringCallAnswersIff(c: Conv, ids: seq<nat>, choice: Option<Decision>, reply: string, n: nat)
    requires AwaitsAnswer(c.ledger.events, n) && n in Acknowledged([ids], c.ledger.events)
    ensures AwaitsAnswer(Respond(c, ids, choice, reply).ledger.events, n) <==> choice.None?
  {
    var s := c.ledger.events;
    assert [ids][..0] == [];
    RespondIs(c, ids, choice, reply, n);
    if choice.Some? && ids == [] {
      var e :| e in s && e.num == n && LeftOpen(e);
      DefaultTargetsMembers(s, choice.value, e);
    }
  }

  // ---- what a response covers -------------------------------------------------------------------------------

  /** A respond call naming nothing covers what is shown and not given up on; any other covers what it names. */
  predicate Covers(call: seq<nat>, events: seq<Event>, n: nat) {
    if call != [] then n in call
    else exists e <- events :: e.num == n && e.stage.Presented? && !e.outcome.Unacknowledged?
  }

  lemma {:induction false} CoveredIff(response: seq<seq<nat>>, events: seq<Event>, n: nat)
    ensures n in Acknowledged(response, events) <==> exists call <- response :: Covers(call, events, n)
    decreases |response|
  {
    if response != [] {
      var front, last := response[..|response|-1], response[|response|-1];
      assert response == front + [last];
      CoveredIff(front, events, n);
      OpenNumbers(events, n);
      assert last in response && forall call <- front :: call in response;
      assert forall call <- response :: call in front || call == last;
      assert Covers(last, events, n) <==> if last == [] then n in Numbers(Filter(WaitingToBeAnswered, events)) else n in last;
    }
  }

  lemma {:induction false} OpenNumbers(events: seq<Event>, n: nat)
    ensures n in Numbers(Filter(WaitingToBeAnswered, events)) <==> Covers([], events, n)
  {
    var open := Filter(WaitingToBeAnswered, events);
    if e :| e in events && e.num == n && e.stage.Presented? && !e.outcome.Unacknowledged? {
      assert e in open;
    }
  }

  /** What the gate takes as covered once a call has completed: exactly what some respond call of its response covers. */
  lemma {:induction false} ResponseCovers(w: World, response: seq<seq<nat>>, n: nat)
    requires Enabled(w, CallDone(response))
    ensures var after := Apply(w, CallDone(response));
            n in after.c.batchAck <==> exists call <- response :: Covers(call, after.c.ledger.events, n)
  {
    CoveredIff(response, Apply(w, CallDone(response)).c.ledger.events, n);
  }

  /** No event has been refused over in a response that has only just arrived. */
  lemma {:induction false} NewResponse(w: World, response: seq<seq<nat>>)
    requires GateOk(w) && Enabled(w, CallDone(response))
    ensures var after := Apply(w, CallDone(response));
            && GateOk(after) && forall e <- after.c.ledger.events :: e.lastRefusedCall != Some(after.c.modelCalls)
  {
    StepGateOk(w, CallDone(response));
    var s, r := w.c.ledger.events, Apply(w, CallDone(response)).c.ledger.events;
    forall e | e in r ensures e.lastRefusedCall != Some(w.c.modelCalls + 1) {
      var i :| 0 <= i < |r| && r[i] == e;
      assert s[i] in s;
    }
  }

  /**
   When a response's own respond calls let its action run, asked first thing: no blocking question waits, nothing is
   unseen, and each message shown and not given up on is covered by one of them or has refused two responses already.
   */
  lemma {:induction false} OwnCallsLetRunIff(w: World, response: seq<seq<nat>>)
    requires GateOk(w) && Enabled(w, CallDone(response))
    ensures var after := Apply(w, CallDone(response));
            Gate(after.c).1.Allowed? <==>
            && !Waiting(after.c.ledger)
            && forall e <- after.c.ledger.events ::
                 && !e.stage.Received?
                 && (e.stage.Presented? && !e.outcome.Unacknowledged? ==>
                       e.gateRefusals >= 2 || exists call <- response :: Covers(call, after.c.ledger.events, e.num))
  {
    var after := Apply(w, CallDone(response));
    NewResponse(w, response);
    AllowedIff(after.c);
    forall e | e in after.c.ledger.events
      ensures e.num in after.c.batchAck <==> exists call <- response :: Covers(call, after.c.ledger.events, e.num)
    {
      ResponseCovers(w, response, e.num);
    }
  }

  // ---- the steps between a response and a gated action of it -----------------------------------------------

  lemma {:induction false} GateLeaves(s: seq<Event>, ack: set<nat>, call: nat, n: nat)
    ensures AwaitsAnswer(GateAll(s, ack, call), n) ==> AwaitsAnswer(s, n)
    ensures n in ack && AwaitsAnswer(s, n) ==> AwaitsAnswer(GateAll(s, ack, call), n)
  {
    var r := GateAll(s, ack, call);
    if e :| e in r && e.num == n && LeftOpen(e) {
      var i :| 0 <= i < |r| && r[i] == e;
      assert s[i] in s;
    }
    if n in ack && AwaitsAnswer(s, n) {
      var e :| e in s && e.num == n && LeftOpen(e);
      var i :| 0 <= i < |s| && s[i] == e;
      assert r[i] in r;
    }
  }

  lemma {:induction false} KeptWith(s: seq<Event>, x: Event, kept: seq<Event>, n: nat)
    requires x.stage.Received? && (forall e <- kept :: e in s + [x]) && (forall e <- s + [x] :: e in kept || e.stage.Resolved?)
    ensures AwaitsAnswer(kept, n) <==> AwaitsAnswer(s, n)
  {
    if AwaitsAnswer(s, n) {
      var e :| e in s && e.num == n && LeftOpen(e);
      assert e in s + [x];
    }
  }

  lemma {:induction false} ArriveLeaves(l: Ledger, m: Message, n: nat)
    ensures AwaitsAnswer(Deliver(l, m).0.events, n) <==> AwaitsAnswer(l.events, n)
  {
    ArriveEvents(l, m);
    if Deliver(l, m).1.Accepted? {
      var s := l.events + [Arriving(l, m)];
      DropResolvedMembers(s, |l.events| + 1 - MAX_RETAINED_EVENTS);
      KeptWith(l.events, Arriving(l, m), Deliver(l, m).0.events, n);
    }
  }

  /** Between responses only a recorded decision, or the gate giving up, answers; and it never gives up what is covered. */
  lemma {:induction false} StepAnswers(w: World, s: Step, n: nat)
    requires Enabled(w, s) && !s.CallDone?
    ensures AwaitsAnswer(Apply(w, s).c.ledger.events, n) ==> AwaitsAnswer(w.c.ledger.events, n) && !RecordsOn(w, s, n)
    ensures n in w.c.batchAck && AwaitsAnswer(w.c.ledger.events, n) && !RecordsOn(w, s, n)
            ==> AwaitsAnswer(Apply(w, s).c.ledger.events, n)
    ensures Apply(w, s).c.batchAck == w.c.batchAck
  {
    match s
    case Arrive(m) => ArriveLeaves(w.c.ledger, m, n);
    case Decide(ids, choice, reply) => RespondIs(w.c, ids, choice, reply, n);
    case GatedCall =>
      GateIs(w.c);
      GateLeaves(w.c.ledger.events, w.c.batchAck, w.c.modelCalls, n);
    case _ =>
  }

  predicate WithinResponse(steps: seq<Step>) { forall s <- steps :: !s.CallDone? }

  lemma {:induction false} StepsAnswer(w: World, steps: seq<Step>, n: nat)
    requires ValidRun(w, steps) && WithinResponse(steps)
    ensures AwaitsAnswer(Run(w, steps).c.ledger.events, n) ==> AwaitsAnswer(w.c.ledger.events, n) && !RecordedIn(w, steps, n)
    ensures n in w.c.batchAck && AwaitsAnswer(w.c.ledger.events, n) && !RecordedIn(w, steps, n)
            ==> AwaitsAnswer(Run(w, steps).c.ledger.events, n)
    ensures Run(w, steps).c.batchAck == w.c.batchAck
    decreases |steps|
  {
    if steps != [] {
      assert steps[0] in steps;
      StepAnswers(w, steps[0], n);
      StepsAnswer(Apply(w, steps[0]), steps[1..], n);
    }
  }

  lemma {:induction false} OpenIsCovered(w: World, n: nat)
    requires LedgerOk(w) && Enabled(w, GatedCall) && Apply(w, GatedCall).running
    requires AwaitsAnswer(Apply(w, GatedCall).c.ledger.events, n)
    ensures n in w.c.batchAck
  {
    AllowedMeans(w.c);
    GateIs(w.c);
  }

  /**
   Which messages a gated action starts on unanswered: exactly those that were shown and unanswered when its response
   arrived, are covered by that response, and on which none of its respond calls has recorded a decision yet.
   */
  lemma {:induction false} StartsUnansweredIff(
      requester: Option<int>, before: seq<Step>, response: seq<seq<nat>>, since: seq<Step>, n: nat)
    requires ValidRun(Start(requester), before) && Enabled(Run(Start(requester), before), CallDone(response))
    requires var w := Apply(Run(Start(requester), before), CallDone(response));
             && ValidRun(w, since) && WithinResponse(since)
             && Enabled(Run(w, since), GatedCall) && Apply(Run(w, since), GatedCall).running
    ensures var w := Apply(Run(Start(requester), before), CallDone(response));
            AwaitsAnswer(Apply(Run(w, since), GatedCall).c.ledger.events, n) <==>
            && AwaitsAnswer(w.c.ledger.events, n) && n in Acknowledged(response, w.c.ledger.events)
            && !RecordedIn(w, since, n)
  {
    var w0 := Run(Start(requester), before);
    var w := Apply(w0, CallDone(response));
    StepsAnswer(w, since, n);
    StepAnswers(Run(w, since), GatedCall, n);
    StartOk(requester);
    RunOk(Start(requester), before);
    StepOk(w0, CallDone(response));
    RunOk(w, since);
    if AwaitsAnswer(Apply(Run(w, since), GatedCall).c.ledger.events, n) {
      OpenIsCovered(Run(w, since), n);
    }
  }
}
