/** What the gate guarantees over whole runs: nothing gated starts on unseen input, and refusals end. */
module GateSafety {
  import opened Sequences
  import opened Text
  import opened ThreadInbox
  import opened LedgerInvariant
  import opened Conversation
  import opened Weaving
  import opened ConversationRuns
  import opened PrefixStability

  // ---- every accepted message is unseen or was in a completed call -------------------------

  predicate Shows(c: Call, n: nat) { exists x <- c.input :: x.Thread? && x.num == n }

  predicate ShownBy(calls: seq<Call>, n: nat) { exists c <- calls :: Shows(c, n) }

  predicate IsUnseen(events: seq<Event>, n: nat) { exists e <- events :: e.num == n && e.stage.Received? }

  predicate Covered(w: World)
    requires StagedOk(w)
  {
    && (forall n: nat | 1 <= n <= w.c.ledger.revision :: ShownBy(w.calls, n) || IsUnseen(w.c.ledger.events, n))
    && (w.inFlight.Some? ==> forall n <- w.c.staged.value.nums :: Shows(w.inFlight.value, n))
  }

  lemma {:induction false} WeaveHas(base: seq<Item>, ps: seq<Placement>, i: nat)
    requires i < |ps|
    ensures ps[i].item in Weave(base, ps)
    decreases |ps|
  {
    var p := ps[|ps|-1];
    var a := if p.anchor < |base| then p.anchor else |base|;
    if i < |ps| - 1 {
      WeaveHas(base[..a], ps[..|ps|-1], i);
      var x, front := ps[i].item, Weave(base[..a], ps[..|ps|-1]);
      assert x in front;
      assert x in front + [p.item] + base[a..];
    } else {
      assert p.item in [p.item];
    }
  }

  /** Every event of the ledger is in the input the filter makes. */
  lemma {:induction false} InputShows(l: Ledger, items: seq<Item>, e: Event)
    requires Inv(l) && Anchored(l.events, |items|) && e in l.events
    ensures Render(e, l.requester) in FilteredInput(l, items)
  {
    FilteredIsWoven(l, items);
    var i :| 0 <= i < |l.events| && l.events[i] == e;
    WeaveHas(items, AllPlaced(l.events, |items|, l.requester), i);
  }

  lemma {:induction false} SameFaceCovered(w: World, w': World)
    requires StagedOk(w) && Covered(w) && StagedOk(w')
    requires SameLog(w, w')
    ensures Covered(w')
  {
  }

  /** One more message accepted, nothing unseen lost. */
  predicate Grown(w: World, w': World, e: Event) {
    && w'.calls == w.calls && w'.inFlight == w.inFlight && w'.c.staged == w.c.staged
    && w'.c.ledger.revision == w.c.ledger.revision + 1 && e.stage.Received? && e.num == w'.c.ledger.revision
    && e in w'.c.ledger.events && forall x <- w.c.ledger.events :: x.stage.Received? ==> x in w'.c.ledger.events
  }

  lemma {:induction false} GrownCovered(w: World, w': World, e: Event)
    requires StagedOk(w) && Covered(w) && StagedOk(w') && Grown(w, w', e)
    ensures Covered(w')
  {
  }

  lemma {:induction false} ArriveGrows(w: World, m: Message)
    requires Deliver(w.c.ledger, m).1.Accepted?
    ensures Grown(w, Apply(w, Arrive(m)), Arriving(w.c.ledger, m))
  {
    var l := w.c.ledger;
    ArriveEvents(l, m);
    var s := l.events + [Arriving(l, m)];
    DropResolvedMembers(s, |l.events| + 1 - MAX_RETAINED_EVENTS);
    assert Arriving(l, m) in s;
    assert forall x <- l.events :: x in s;
  }

  lemma {:induction false} ArriveCovered(w: World, m: Message)
    requires LedgerOk(w) && Covered(w)
    ensures StagedOk(Apply(w, Arrive(m))) && Covered(Apply(w, Arrive(m)))
  {
    ArriveOk(w, m);
    if Deliver(w.c.ledger, m).1.Accepted? {
      ArriveGrows(w, m);
      GrownCovered(w, Apply(w, Arrive(m)), Arriving(w.c.ledger, m));
    } else {
      ArriveEvents(w.c.ledger, m);
    }
  }

  lemma {:induction false} CallOutCovered(w: World, items: seq<Item>)
    requires LedgerOk(w) && Covered(w) && Enabled(w, CallOut(items))
    ensures StagedOk(Apply(w, CallOut(items))) && Covered(Apply(w, CallOut(items)))
  {
    CallOutOk(w, items);
    var l, w' := w.c.ledger, Apply(w, CallOut(items));
    var unseen := Unpresented(l.events);
    forall n | n in w'.c.staged.value.nums ensures Shows(w'.inFlight.value, n) {
      var i :| 0 <= i < |unseen| && NumbersOf(unseen)[i] == n;
      assert unseen[i] in unseen;
      InputShows(l, items, unseen[i]);
    }
  }

  lemma {:induction false} CompletedCovered(w: World, w': World)
    requires StagedOk(w) && Covered(w) && StagedOk(w') && Completes(w, w')
    ensures Covered(w')
  {
    var s, r, nums := w.c.ledger.events, w'.c.ledger.events, w.c.staged.value.nums;
    assert w.inFlight.value in w'.calls;
    forall n: nat | 1 <= n <= w'.c.ledger.revision ensures ShownBy(w'.calls, n) || IsUnseen(r, n) {
      if ShownBy(w.calls, n) {
        var c :| c in w.calls && Shows(c, n);
        assert c in w'.calls;
      } else if n !in nums {
        var e :| e in s && e.num == n && e.stage.Received?;
        var i :| 0 <= i < |s| && s[i] == e;
        assert r[i] in r;
      }
    }
  }

  lemma {:induction false} CallDoneCovered(w: World, response: seq<seq<nat>>)
    requires LedgerOk(w) && Covered(w) && Enabled(w, CallDone(response))
    ensures StagedOk(Apply(w, CallDone(response))) && Covered(Apply(w, CallDone(response)))
  {
    CallDoneOk(w, response);
    CallCompletes(w, response);
    CompletedCovered(w, Apply(w, CallDone(response)));
  }

  lemma {:induction false} StepCovered(w: World, s: Step)
    requires LedgerOk(w) && Covered(w) && Enabled(w, s)
    ensures StagedOk(Apply(w, s)) && Covered(Apply(w, s))
  {
    match s
    case Arrive(m) => ArriveCovered(w, m);
    case CallOut(items) => CallOutCovered(w, items);
    case CallDone(response) => CallDoneCovered(w, response);
    case _ =>
      StepLedgerOk(w, s);
      RecordsOnlyKeeps(w, s);
      SameFaceCovered(w, Apply(w, s));
  }

  // ---- what starting a gated action means -----------------------------------------------------

  lemma {:induction false} StillOpenMembers(events: seq<Event>, ack: set<nat>)
    ensures forall e <- events :: Open(e, ack) ==> e.num in StillOpen(events, ack)
    ensures forall n <- StillOpen(events, ack) :: exists e <- events :: e.num == n && Open(e, ack)
    decreases |events|
  {
    if events != [] {
      var front, e := events[..|events|-1], events[|events|-1];
      assert events == front + [e];
      StillOpenMembers(front, ack);
      forall n | n in StillOpen(events, ack) ensures exists x <- events :: x.num == n && Open(x, ack) {
        if n in StillOpen(front, ack) {
          var x :| x in front && x.num == n && Open(x, ack);
          assert x in events;
        } else {
          assert e in events;
        }
      }
    }
  }

  /** The gate lets an action run only when nothing is unseen and nothing shown is left open. */
  lemma {:induction false} NothingUnseen(c: Conv)
    requires Inv(c.ledger) && (Gate(c).1.Unanswered? || Gate(c).1.Allowed?)
    ensures forall e <- c.ledger.events :: !e.stage.Received?
  {
  }

  lemma {:induction false} AllowedMeans(c: Conv)
    requires Inv(c.ledger) && Gate(c).1.Allowed?
    ensures !Waiting(c.ledger)
    ensures forall e <- Gate(c).0.ledger.events :: !e.stage.Received? && !Open(e, c.batchAck)
  {
    var s, r := c.ledger.events, Gate(c).0.ledger.events;
    StillOpenMembers(r, c.batchAck);
    NothingUnseen(c);
    forall e | e in r ensures !e.stage.Received? && !Open(e, c.batchAck) {
      var i :| 0 <= i < |r| && r[i] == e;
      assert s[i] in s;
    }
  }

  // ---- how often one message can hold an action back -------------------------------------------

  /** The responses in which message `n` was among those a refusal named. */
  function RefusedIn(log: seq<Refusal>, n: nat): set<nat> {
    set r <- log | r.verdict.Unanswered? && n in r.verdict.ignored :: r.call
  }

  predicate EventRefusals(e: Event, refused: set<nat>, call: nat) {
    && |refused| <= e.gateRefusals
    && (e.stage.Presented? && !e.outcome.Unacknowledged? ==> e.gateRefusals <= MAX_GATE_REFUSALS)
    && (e.lastRefusedCall.Some? ==> e.lastRefusedCall.value <= call)
    && (call in refused ==> e.lastRefusedCall == Some(call))
    && (e.stage.Presented? && !e.outcome.Unacknowledged? && e.lastRefusedCall == Some(call) ==> call in refused)
  }

  ghost predicate RefusalsOk(w: World) {
    && (forall n: nat :: |RefusedIn(w.refusals, n)| <= MAX_GATE_REFUSALS)
    && (forall n: nat | n > w.c.ledger.revision :: RefusedIn(w.refusals, n) == {})
    && (forall r <- w.refusals :: r.call <= w.c.modelCalls)
    && (forall e <- w.c.ledger.events :: EventRefusals(e, RefusedIn(w.refusals, e.num), w.c.modelCalls))
  }

  lemma {:induction false} RefusedInSnoc(log: seq<Refusal>, r: Refusal, n: nat)
    ensures RefusedIn(log + [r], n)
            == RefusedIn(log, n) + (if r.verdict.Unanswered? && n in r.verdict.ignored then {r.call} else {})
  {
  }

  lemma {:induction false} RefusedInBounded(w: World, n: nat)
    requires RefusalsOk(w)
    ensures forall c <- RefusedIn(w.refusals, n) :: c <= w.c.modelCalls
  {
  }

  lemma {:induction false} GateOneRefusals(e: Event, ack: set<nat>, call: nat, refused: set<nat>)
    requires EventRefusals(e, refused, call)
    ensures var g := GateOne(e, ack, call);
            && (Open(g, ack) ==> EventRefusals(g, refused + {call}, call) && |refused + {call}| <= MAX_GATE_REFUSALS)
            && (!Open(g, ack) ==> EventRefusals(g, refused, call))
  {
  }

  lemma {:induction false} DecideRefusals(e: Event, refused: set<nat>, call: nat, nums: seq<nat>, d: Decision, reply: string)
    requires EventRefusals(e, refused, call)
    ensures EventRefusals(DecideOne(e, nums, d, reply), refused, call)
  {
  }

  lemma {:induction false} PresentRefusals(e: Event, refused: set<nat>, call: nat, nums: seq<nat>, anchor: nat)
    requires EventOk(e) && EventRefusals(e, refused, call) && forall c <- refused :: c <= call
    ensures EventRefusals(PresentOne(e, nums, anchor), refused, call + 1)
  {
  }

  lemma {:induction false} CompletedRefusals(w: World, w': World)
    requires RefusalsOk(w) && Completes(w, w') && (forall e <- w.c.ledger.events :: EventOk(e))
    requires w'.refusals == w.refusals && w'.c.modelCalls == w.c.modelCalls + 1
    ensures RefusalsOk(w')
  {
    var s, r, staged := w.c.ledger.events, w'.c.ledger.events, w.c.staged.value;
    forall e | e in r ensures EventRefusals(e, RefusedIn(w.refusals, e.num), w'.c.modelCalls) {
      var i :| 0 <= i < |r| && r[i] == e;
      assert s[i] in s;
      RefusedInBounded(w, e.num);
      PresentRefusals(s[i], RefusedIn(w.refusals, e.num), w.c.modelCalls, staged.nums, staged.anchor);
    }
  }

  lemma {:induction false} AllEventOk(s: seq<Event>, revision: nat)
    requires EventsOk(s, revision)
    ensures forall e <- s :: EventOk(e)
  {
  }

  lemma {:induction false} CallDoneRefusals(w: World, response: seq<seq<nat>>)
    requires LedgerOk(w) && RefusalsOk(w) && Enabled(w, CallDone(response))
    ensures RefusalsOk(Apply(w, CallDone(response)))
  {
    AllEventOk(w.c.ledger.events, w.c.ledger.revision);
    CallCompletes(w, response);
    CompletedRefusals(w, Apply(w, CallDone(response)));
  }

  lemma {:induction false} ArriveRefusals(w: World, m: Message)
    requires LedgerOk(w) && RefusalsOk(w)
    ensures RefusalsOk(Apply(w, Arrive(m)))
  {
    ArriveEvents(w.c.ledger, m);
  }

  lemma {:induction false} DecideStepRefusals(w: World, ids: seq<nat>, choice: Option<Decision>, reply: string)
    requires RefusalsOk(w)
    ensures RefusalsOk(Apply(w, Decide(ids, choice, reply)))
  {
    var c' := Respond(w.c, ids, choice, reply);
    if choice.Some? && c' != w.c {
      var s, r := w.c.ledger.events, c'.ledger.events;
      var targets := if ids == [] then DefaultTargets(s, choice.value) else ids;
      forall e | e in r ensures EventRefusals(e, RefusedIn(w.refusals, e.num), w.c.modelCalls) {
        var i :| 0 <= i < |r| && r[i] == e;
        assert s[i] in s;
        DecideRefusals(s[i], RefusedIn(w.refusals, e.num), w.c.modelCalls, targets, choice.value, Strip(reply));
      }
    }
  }

  /** The log after a gate pass over `s` that counts refusals. */
  function CountedLog(s: seq<Event>, ack: set<nat>, call: nat, log: seq<Refusal>): seq<Refusal> {
    var ignored := StillOpen(GateAll(s, ack, call), ack);
    if ignored == [] then log else log + [Refusal(call, Unanswered(ignored))]
  }

  predicate OneNumberEach(s: seq<Event>) { forall a, b | 0 <= a < b < |s| :: s[a].num != s[b].num }

  lemma {:induction false} NumberedOnce(s: seq<Event>, revision: nat)
    requires EventsOk(s, revision)
    ensures OneNumberEach(s)
  {
  }

  lemma {:induction false} RefusedAfter(s: seq<Event>, i: nat, ack: set<nat>, call: nat, log: seq<Refusal>)
    requires OneNumberEach(s) && i < |s|
    ensures RefusedIn(CountedLog(s, ack, call, log), s[i].num)
            == if Open(GateOne(s[i], ack, call), ack) then RefusedIn(log, s[i].num) + {call} else RefusedIn(log, s[i].num)
  {
    var r, n := GateAll(s, ack, call), s[i].num;
    assert OneNumberEach(r);
    OpenIffNamed(r, i, ack);
    var ignored := StillOpen(r, ack);
    if ignored != [] {
      RefusedInSnoc(log, Refusal(call, Unanswered(ignored)), n);
      assert RefusedIn(log, n) + {} == RefusedIn(log, n);
    }
  }

  lemma {:induction false} CountedOne(s: seq<Event>, i: nat, ack: set<nat>, call: nat, log: seq<Refusal>)
    requires OneNumberEach(s) && i < |s|
    requires EventRefusals(s[i], RefusedIn(log, s[i].num), call) && |RefusedIn(log, s[i].num)| <= MAX_GATE_REFUSALS
    ensures EventRefusals(GateAll(s, ack, call)[i], RefusedIn(CountedLog(s, ack, call, log), s[i].num), call)
    ensures |RefusedIn(CountedLog(s, ack, call, log), s[i].num)| <= MAX_GATE_REFUSALS
  {
    RefusedAfter(s, i, ack, call, log);
    GateOneRefusals(s[i], ack, call, RefusedIn(log, s[i].num));
  }

  lemma {:induction false} CountedOther(s: seq<Event>, n: nat, ack: set<nat>, call: nat, log: seq<Refusal>)
    requires forall e <- s :: e.num != n
    ensures RefusedIn(CountedLog(s, ack, call, log), n) == RefusedIn(log, n)
  {
    var r := GateAll(s, ack, call);
    var ignored := StillOpen(r, ack);
    StillOpenMembers(r, ack);
    forall m | m in ignored ensures exists e <- s :: e.num == m {
      var x :| x in r && x.num == m && Open(x, ack);
      var i :| 0 <= i < |r| && r[i] == x;
      assert s[i] in s;
    }
    if ignored != [] {
      RefusedInSnoc(log, Refusal(call, Unanswered(ignored)), n);
    }
  }

  /** No count passes the cap, whichever number is asked about. */
  lemma {:induction false} CountedAny(w: World, n: nat)
    requires LedgerOk(w) && RefusalsOk(w)
    ensures var log := CountedLog(w.c.ledger.events, w.c.batchAck, w.c.modelCalls, w.refusals);
            && |RefusedIn(log, n)| <= MAX_GATE_REFUSALS
            && (n > w.c.ledger.revision ==> RefusedIn(log, n) == {})
  {
    var s := w.c.ledger.events;
    if e :| e in s && e.num == n {
      var i :| 0 <= i < |s| && s[i] == e;
      NumberedOnce(s, w.c.ledger.revision);
      CountedOne(s, i, w.c.batchAck, w.c.modelCalls, w.refusals);
    } else {
      CountedOther(s, n, w.c.batchAck, w.c.modelCalls, w.refusals);
    }
  }

  lemma {:induction false} CountedEvents(s: seq<Event>, ack: set<nat>, call: nat, log: seq<Refusal>)
    requires OneNumberEach(s)
    requires forall e <- s :: EventRefusals(e, RefusedIn(log, e.num), call) && |RefusedIn(log, e.num)| <= MAX_GATE_REFUSALS
    ensures forall e <- GateAll(s, ack, call) :: EventRefusals(e, RefusedIn(CountedLog(s, ack, call, log), e.num), call)
  {
    var r := GateAll(s, ack, call);
    forall e | e in r ensures EventRefusals(e, RefusedIn(CountedLog(s, ack, call, log), e.num), call) {
      var i :| 0 <= i < |r| && r[i] == e;
      assert s[i] in s;
      CountedOne(s, i, ack, call, log);
    }
  }

  lemma {:induction false} CountedRefusals(w: World, log: seq<Refusal>, w': World)
    requires LedgerOk(w) && RefusalsOk(w)
    requires log == CountedLog(w.c.ledger.events, w.c.batchAck, w.c.modelCalls, w.refusals)
    requires w'.refusals == log && w'.c.modelCalls == w.c.modelCalls && w'.c.ledger.revision == w.c.ledger.revision
    requires w'.c.ledger.events == GateAll(w.c.ledger.events, w.c.batchAck, w.c.modelCalls)
    ensures RefusalsOk(w')
  {
    NumberedOnce(w.c.ledger.events, w.c.ledger.revision);
    CountedEvents(w.c.ledger.events, w.c.batchAck, w.c.modelCalls, w.refusals);
    forall n: nat ensures |RefusedIn(log, n)| <= MAX_GATE_REFUSALS
                  ensures n > w.c.ledger.revision ==> RefusedIn(log, n) == {} {
      CountedAny(w, n);
    }
  }

  lemma {:induction false} OtherRefusal(w: World, w': World, v: Verdict)
    requires RefusalsOk(w) && !v.Unanswered?
    requires w'.refusals == w.refusals + [Refusal(w.c.modelCalls, v)] && w'.c.modelCalls == w.c.modelCalls
    requires w'.c.ledger == w.c.ledger
    ensures RefusalsOk(w')
  {
    forall n: nat ensures RefusedIn(w'.refusals, n) == RefusedIn(w.refusals, n) {
      RefusedInSnoc(w.refusals, Refusal(w.c.modelCalls, v), n);
    }
  }

  lemma {:induction false} GatedRefusals(w: World)
    requires LedgerOk(w) && RefusalsOk(w) && Enabled(w, GatedCall)
    ensures RefusalsOk(Apply(w, GatedCall))
  {
    var w', v := Apply(w, GatedCall), Gate(w.c).1;
    GateIs(w.c);
    if v.AwaitingAnswer? || v.UnseenInput? {
      OtherRefusal(w, w', v);
    } else {
      CountedRefusals(w, w'.refusals, w');
    }
  }

  lemma {:induction false} StepRefusals(w: World, s: Step)
    requires LedgerOk(w) && RefusalsOk(w) && Enabled(w, s)
    ensures RefusalsOk(Apply(w, s))
  {
    match s
    case Arrive(m) => ArriveRefusals(w, m);
    case CallDone(response) => CallDoneRefusals(w, response);
    case Decide(ids, choice, reply) => DecideStepRefusals(w, ids, choice, reply);
    case GatedCall => GatedRefusals(w);
    case _ =>
  }

  lemma {:induction false} OpenIffNamed(events: seq<Event>, i: nat, ack: set<nat>)
    requires i < |events| && (forall a, b | 0 <= a < b < |events| :: events[a].num != events[b].num)
    ensures events[i].num in StillOpen(events, ack) <==> Open(events[i], ack)
  {
    StillOpenMembers(events, ack);
    assert events[i] in events;
    if events[i].num in StillOpen(events, ack) {
      var x :| x in events && x.num == events[i].num && Open(x, ack);
      var j :| 0 <= j < |events| && events[j] == x;
    }
  }
}
