/** Once messages stop arriving, refusals end: each refused response uses up part of a finite rank. */
module RefusalsEnd {
  import opened Sequences
  import opened ThreadInbox
  import opened LedgerInvariant
  import opened Conversation
  import opened ConversationRuns
  import opened GateSafety

  /** The responses refused so far. */
  function RefusedResponses(log: seq<Refusal>): set<nat> { set r <- log :: r.call }

  /** How many more responses this event can still hold back. */
  function RankOf(e: Event): nat {
    if !Pending(e) then 0
    else if e.stage.Received? then MAX_GATE_REFUSALS + 2
    else if e.gateRefusals <= MAX_GATE_REFUSALS then MAX_GATE_REFUSALS + 1 - e.gateRefusals
    else 0
  }

  function Rank(events: seq<Event>): nat { Sum(RankOf, events) }

  /** The current response was refused over unseen input, which the next completed call will show. */
  predicate Owed(w: World) {
    exists r <- w.refusals :: r.call == w.c.modelCalls && r.verdict.UnseenInput?
  }

  predicate OwedOk(w: World) {
    Owed(w) ==> exists e <- w.c.ledger.events :: e.stage.Received? && (w.inFlight.Some? ==> e.num <= w.bound)
  }

  /** No arrivals, and no blocking question being waited for when the gate is asked. */
  predicate QuietStep(w: World, s: Step) {
    !s.Arrive? && (s.GatedCall? ==> !Waiting(w.c.ledger))
  }

  lemma {:induction false} SumLess(s: seq<Event>, r: seq<Event>)
    requires |r| == |s| && forall i | 0 <= i < |s| :: RankOf(r[i]) <= RankOf(s[i])
    ensures Rank(r) <= Rank(s)
    ensures (exists i | 0 <= i < |s| :: RankOf(r[i]) < RankOf(s[i])) ==> Rank(r) < Rank(s)
    decreases |s|
  {
    if s != [] {
      var n := |s| - 1;
      SumLess(s[..n], r[..n]);
      if k :| 0 <= k < |s| && RankOf(r[k]) < RankOf(s[k]) {
        assert k < n ==> RankOf(r[..n][k]) < RankOf(s[..n][k]);
      }
    }
  }

  lemma {:induction false} RankBound(events: seq<Event>)
    ensures Rank(events) <= (MAX_GATE_REFUSALS + 2) * |Unaddressed(events)|
    decreases |events|
  {
    if events != [] {
      RankBound(events[..|events|-1]);
    }
  }

  /** What a step may cost: refused responses paid for by rank, one of which may still be owed. */
  predicate Paid(w: World, w': World) {
    |RefusedResponses(w'.refusals)| + Rank(w'.c.ledger.events) + (if Owed(w) then 1 else 0)
    <= |RefusedResponses(w.refusals)| + Rank(w.c.ledger.events) + (if Owed(w') then 1 else 0)
  }

  lemma {:induction false} RefusedSnoc(log: seq<Refusal>, r: Refusal)
    ensures RefusedResponses(log + [r]) == RefusedResponses(log) + {r.call}
    ensures |RefusedResponses(log + [r])| == |RefusedResponses(log)| + (if r.call in RefusedResponses(log) then 0 else 1)
  {
  }

  lemma {:induction false} GateOneRank(e: Event, ack: set<nat>, call: nat)
    requires EventOk(e)
    ensures RankOf(GateOne(e, ack, call)) <= RankOf(e)
    ensures Open(GateOne(e, ack, call), ack) && e.lastRefusedCall != Some(call)
            ==> RankOf(GateOne(e, ack, call)) < RankOf(e)
  {
  }

  /** A counted refusal of a response not refused before lowers the rank. */
  lemma {:induction false} CountedRank(s: seq<Event>, ack: set<nat>, call: nat, log: seq<Refusal>, revision: nat)
    requires EventsOk(s, revision)
    requires forall e <- s :: EventRefusals(e, RefusedIn(log, e.num), call)
    ensures Rank(GateAll(s, ack, call)) <= Rank(s)
    ensures StillOpen(GateAll(s, ack, call), ack) != [] && call !in RefusedResponses(log)
            ==> Rank(GateAll(s, ack, call)) < Rank(s)
  {
    var r := GateAll(s, ack, call);
    forall i | 0 <= i < |s| ensures RankOf(r[i]) <= RankOf(s[i]) {
      GateOneRank(s[i], ack, call);
    }
    SumLess(s, r);
    var ignored := StillOpen(r, ack);
    if ignored != [] && call !in RefusedResponses(log) {
      StillOpenMembers(r, ack);
      assert ignored[0] in ignored;
      var x :| x in r && x.num == ignored[0] && Open(x, ack);
      var i :| 0 <= i < |r| && r[i] == x;
      assert s[i] in s && call !in RefusedIn(log, s[i].num);
      GateOneRank(s[i], ack, call);
    }
  }

  // ---- what is owed ---------------------------------------------------------------------------

  lemma {:induction false} OwedNext(w: World, w': World)
    requires RefusalsOk(w) && w'.refusals == w.refusals && w'.c.modelCalls == w.c.modelCalls + 1
    ensures !Owed(w')
  {
  }

  lemma {:induction false} SameFaceOwed(w: World, w': World)
    requires OwedOk(w) && SameLog(w, w') && (Owed(w') ==> Owed(w))
    ensures OwedOk(w')
  {
  }

  lemma {:induction false} ArriveKeepsUnseen(l: Ledger, m: Message, e: Event)
    requires e in l.events && e.stage.Received?
    ensures e in Deliver(l, m).0.events
  {
    ArriveEvents(l, m);
    if Deliver(l, m).1.Accepted? {
      var s := l.events + [Arriving(l, m)];
      DropResolvedMembers(s, |l.events| + 1 - MAX_RETAINED_EVENTS);
      assert e in s;
    }
  }

  lemma {:induction false} ArriveOwed(w: World, m: Message)
    requires OwedOk(w)
    ensures OwedOk(Apply(w, Arrive(m)))
  {
    if Owed(w) {
      var e :| e in w.c.ledger.events && e.stage.Received? && (w.inFlight.Some? ==> e.num <= w.bound);
      ArriveKeepsUnseen(w.c.ledger, m, e);
    }
  }

  lemma {:induction false} UnseenOwed(w: World)
    requires Enabled(w, GatedCall) && Gate(w.c).1.UnseenInput?
    ensures OwedOk(Apply(w, GatedCall)) && Owed(Apply(w, GatedCall))
  {
    var unseen := Filter(IsReceived, Unaddressed(w.c.ledger.events));
    assert unseen[0] in unseen;
    var w' := Apply(w, GatedCall);
    assert w'.refusals[|w.refusals|] in w'.refusals;
  }

  /** Other verdicts owe nothing new. */
  lemma {:induction false} GatedOwed(w: World)
    requires Enabled(w, GatedCall) && !Gate(w.c).1.UnseenInput?
    ensures Owed(Apply(w, GatedCall)) <==> Owed(w)
  {
  }

  lemma {:induction false} StepOwed(w: World, s: Step)
    requires LedgerOk(w) && RefusalsOk(w) && OwedOk(w) && Enabled(w, s)
    ensures OwedOk(Apply(w, s))
  {
    match s
    case Arrive(m) => ArriveOwed(w, m);
    case CallOut(items) =>
      if Owed(w) {
        var e :| e in w.c.ledger.events && e.stage.Received?;
        var i :| 0 <= i < |w.c.ledger.events| && w.c.ledger.events[i] == e;
      }
    case CallDone(response) => OwedNext(w, Apply(w, s));
    case GatedCall =>
      if Gate(w.c).1.UnseenInput? {
        UnseenOwed(w);
      } else {
        GatedOwed(w);
        RecordsOnlyKeeps(w, s);
        SameFaceOwed(w, Apply(w, s));
      }
    case _ =>
      RecordsOnlyKeeps(w, s);
      SameFaceOwed(w, Apply(w, s));
  }

  // ---- each quiet step is paid for ------------------------------------------------------------

  lemma {:induction false} UnseenPaid(w: World)
    requires Enabled(w, GatedCall) && Gate(w.c).1.UnseenInput?
    ensures Paid(w, Apply(w, GatedCall))
  {
    GateIs(w.c);
    UnseenOwed(w);
    RefusedSnoc(w.refusals, Refusal(w.c.modelCalls, Gate(w.c).1));
  }

  lemma {:induction false} CountedPaid(w: World)
    requires LedgerOk(w) && RefusalsOk(w) && Enabled(w, GatedCall)
    requires Gate(w.c).1.Unanswered? || Gate(w.c).1.Allowed?
    ensures Paid(w, Apply(w, GatedCall))
  {
    GateIs(w.c);
    GatedOwed(w);
    CountedRank(w.c.ledger.events, w.c.batchAck, w.c.modelCalls, w.refusals, w.c.ledger.revision);
    RefusedSnoc(w.refusals, Refusal(w.c.modelCalls, Gate(w.c).1));
  }

  lemma {:induction false} GatedPaid(w: World)
    requires LedgerOk(w) && RefusalsOk(w) && Enabled(w, GatedCall) && !Waiting(w.c.ledger)
    ensures Paid(w, Apply(w, GatedCall))
  {
    GateIs(w.c);
    if Gate(w.c).1.UnseenInput? {
      UnseenPaid(w);
    } else {
      CountedPaid(w);
    }
  }

  lemma {:induction false} PresentRank(s: seq<Event>, nums: seq<nat>, anchor: nat)
    requires forall e <- s :: EventOk(e)
    ensures Rank(PresentAll(s, nums, anchor)) <= Rank(s)
    ensures (exists e <- s :: e.stage.Received? && e.num in nums) ==> Rank(PresentAll(s, nums, anchor)) < Rank(s)
  {
    var r := PresentAll(s, nums, anchor);
    forall i | 0 <= i < |s| ensures RankOf(r[i]) <= RankOf(s[i]) {
      assert s[i] in s;
    }
    SumLess(s, r);
    if e :| e in s && e.stage.Received? && e.num in nums {
      var i :| 0 <= i < |s| && s[i] == e;
      assert RankOf(r[i]) < RankOf(s[i]);
    }
  }

  lemma {:induction false} CallDonePaid(w: World, response: seq<seq<nat>>)
    requires LedgerOk(w) && RefusalsOk(w) && OwedOk(w) && Enabled(w, CallDone(response))
    ensures Paid(w, Apply(w, CallDone(response)))
  {
    var s, staged := w.c.ledger.events, w.c.staged.value;
    PresentRank(s, staged.nums, staged.anchor);
    OwedNext(w, Apply(w, CallDone(response)));
  }

  lemma {:induction false} DecidePaid(w: World, ids: seq<nat>, choice: Option<Decision>, reply: string)
    ensures Paid(w, Apply(w, Decide(ids, choice, reply)))
  {
    var s, r := w.c.ledger.events, Respond(w.c, ids, choice, reply).ledger.events;
    SumLess(s, r);
  }

  lemma {:induction false} StepPaid(w: World, s: Step)
    requires LedgerOk(w) && RefusalsOk(w) && OwedOk(w) && Enabled(w, s) && QuietStep(w, s)
    ensures Paid(w, Apply(w, s))
  {
    match s
    case Arrive(m) => assert false;
    case CallDone(response) => CallDonePaid(w, response);
    case Decide(ids, choice, reply) => DecidePaid(w, ids, choice, reply);
    case GatedCall => GatedPaid(w);
    case _ =>
  }

  // ---- quiet runs ---------------------------------------------------------------------------------

  predicate QuietRun(w: World, steps: seq<Step>)
    requires ValidRun(w, steps)
    decreases |steps|
  {
    steps == [] || (QuietStep(w, steps[0]) && QuietRun(Apply(w, steps[0]), steps[1..]))
  }

  ghost predicate GateOk(w: World) { LedgerOk(w) && RefusalsOk(w) && OwedOk(w) }

  lemma {:induction false} StepGateOk(w: World, s: Step)
    requires GateOk(w) && Enabled(w, s)
    ensures GateOk(Apply(w, s))
  {
    StepLedgerOk(w, s);
    StepRefusals(w, s);
    StepOwed(w, s);
  }

  lemma {:induction false} QuietPaid(w: World, steps: seq<Step>)
    requires GateOk(w) && ValidRun(w, steps) && QuietRun(w, steps)
    ensures GateOk(Run(w, steps)) && Paid(w, Run(w, steps))
    decreases |steps|
  {
    if steps != [] {
      StepGateOk(w, steps[0]);
      StepPaid(w, steps[0]);
      QuietPaid(Apply(w, steps[0]), steps[1..]);
    }
  }

  /** What is owed is covered by an unseen message's rank. */
  lemma {:induction false} ReceivedRank(events: seq<Event>, i: nat)
    requires i < |events| && events[i].stage.Received? && EventOk(events[i])
    ensures Rank(events) >= 1
    decreases |events|
  {
    if i < |events| - 1 {
      ReceivedRank(events[..|events|-1], i);
    }
  }

  /** Over any quiet run the refused responses are bounded by four for each message still unanswered. */
  lemma {:induction false} QuietRefusalsBounded(w: World, steps: seq<Step>)
    requires GateOk(w) && ValidRun(w, steps) && QuietRun(w, steps)
    ensures |RefusedResponses(Run(w, steps).refusals)|
            <= |RefusedResponses(w.refusals)| + 4 * |Unaddressed(w.c.ledger.events)|
  {
    QuietPaid(w, steps);
    RankBound(w.c.ledger.events);
    var w' := Run(w, steps);
    if Owed(w') {
      var e :| e in w'.c.ledger.events && e.stage.Received?;
      var i :| 0 <= i < |w'.c.ledger.events| && w'.c.ledger.events[i] == e;
      ReceivedRank(w'.c.ledger.events, i);
    }
  }

  // ---- a model that never answers --------------------------------------------------------------------

  function HeightOf(e: Event): nat {
    if !Pending(e) then 0
    else if e.stage.Received? then MAX_GATE_REFUSALS + 1
    else if e.gateRefusals <= MAX_GATE_REFUSALS then MAX_GATE_REFUSALS - e.gateRefusals
    else 0
  }

  predicate AtMost(events: seq<Event>, h: nat) { forall e <- events :: HeightOf(e) <= h }

  /** Nothing is recorded and no response acknowledges anything. */
  predicate SilentStep(w: World, s: Step) {
    QuietStep(w, s) && !s.Decide? && (s.CallDone? ==> s.response == [])
  }

  predicate SilentRun(w: World, steps: seq<Step>)
    requires ValidRun(w, steps)
    decreases |steps|
  {
    steps == [] || (SilentStep(w, steps[0]) && SilentRun(Apply(w, steps[0]), steps[1..]))
  }

  /** A call in flight shows everything there is: nothing arrived after it went out. */
  predicate AllStaged(w: World) {
    w.inFlight.Some? ==> forall e <- w.c.ledger.events :: e.stage.Received? ==> e.num <= w.bound
  }

  function OwedCount(w: World): nat { if Owed(w) then 1 else 0 }

  /** The refused responses and the height that is left, less what is owed. */
  predicate Within(w: World, h: nat, total: nat) {
    && AtMost(w.c.ledger.events, h)
    && |RefusedResponses(w.refusals)| + h <= total + OwedCount(w)
  }

  lemma {:induction false} GateOneHeight(e: Event, ack: set<nat>, call: nat, h: nat)
    requires EventOk(e) && HeightOf(e) <= h
    ensures HeightOf(GateOne(e, ack, call)) <= h
  {
  }

  /** An open message that the response has not been refused over yet. */
  predicate Uncounted(e: Event, call: nat) {
    e.stage.Presented? && !e.outcome.Unacknowledged? ==> e.lastRefusedCall != Some(call)
  }

  lemma {:induction false} AllUncounted(s: seq<Event>, call: nat, log: seq<Refusal>)
    requires forall e <- s :: EventRefusals(e, RefusedIn(log, e.num), call)
    requires call !in RefusedResponses(log)
    ensures forall e <- s :: Uncounted(e, call)
  {
  }

  lemma {:induction false} GateOneLower(e: Event, call: nat, h: nat)
    requires EventOk(e) && HeightOf(e) <= h && !e.stage.Received? && Uncounted(e, call)
    ensures h >= 1 ==> HeightOf(GateOne(e, {}, call)) <= h - 1
    ensures Open(GateOne(e, {}, call), {}) ==> h >= 1
  {
  }

  lemma {:induction false} CountedHeight(s: seq<Event>, ack: set<nat>, call: nat, h: nat)
    requires AtMost(s, h) && forall e <- s :: EventOk(e)
    ensures AtMost(GateAll(s, ack, call), h)
  {
    var r := GateAll(s, ack, call);
    forall e | e in r ensures HeightOf(e) <= h {
      var i :| 0 <= i < |r| && r[i] == e;
      assert s[i] in s;
      GateOneHeight(s[i], ack, call, h);
    }
  }

  lemma {:induction false} CountedLower(s: seq<Event>, call: nat, h: nat)
    requires AtMost(s, h) && forall e <- s :: EventOk(e) && !e.stage.Received? && Uncounted(e, call)
    requires StillOpen(GateAll(s, {}, call), {}) != []
    ensures h >= 1 && AtMost(GateAll(s, {}, call), h - 1)
  {
    var r := GateAll(s, {}, call);
    StillOpenMembers(r, {});
    var n := StillOpen(r, {})[0];
    assert n in StillOpen(r, {});
    var x :| x in r && x.num == n && Open(x, {});
    var k :| 0 <= k < |r| && r[k] == x;
    assert s[k] in s;
    GateOneLower(s[k], call, h);
    forall e | e in r ensures HeightOf(e) <= h - 1 {
      var i :| 0 <= i < |r| && r[i] == e;
      assert s[i] in s;
      GateOneLower(s[i], call, h);
    }
  }

  lemma {:induction false} UnseenSilent(w: World, h: nat, total: nat)
    requires Enabled(w, GatedCall) && Gate(w.c).1.UnseenInput? && Within(w, h, total)
    requires Owed(w) ==> w.c.modelCalls in RefusedResponses(w.refusals)
    ensures Within(Apply(w, GatedCall), h, total)
  {
    GateIs(w.c);
    UnseenOwed(w);
    RefusedSnoc(w.refusals, Refusal(w.c.modelCalls, Gate(w.c).1));
  }

  lemma {:induction false} CountedSilent(w: World, h: nat, total: nat) returns (h': nat)
    requires GateOk(w) && w.c.batchAck == {} && Enabled(w, GatedCall) && Within(w, h, total)
    requires Gate(w.c).1.Unanswered? || Gate(w.c).1.Allowed?
    ensures Within(Apply(w, GatedCall), h', total)
  {
    var call, s := w.c.modelCalls, w.c.ledger.events;
    GateIs(w.c);
    GatedOwed(w);
    AllEventOk(s, w.c.ledger.revision);
    CountedHeight(s, {}, call, h);
    RefusedSnoc(w.refusals, Refusal(call, Gate(w.c).1));
    h' := h;
    if Gate(w.c).1.Unanswered? && call !in RefusedResponses(w.refusals) {
      NothingUnseen(w.c);
      AllUncounted(s, call, w.refusals);
      CountedLower(s, call, h);
      h' := h - 1;
    }
  }

  lemma {:induction false} OwedCounts(w: World)
    ensures Owed(w) ==> w.c.modelCalls in RefusedResponses(w.refusals)
  {
  }

  lemma {:induction false} GatedSilent(w: World, h: nat, total: nat) returns (h': nat)
    requires GateOk(w) && w.c.batchAck == {} && Enabled(w, GatedCall) && !Waiting(w.c.ledger)
    requires Within(w, h, total)
    ensures Within(Apply(w, GatedCall), h', total)
  {
    GateIs(w.c);
    if Gate(w.c).1.UnseenInput? {
      OwedCounts(w);
      UnseenSilent(w, h, total);
      h' := h;
    } else {
      h' := CountedSilent(w, h, total);
    }
  }

  lemma {:induction false} CallDoneSilent(w: World, h: nat, total: nat) returns (h': nat)
    requires GateOk(w) && AllStaged(w) && Enabled(w, CallDone([])) && Within(w, h, total)
    ensures Within(Apply(w, CallDone([])), h', total)
  {
    var w', s := Apply(w, CallDone([])), w.c.ledger.events;
    OwedNext(w, w');
    h' := if h > MAX_GATE_REFUSALS then MAX_GATE_REFUSALS else h;
    PresentHeight(s, w.c.staged.value.nums, w.c.staged.value.anchor, h);
    if Owed(w) {
      var e :| e in s && e.stage.Received?;
      UnseenHeight(s, e, w.c.ledger.revision);
    }
  }

  lemma {:induction false} UnseenHeight(s: seq<Event>, e: Event, revision: nat)
    requires EventsOk(s, revision) && e in s && e.stage.Received?
    ensures HeightOf(e) == MAX_GATE_REFUSALS + 1
  {
    var i :| 0 <= i < |s| && s[i] == e;
  }

  lemma {:induction false} PresentHeight(s: seq<Event>, nums: seq<nat>, anchor: nat, h: nat)
    requires AtMost(s, h) && forall e <- s :: e.stage.Received? ==> e.num in nums
    ensures AtMost(PresentAll(s, nums, anchor), if h > MAX_GATE_REFUSALS then MAX_GATE_REFUSALS else h)
  {
    var r := PresentAll(s, nums, anchor);
    forall e | e in r ensures HeightOf(e) <= h && HeightOf(e) <= MAX_GATE_REFUSALS {
      var i :| 0 <= i < |r| && r[i] == e;
      assert s[i] in s;
    }
  }

  lemma {:induction false} SilentStepWithin(w: World, s: Step, h: nat, total: nat) returns (h': nat)
    requires GateOk(w) && AllStaged(w) && w.c.batchAck == {} && Enabled(w, s) && SilentStep(w, s)
    requires Within(w, h, total)
    ensures Within(Apply(w, s), h', total)
    ensures AllStaged(Apply(w, s)) && Apply(w, s).c.batchAck == {}
  {
    h' := h;
    match s
    case CallDone(response) => h' := CallDoneSilent(w, h, total);
    case GatedCall => h' := GatedSilent(w, h, total); GatedAllStaged(w);
    case CallOut(items) => CallOutStaged(w, items);
    case _ =>
  }

  lemma {:induction false} CallOutStaged(w: World, items: seq<Item>)
    requires GateOk(w) && Enabled(w, CallOut(items))
    ensures AllStaged(Apply(w, CallOut(items)))
  {
  }

  lemma {:induction false} GatedAllStaged(w: World)
    requires Enabled(w, GatedCall)
    ensures AllStaged(Apply(w, GatedCall)) && Apply(w, GatedCall).c.batchAck == w.c.batchAck
  {
  }

  lemma {:induction false} SilentWithin(w: World, steps: seq<Step>, h: nat, total: nat)
    requires GateOk(w) && AllStaged(w) && w.c.batchAck == {} && Within(w, h, total)
    requires ValidRun(w, steps) && SilentRun(w, steps)
    ensures |RefusedResponses(Run(w, steps).refusals)| <= total + OwedCount(Run(w, steps))
    ensures Owed(Run(w, steps)) ==> |RefusedResponses(Run(w, steps).refusals)| < total
    decreases |steps|
  {
    if steps == [] {
      if Owed(w) {
        var e :| e in w.c.ledger.events && e.stage.Received?;
        var i :| 0 <= i < |w.c.ledger.events| && w.c.ledger.events[i] == e;
        assert HeightOf(e) == MAX_GATE_REFUSALS + 1;
      }
    } else {
      StepGateOk(w, steps[0]);
      var h' := SilentStepWithin(w, steps[0], h, total);
      SilentWithin(Apply(w, steps[0]), steps[1..], h', total);
    }
  }

  /** The current response may still be refused, once. */
  function Current(w: World): nat { if w.c.modelCalls in RefusedResponses(w.refusals) then 0 else 1 }

  lemma {:induction false} CallDoneLow(w: World)
    requires GateOk(w) && AllStaged(w) && Enabled(w, CallDone([]))
    ensures var w' := Apply(w, CallDone([]));
            Within(w', MAX_GATE_REFUSALS, |RefusedResponses(w.refusals)| + MAX_GATE_REFUSALS) && w'.c.batchAck == {} && !Owed(w')
  {
    OwedNext(w, Apply(w, CallDone([])));
    PresentHeight(w.c.ledger.events, w.c.staged.value.nums, w.c.staged.value.anchor, MAX_GATE_REFUSALS + 1);
  }

  /** A silent step during a call, which no gated action can be, and which is neither of the call's ends. */
  lemma {:induction false} FlyingStep(w: World, s: Step)
    requires GateOk(w) && w.inFlight.Some? && Enabled(w, s) && SilentStep(w, s) && !s.CallDone?
    ensures var w' := Apply(w, s);
            w'.inFlight.Some? && w'.refusals == w.refusals && (AllStaged(w) || s.CallOut? ==> AllStaged(w'))
  {
    if s.CallOut? {
      CallOutStaged(w, s.items);
    }
  }

  lemma {:induction false} FlyingSeen(w: World, steps: seq<Step>)
    requires GateOk(w) && w.inFlight.Some? && AllStaged(w) && ValidRun(w, steps) && SilentRun(w, steps)
    ensures |RefusedResponses(Run(w, steps).refusals)| <= |RefusedResponses(w.refusals)| + 2
    decreases |steps|
  {
    if steps != [] {
      var w' := Apply(w, steps[0]);
      StepGateOk(w, steps[0]);
      if steps[0].CallDone? {
        CallDoneLow(w);
        SilentWithin(w', steps[1..], MAX_GATE_REFUSALS, |RefusedResponses(w.refusals)| + MAX_GATE_REFUSALS);
      } else {
        FlyingStep(w, steps[0]);
        FlyingSeen(w', steps[1..]);
      }
    }
  }

  lemma {:induction false} Flying(w: World, steps: seq<Step>)
    requires GateOk(w) && w.inFlight.Some? && ValidRun(w, steps) && SilentRun(w, steps)
    ensures |RefusedResponses(Run(w, steps).refusals)| <= |RefusedResponses(w.refusals)| + 3
    decreases |steps|
  {
    if steps != [] {
      var w' := Apply(w, steps[0]);
      StepGateOk(w, steps[0]);
      if steps[0].CallDone? {
        AnyHeight(w'.c.ledger.events);
        SilentWithin(w', steps[1..], MAX_GATE_REFUSALS + 1, |RefusedResponses(w.refusals)| + MAX_GATE_REFUSALS + 1);
      } else {
        FlyingStep(w, steps[0]);
        Flying(w', steps[1..]);
      }
    }
  }

  lemma {:induction false} AnyHeight(events: seq<Event>)
    ensures AtMost(events, MAX_GATE_REFUSALS + 1)
  {
  }

  /** With no call in flight, a step leads to another response only by sending a call that shows everything. */
  lemma {:induction false} IdleStep(w: World, s: Step)
    requires GateOk(w) && w.inFlight.None? && Enabled(w, s) && SilentStep(w, s)
    ensures var w' := Apply(w, s);
            && (w'.inFlight.Some? ==> AllStaged(w'))
            && (if w'.inFlight.Some? then w'.refusals == w.refusals
                else |RefusedResponses(w'.refusals)| + Current(w') <= |RefusedResponses(w.refusals)| + Current(w))
  {
    match s
    case CallOut(items) => CallOutStaged(w, items);
    case GatedCall =>
      GateIs(w.c);
      RefusedSnoc(w.refusals, Refusal(w.c.modelCalls, Gate(w.c).1));
    case _ =>
  }

  lemma {:induction false} Grounded(w: World, steps: seq<Step>)
    requires GateOk(w) && w.inFlight.None? && ValidRun(w, steps) && SilentRun(w, steps)
    ensures |RefusedResponses(Run(w, steps).refusals)| <= |RefusedResponses(w.refusals)| + Current(w) + 2
    decreases |steps|
  {
    if steps != [] {
      var w' := Apply(w, steps[0]);
      StepGateOk(w, steps[0]);
      IdleStep(w, steps[0]);
      if w'.inFlight.Some? {
        FlyingSeen(w', steps[1..]);
      } else {
        Grounded(w', steps[1..]);
      }
    }
  }

  /** A model that never answers has at most three more responses refused, however many gated calls each makes. */
  lemma {:induction false} SilentRefusalsBounded(w: World, steps: seq<Step>)
    requires GateOk(w) && ValidRun(w, steps) && SilentRun(w, steps)
    ensures |RefusedResponses(Run(w, steps).refusals)| <= |RefusedResponses(w.refusals)| + 3
  {
    if w.inFlight.Some? {
      Flying(w, steps);
    } else {
      Grounded(w, steps);
    }
  }
}
