/** How many more responses can be refused once messages stop arriving: two for each message pending, and one more. */
module RefusalsBounded {
  import opened Sequences
  import opened ThreadInbox
  import opened LedgerInvariant
  import opened Conversation
  import opened ConversationRuns
  import opened GateSafety
  import opened RefusalsEnd

  /** The responses refused over unseen input. */
  function UnseenResponses(log: seq<Refusal>): set<nat> { set r <- log | r.verdict.UnseenInput? :: r.call }

  /** The responses refused over one of these messages. */
  function NamedResponses(log: seq<Refusal>, nums: set<nat>): set<nat> {
    set r <- log | r.verdict.Unanswered? && exists n <- nums :: n in r.verdict.ignored :: r.call
  }

  // ---- two for each message -------------------------------------------------------------------------------

  lemma {:induction false} NamedSize(log: seq<Refusal>, nums: set<nat>)
    requires forall n <- nums :: |RefusedIn(log, n)| <= 2
    ensures |NamedResponses(log, nums)| <= 2 * |nums|
    decreases |nums|
  {
    if nums != {} {
      var n :| n in nums;
      var rest := nums - {n};
      NamedSize(log, rest);
      assert nums == rest + {n};
      assert NamedResponses(log, nums) <= NamedResponses(log, rest) + RefusedIn(log, n);
      SubsetSize(NamedResponses(log, nums), NamedResponses(log, rest) + RefusedIn(log, n));
    } else {
      assert NamedResponses(log, nums) == {};
    }
  }

  /** Whatever is pending is among these messages. */
  predicate PendingIn(events: seq<Event>, nums: set<nat>) { forall e <- events :: Pending(e) ==> e.num in nums }

  /** The second events are the first with some attention paid. */
  predicate Calmer(s: seq<Event>, r: seq<Event>) {
    |r| == |s| && forall i | 0 <= i < |s| :: r[i].num == s[i].num && (Pending(r[i]) ==> Pending(s[i]))
  }

  lemma {:induction false} CalmerPending(s: seq<Event>, r: seq<Event>, nums: set<nat>)
    requires Calmer(s, r) && PendingIn(s, nums)
    ensures PendingIn(r, nums)
  {
    forall e | e in r && Pending(e) ensures e.num in nums {
      var i :| 0 <= i < |r| && r[i] == e;
      assert s[i] in s;
    }
  }

  lemma {:induction false} CalmerSelf(s: seq<Event>)
    ensures Calmer(s, s)
  {
  }

  lemma {:induction false} GateCalms(s: seq<Event>, ack: set<nat>, call: nat)
    ensures Calmer(s, GateAll(s, ack, call))
  {
  }

  lemma {:induction false} PresentCalms(s: seq<Event>, nums: seq<nat>, anchor: nat)
    ensures Calmer(s, PresentAll(s, nums, anchor))
  {
  }

  lemma {:induction false} RespondCalms(c: Conv, ids: seq<nat>, choice: Option<Decision>, reply: string)
    ensures Calmer(c.ledger.events, Respond(c, ids, choice, reply).ledger.events)
  {
  }

  lemma {:induction false} StepCalms(w: World, s: Step)
    requires LedgerOk(w) && Enabled(w, s) && !s.Arrive?
    ensures Calmer(w.c.ledger.events, Apply(w, s).c.ledger.events)
  {
    CalmerSelf(w.c.ledger.events);
    match s
    case CallDone(response) => PresentCalms(w.c.ledger.events, w.c.staged.value.nums, w.c.staged.value.anchor);
    case Decide(ids, choice, reply) => RespondCalms(w.c, ids, choice, reply);
    case GatedCall =>
      GateIs(w.c);
      GateCalms(w.c.ledger.events, w.c.batchAck, w.c.modelCalls);
    case CallOut(items) =>
    case _ => AskLedger(w.c.ledger, s);
  }

  /** A response newly refused is refused over unseen input or over a pending message. */
  predicate Explained(before: seq<Refusal>, after: seq<Refusal>, nums: set<nat>) {
    && before <= after
    && RefusedResponses(after) <= RefusedResponses(before) + UnseenResponses(after) + NamedResponses(after, nums)
  }

  lemma {:induction false} ExplainedOne(log: seq<Refusal>, r: Refusal, nums: set<nat>)
    requires r.verdict.UnseenInput? || (r.verdict.Unanswered? && exists n <- nums :: n in r.verdict.ignored)
    ensures Explained(log, log + [r], nums)
  {
    RefusedSnoc(log, r);
    assert r in log + [r];
  }

  lemma {:induction false} ExplainedOn(a: seq<Refusal>, b: seq<Refusal>, c: seq<Refusal>, nums: set<nat>)
    requires Explained(a, b, nums) && Explained(b, c, nums)
    ensures Explained(a, c, nums)
  {
    assert forall r <- b :: r in c;
    assert UnseenResponses(b) <= UnseenResponses(c) && NamedResponses(b, nums) <= NamedResponses(c, nums);
    PrefixTrans(a, b, c);
  }

  lemma {:induction false} NothingRefused(log: seq<Refusal>, nums: set<nat>)
    ensures Explained(log, log, nums)
  {
  }

  lemma {:induction false} OpenIsPending(events: seq<Event>, ack: set<nat>, nums: set<nat>)
    requires PendingIn(events, nums) && StillOpen(events, ack) != []
    ensures exists n <- nums :: n in StillOpen(events, ack)
  {
    StillOpenMembers(events, ack);
    var n := StillOpen(events, ack)[0];
    assert n in StillOpen(events, ack);
    var e :| e in events && e.num == n && Open(e, ack);
    assert n in nums;
  }

  lemma {:induction false} StepExplained(w: World, s: Step, nums: set<nat>)
    requires LedgerOk(w) && Enabled(w, s) && QuietStep(w, s) && PendingIn(w.c.ledger.events, nums)
    ensures Explained(w.refusals, Apply(w, s).refusals, nums)
  {
    if s.GatedCall? && !Gate(w.c).1.Allowed? {
      GateIs(w.c);
      if Gate(w.c).1.Unanswered? {
        StepCalms(w, s);
        CalmerPending(w.c.ledger.events, Apply(w, s).c.ledger.events, nums);
        OpenIsPending(Apply(w, s).c.ledger.events, w.c.batchAck, nums);
      }
      ExplainedOne(w.refusals, Refusal(Gate(w.c).0.modelCalls, Gate(w.c).1), nums);
    } else {
      NothingRefused(w.refusals, nums);
    }
  }

  lemma {:induction false} RunExplained(w: World, steps: seq<Step>, nums: set<nat>)
    requires LedgerOk(w) && ValidRun(w, steps) && QuietRun(w, steps) && PendingIn(w.c.ledger.events, nums)
    ensures Explained(w.refusals, Run(w, steps).refusals, nums)
    decreases |steps|
  {
    NothingRefused(w.refusals, nums);
    if steps != [] {
      var next := Apply(w, steps[0]);
      StepLedgerOk(w, steps[0]);
      StepExplained(w, steps[0], nums);
      StepCalms(w, steps[0]);
      CalmerPending(w.c.ledger.events, next.c.ledger.events, nums);
      RunExplained(next, steps[1..], nums);
      ExplainedOn(w.refusals, next.refusals, Run(w, steps).refusals, nums);
    }
  }

  // ---- one over unseen input ---------------------------------------------------------------------------------

  /** Nothing is unseen, or all of it is in the call that is out. */
  predicate AllShown(w: World) {
    (forall e <- w.c.ledger.events :: !e.stage.Received?) || (w.inFlight.Some? && AllStaged(w))
  }

  lemma {:induction false} PresentShows(s: seq<Event>, nums: seq<nat>, anchor: nat)
    requires forall e <- s :: e.stage.Received? ==> e.num in nums
    ensures forall e <- PresentAll(s, nums, anchor) :: !e.stage.Received?
  {
    var r := PresentAll(s, nums, anchor);
    forall e | e in r ensures !e.stage.Received? {
      var i :| 0 <= i < |r| && r[i] == e;
      assert s[i] in s;
    }
  }

  lemma {:induction false} SameFaceShown(w: World, w': World)
    requires SameLog(w, w') && AllShown(w)
    ensures AllShown(w')
  {
    var s, r := w.c.ledger.events, w'.c.ledger.events;
    forall e | e in r && e.stage.Received? ensures exists x <- s :: x.num == e.num && x.stage.Received? {
      var i :| 0 <= i < |r| && r[i] == e;
      assert s[i] in s;
    }
  }

  lemma {:induction false} ShownStep(w: World, s: Step)
    requires GateOk(w) && AllShown(w) && Enabled(w, s) && QuietStep(w, s)
    ensures AllShown(Apply(w, s)) && UnseenResponses(Apply(w, s).refusals) == UnseenResponses(w.refusals)
  {
    match s
    case Arrive(m) => assert false;
    case CallOut(items) => CallOutStaged(w, items);
    case CallDone(response) => PresentShows(w.c.ledger.events, w.c.staged.value.nums, w.c.staged.value.anchor);
    case GatedCall =>
      GateIs(w.c);
      AllEventOk(w.c.ledger.events, w.c.ledger.revision);
      NothingUnseenIfShown(w);
      RecordsOnlyKeeps(w, s);
      SameFaceShown(w, Apply(w, s));
    case _ =>
      RecordsOnlyKeeps(w, s);
      SameFaceShown(w, Apply(w, s));
  }

  lemma {:induction false} NothingUnseenIfShown(w: World)
    requires AllShown(w) && w.inFlight.None?
    ensures !Gate(w.c).1.UnseenInput?
  {
    FilterNone(IsReceived, Unaddressed(w.c.ledger.events));
  }

  lemma {:induction false} NoneUnseen(w: World, steps: seq<Step>)
    requires GateOk(w) && AllShown(w) && ValidRun(w, steps) && QuietRun(w, steps)
    ensures UnseenResponses(Run(w, steps).refusals) == UnseenResponses(w.refusals)
    decreases |steps|
  {
    if steps != [] {
      StepGateOk(w, steps[0]);
      ShownStep(w, steps[0]);
      NoneUnseen(Apply(w, steps[0]), steps[1..]);
    }
  }

  /** The one response that may still be refused over unseen input: the current one, or that of the call in flight. */
  function Coming(w: World): nat { if w.inFlight.Some? then w.c.modelCalls + 1 else w.c.modelCalls }

  lemma {:induction false} ComingStep(w: World, s: Step)
    requires GateOk(w) && Enabled(w, s) && QuietStep(w, s)
    ensures UnseenResponses(Apply(w, s).refusals) <= UnseenResponses(w.refusals) + {Coming(w)}
    ensures Coming(Apply(w, s)) == Coming(w) || AllShown(Apply(w, s))
    ensures s.CallOut? ==> AllShown(Apply(w, s))
  {
    match s
    case CallOut(items) => CallOutStaged(w, items);
    case GatedCall => GateIs(w.c);
    case _ =>
  }

  lemma {:induction false} OneUnseen(w: World, steps: seq<Step>)
    requires GateOk(w) && ValidRun(w, steps) && QuietRun(w, steps)
    ensures UnseenResponses(Run(w, steps).refusals) <= UnseenResponses(w.refusals) + {Coming(w)}
    decreases |steps|
  {
    if steps != [] {
      var next := Apply(w, steps[0]);
      StepGateOk(w, steps[0]);
      ComingStep(w, steps[0]);
      if AllShown(next) {
        NoneUnseen(next, steps[1..]);
      } else {
        OneUnseen(next, steps[1..]);
      }
    }
  }

  // ---- together ------------------------------------------------------------------------------------------------

  lemma {:induction false} NumbersSize(events: seq<Event>)
    ensures |Numbers(events)| <= |events|
    decreases |events|
  {
    if events != [] {
      var front, e := events[..|events|-1], events[|events|-1];
      NumbersSize(front);
      assert events == front + [e];
      assert Numbers(events) == Numbers(front) + {e.num};
    }
  }

  lemma {:induction false} UnionSize(a: set<nat>, b: set<nat>, c: nat, d: set<nat>)
    requires a <= b + {c} + d
    ensures |a| <= |b| + 1 + |d|
  {
    SubsetSize(a, b + {c} + d);
  }

  /** Over any quiet run at most two more responses are refused for each message pending at its start, and one more. */
  lemma {:induction false} TwoForEachPending(w: World, steps: seq<Step>)
    requires GateOk(w) && ValidRun(w, steps) && QuietRun(w, steps)
    ensures |RefusedResponses(Run(w, steps).refusals)|
            <= |RefusedResponses(w.refusals)| + 2 * |Unaddressed(w.c.ledger.events)| + 1
  {
    var pending, log := Numbers(Unaddressed(w.c.ledger.events)), Run(w, steps).refusals;
    QuietPaid(w, steps);
    RunExplained(w, steps, pending);
    OneUnseen(w, steps);
    NamedSize(log, pending);
    NumbersSize(Unaddressed(w.c.ledger.events));
    assert UnseenResponses(w.refusals) <= RefusedResponses(w.refusals);
    UnionSize(RefusedResponses(log), RefusedResponses(w.refusals), Coming(w), NamedResponses(log, pending));
  }
}
