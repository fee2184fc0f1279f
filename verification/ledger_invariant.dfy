/** What every operation of the ledger keeps. */
module LedgerInvariant {
  import opened Sequences
  import opened ThreadInbox

  /** Stage and outcome agree, and an event has an anchor exactly once it has been shown. */
  predicate EventOk(e: Event) {
    && (e.anchor.Some? <==> !e.stage.Received?)
    && |e.message.text| <= MAX_MESSAGE_CHARS
    && match e.stage
       case Received => e.outcome.Undecided? && e.gateRefusals == 0 && e.lastRefusedCall.None?
       case Presented => !e.outcome.Decided?
       case Addressed => e.outcome == Decided(WillApply)
       case Resolved => e.outcome.Decided? && e.outcome != Decided(WillApply)
  }

  function AnchorOf(e: Event): nat { if e.anchor.Some? then e.anchor.value else 0 }

  /** Older events have smaller numbers and were shown no later. */
  predicate Before(a: Event, b: Event) {
    && a.num < b.num
    && (!b.stage.Received? ==> !a.stage.Received? && AnchorOf(a) <= AnchorOf(b))
  }

  predicate Ordered(events: seq<Event>) {
    forall i, j | 0 <= i < j < |events| :: Before(events[i], events[j])
  }

  predicate EventsOk(events: seq<Event>, revision: nat) {
    && Ordered(events)
    && forall i | 0 <= i < |events| :: EventOk(events[i]) && 1 <= events[i].num <= revision
  }

  predicate Inv(l: Ledger) {
    && EventsOk(l.events, l.revision)
    && |l.events| + l.compacted == l.revision
    && |l.events| <= MAX_RETAINED_EVENTS
    && |Unaddressed(l.events)| <= MAX_PENDING_MESSAGES
    && PendingChars(l.events) <= MAX_PENDING_CHARS
    && |l.followUps| <= MAX_FOLLOW_UPS
  }

  lemma {:induction false} NewLedgerInv(requester: Option<int>)
    ensures Inv(NewLedger(requester))
  {
  }

  // ---- compaction ------------------------------------------------------------------

  /** Compaction removes at most `excess` events, all of them resolved. */
  lemma {:induction false} DropResolvedMembers(s: seq<Event>, excess: int)
    ensures forall e <- DropResolved(s, excess) :: e in s
    ensures forall e <- s :: e in DropResolved(s, excess) || e.stage.Resolved?
    decreases |s|
  {
    if s != [] && excess > 0 {
      DropResolvedMembers(s[1..], if s[0].stage.Resolved? then excess - 1 else excess);
      assert s == [s[0]] + s[1..];
    }
  }

  lemma {:induction false} DropResolvedLength(s: seq<Event>, excess: int)
    ensures |DropResolved(s, excess)| <= |s|
    ensures |s| - |DropResolved(s, excess)| <= (if excess < 0 then 0 else excess)
    ensures excess > 0 && !NoneResolved(s) ==> |DropResolved(s, excess)| < |s|
    decreases |s|
  {
    if s != [] && excess > 0 {
      DropResolvedLength(s[1..], if s[0].stage.Resolved? then excess - 1 else excess);
      assert s == [s[0]] + s[1..];
    }
  }

  lemma {:induction false} DropResolvedOk(s: seq<Event>, excess: int, revision: nat)
    requires EventsOk(s, revision)
    ensures EventsOk(DropResolved(s, excess), revision)
    decreases |s|
  {
    if s != [] && excess > 0 {
      var t := s[1..];
      if s[0].stage.Resolved? {
        DropResolvedOk(t, excess - 1, revision);
      } else {
        DropResolvedOk(t, excess, revision);
        var r := DropResolved(t, excess);
        DropResolvedMembers(t, excess);
        forall j | 0 <= j < |r| ensures Before(s[0], r[j]) {
          assert r[j] in t;
          var k :| 0 <= k < |t| && t[k] == r[j];
          assert s[k+1] == r[j];
        }
        PrependOk(s[0], r, revision);
      }
    }
  }

  lemma {:induction false} PrependOk(e: Event, r: seq<Event>, revision: nat)
    requires EventsOk(r, revision) && EventOk(e) && 1 <= e.num <= revision
    requires forall j | 0 <= j < |r| :: Before(e, r[j])
    ensures EventsOk([e] + r, revision)
  {
  }

  lemma {:induction false} AppendOk(r: seq<Event>, e: Event, revision: nat)
    requires EventsOk(r, revision) && EventOk(e) && e.num == revision + 1 && e.stage.Received?
    ensures EventsOk(r + [e], revision + 1)
  {
  }

  lemma {:induction false} DropResolvedPending(s: seq<Event>, excess: int)
    ensures Unaddressed(DropResolved(s, excess)) == Unaddressed(s)
    decreases |s|
  {
    if s != [] && excess > 0 {
      var t := s[1..];
      assert s == [s[0]] + t;
      FilterConcat(Pending, [s[0]], t);
      FilterSnoc(Pending, [], s[0]);
      if s[0].stage.Resolved? {
        DropResolvedPending(t, excess - 1);
      } else {
        DropResolvedPending(t, excess);
        FilterConcat(Pending, [s[0]], DropResolved(t, excess));
      }
      assert [] + [s[0]] == [s[0]];
    }
  }

  // ---- pointwise changes -----------------------------------------------------------

  /** `r` changes events one by one and makes none of them pending that was not. */
  predicate Settles(s: seq<Event>, r: seq<Event>) {
    && |r| == |s|
    && forall i | 0 <= i < |s| :: r[i].message == s[i].message && (Pending(r[i]) ==> Pending(s[i]))
  }

  lemma {:induction false} SettlesPending(s: seq<Event>, r: seq<Event>)
    requires Settles(s, r)
    ensures |Unaddressed(r)| <= |Unaddressed(s)| && PendingChars(r) <= PendingChars(s)
    decreases |s|
  {
    if s != [] {
      var s0, r0, n := s[..|s|-1], r[..|r|-1], |s| - 1;
      assert s == s0 + [s[n]] && r == r0 + [r[n]];
      SettlesPending(s0, r0);
      FilterSnoc(Pending, s0, s[n]);
      FilterSnoc(Pending, r0, r[n]);
      SumSnoc(TextLength, Unaddressed(s0), s[n]);
      SumSnoc(TextLength, Unaddressed(r0), r[n]);
    }
  }

  // ---- the operations ----------------------------------------------------------------

  lemma {:induction false} CompactedKeeps(l: Ledger)
    requires EventsOk(l.events, l.revision) && |l.events| + l.compacted == l.revision
    requires |l.events| <= MAX_RETAINED_EVENTS || (|l.events| == MAX_RETAINED_EVENTS + 1 && !NoneResolved(l.events))
    requires |Unaddressed(l.events)| <= MAX_PENDING_MESSAGES && PendingChars(l.events) <= MAX_PENDING_CHARS
    requires |l.followUps| <= MAX_FOLLOW_UPS
    ensures Inv(Compacted(l))
  {
    var excess := |l.events| - MAX_RETAINED_EVENTS;
    DropResolvedOk(l.events, excess, l.revision);
    DropResolvedLength(l.events, excess);
    DropResolvedPending(l.events, excess);
  }

  lemma {:induction false} PendingSnoc(events: seq<Event>, x: Event)
    ensures |Unaddressed(events + [x])| <= |Unaddressed(events)| + 1
    ensures PendingChars(events + [x]) <= PendingChars(events) + |x.message.text|
  {
    FilterSnoc(Pending, events, x);
    SumSnoc(TextLength, Unaddressed(events), x);
  }

  lemma {:induction false} ResolvedSnoc(events: seq<Event>, x: Event)
    ensures !NoneResolved(events) ==> !NoneResolved(events + [x])
  {
  }

  lemma {:induction false} AcceptKeeps(l: Ledger, e: Event)
    requires Inv(l) && EventOk(e) && e.stage.Received?
    requires |Unaddressed(l.events)| < MAX_PENDING_MESSAGES
    requires PendingChars(l.events) + |e.message.text| <= MAX_PENDING_CHARS
    requires |l.events| < MAX_RETAINED_EVENTS || !NoneResolved(l.events)
    ensures Inv(Accept(l, e))
  {
    var x := e.(num := l.revision + 1, questionId := CandidateFor(l.question, e));
    var grown := l.(revision := l.revision + 1, events := l.events + [x]);
    assert Accept(l, e) == Compacted(grown);
    assert EventsOk(grown.events, grown.revision) by { AppendOk(l.events, x, l.revision); }
    PendingSnoc(l.events, x);
    assert !NoneResolved(l.events) ==> !NoneResolved(grown.events) by { ResolvedSnoc(l.events, x); }
    CompactedKeeps(grown);
  }

  /** Intake keeps every bound; only an accepted message is numbered, and it gets the next number. */
  lemma {:induction false} DeliverKeeps(l: Ledger, m: Message)
    requires Inv(l)
    ensures Inv(Deliver(l, m).0)
    ensures Deliver(l, m).0.revision == l.revision + (if Deliver(l, m).1.Accepted? then 1 else 0)
    ensures |Deliver(l, m).0.followUps| == |l.followUps| + (if Deliver(l, m).1.Finishing? then 1 else 0)
    ensures !Deliver(l, m).1.Accepted? ==> Deliver(l, m).0.events == l.events
  {
    if Deliver(l, m).1.Accepted? {
      AcceptKeeps(l, NewEvent(l, m));
    }
  }

  /** Presenting keeps the order when it presents exactly the received events up to a number. */
  lemma {:induction false} PresentEventsOk(s: seq<Event>, revision: nat, nums: seq<nat>, anchor: nat, bound: nat)
    requires EventsOk(s, revision)
    requires forall e <- s :: !e.stage.Received? ==> AnchorOf(e) <= anchor
    requires forall e <- s :: e.stage.Received? ==> (e.num in nums <==> e.num <= bound)
    ensures EventsOk(PresentAll(s, nums, anchor), revision)
  {
  }

  lemma {:induction false} PresentKeeps(l: Ledger, nums: seq<nat>, anchor: nat, bound: nat)
    requires Inv(l)
    requires forall e <- l.events :: !e.stage.Received? ==> AnchorOf(e) <= anchor
    requires forall e <- l.events :: e.stage.Received? ==> (e.num in nums <==> e.num <= bound)
    ensures Inv(l.(events := PresentAll(l.events, nums, anchor)))
  {
    PresentEventsOk(l.events, l.revision, nums, anchor, bound);
    SettlesPending(l.events, PresentAll(l.events, nums, anchor));
  }

  lemma {:induction false} DecideOneKeeps(a: Event, b: Event, nums: seq<nat>, d: Decision, reply: string)
    requires Before(a, b) && EventOk(a) && EventOk(b)
    ensures Before(DecideOne(a, nums, d, reply), DecideOne(b, nums, d, reply))
  {
  }

  lemma {:induction false} DecideEventsOk(s: seq<Event>, revision: nat, nums: seq<nat>, d: Decision, reply: string)
    requires EventsOk(s, revision)
    ensures EventsOk(DecideAll(s, nums, d, reply), revision)
  {
    var r := DecideAll(s, nums, d, reply);
    forall i, j | 0 <= i < j < |r| ensures Before(r[i], r[j]) {
      DecideOneKeeps(s[i], s[j], nums, d, reply);
    }
  }

  lemma {:induction false} DecideKeeps(l: Ledger, nums: seq<nat>, d: Decision, reply: string)
    requires Inv(l)
    ensures Inv(RecordDecision(l, nums, d, reply))
  {
    DecideEventsOk(l.events, l.revision, nums, d, reply);
    SettlesPending(l.events, DecideAll(l.events, nums, d, reply));
  }
}
