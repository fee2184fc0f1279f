/**
 What a model call is sent never rewrites what the calls before it were sent,
 except by leaving out messages the ledger has since compacted away.
 */
module PrefixStability {
  import opened Sequences
  import opened ThreadInbox
  import opened LedgerInvariant
  import opened Conversation
  import opened Weaving
  import opened ConversationRuns

  // ---- the shown part of a ledger -----------------------------------------------------

  function ShownPlaced(events: seq<Event>, requester: Option<int>): seq<Placement>
    decreases |events|
  {
    if events == [] then []
    else
      var rest, e := ShownPlaced(events[..|events|-1], requester), events[|events|-1];
      if e.stage.Received? then rest else rest + [Placement(AnchorOf(e), Render(e, requester))]
  }

  function OnlyNumbers(events: seq<Event>, nums: set<nat>): seq<Event>
    decreases |events|
  {
    if events == [] then []
    else
      var rest, e := OnlyNumbers(events[..|events|-1], nums), events[|events|-1];
      if e.num in nums then rest + [e] else rest
  }

  lemma {:induction false} SameFaceShown(s: seq<Event>, r: seq<Event>, requester: Option<int>)
    requires SameFace(s, r)
    ensures ShownPlaced(s, requester) == ShownPlaced(r, requester)
    decreases |s|
  {
    if s != [] {
      SameFaceShown(s[..|s|-1], r[..|r|-1], requester);
      assert Render(s[|s|-1], requester) == Render(r[|r|-1], requester);
    }
  }

  lemma {:induction false} SameFaceNumbers(s: seq<Event>, r: seq<Event>)
    requires SameFace(s, r)
    ensures Numbers(s) == Numbers(r)
  {
  }

  lemma {:induction false} PresentFace(s: seq<Event>, r: seq<Event>, nums: seq<nat>, anchor: nat)
    requires SameFace(s, r)
    ensures SameFace(PresentAll(s, nums, anchor), PresentAll(r, nums, anchor))
  {
  }

  lemma {:induction false} PresentNumbers(s: seq<Event>, nums: seq<nat>, anchor: nat)
    ensures Numbers(PresentAll(s, nums, anchor)) == Numbers(s)
  {
  }

  /** Presenting adds its messages after all that were shown, at one place. */
  lemma {:induction false} PresentAppends(s: seq<Event>, nums: seq<nat>, anchor: nat, requester: Option<int>, revision: nat)
    returns (qs: seq<Placement>)
    requires EventsOk(s, revision)
    ensures ShownPlaced(PresentAll(s, nums, anchor), requester) == ShownPlaced(s, requester) + qs
    ensures forall q <- qs :: q.anchor == anchor
    decreases |s|
  {
    if s == [] {
      qs := [];
    } else {
      var front, e := s[..|s|-1], s[|s|-1];
      var r := PresentAll(s, nums, anchor);
      LastAfter(s, revision);
      assert r[..|r|-1] == PresentAll(front, nums, anchor);
      if e.stage.Received? {
        qs := PresentAppends(front, nums, anchor, requester, revision);
        if e.num in nums {
          qs := qs + [Placement(anchor, Render(e, requester))];
        }
      } else {
        assert forall i | 0 <= i < |s| :: i < |front| ==> s[i] == front[i] && front[i] in front;
        assert r == s;
        qs := [];
      }
    }
  }

  /** Once everything unseen is presented at the end, the shown part is the whole placement. */
  lemma {:induction false} AllPlacedIsShown(s: seq<Event>, nums: seq<nat>, n: nat, requester: Option<int>)
    requires Anchored(s, n)
    requires forall e <- s :: e.stage.Received? ==> e.num in nums
    ensures AllPlaced(s, n, requester) == ShownPlaced(PresentAll(s, nums, n), requester)
    decreases |s|
  {
    if s != [] {
      var front, e := s[..|s|-1], s[|s|-1];
      var r := PresentAll(s, nums, n);
      assert s == front + [e];
      assert r[..|r|-1] == PresentAll(front, nums, n);
      AllPlacedIsShown(front, nums, n, requester);
      assert AllPlaced(s, n, requester) == AllPlaced(front, n, requester) + [Placement(PlaceOf(e, n), Render(e, requester))];
    }
  }

  lemma {:induction false} ShownFits(s: seq<Event>, n: nat, requester: Option<int>, revision: nat)
    requires EventsOk(s, revision) && Anchored(s, n)
    ensures Fits(ShownPlaced(s, requester), n)
    decreases |s|
  {
    if s != [] {
      var front, e := s[..|s|-1], s[|s|-1];
      assert s == front + [e];
      LastAfter(s, revision);
      ShownFits(front, n, requester, revision);
      if !e.stage.Received? {
        assert e in s;
        ShownBelow(front, AnchorOf(e), requester);
        var ps := ShownPlaced(front, requester);
        assert forall i | 0 <= i < |ps| :: ps[i] in ps;
      }
    }
  }

  lemma {:induction false} ShownNumbers(s: seq<Event>, nums: set<nat>, requester: Option<int>)
    requires forall e <- s :: e.num in nums
    ensures KeepPlaced(ShownPlaced(s, requester), nums) == ShownPlaced(s, requester)
    ensures AllThread(ShownPlaced(s, requester))
    decreases |s|
  {
    if s != [] {
      assert s == s[..|s|-1] + [s[|s|-1]];
      ShownNumbers(s[..|s|-1], nums, requester);
    }
  }

  lemma {:induction false} ShownBelow(s: seq<Event>, a: nat, requester: Option<int>)
    requires forall x <- s :: !x.stage.Received? ==> AnchorOf(x) <= a
    ensures forall p <- ShownPlaced(s, requester) :: p.anchor <= a
    decreases |s|
  {
    if s != [] {
      assert s == s[..|s|-1] + [s[|s|-1]];
      ShownBelow(s[..|s|-1], a, requester);
    }
  }

  // ---- compaction -----------------------------------------------------------------------

  lemma {:induction false} OnlyConcat(a: seq<Event>, b: seq<Event>, nums: set<nat>)
    ensures OnlyNumbers(a + b, nums) == OnlyNumbers(a, nums) + OnlyNumbers(b, nums)
    decreases |b|
  {
    if b == [] {
      assert a + b == a;
    } else {
      assert (a + b)[..|a + b| - 1] == a + b[..|b|-1];
      OnlyConcat(a, b[..|b|-1], nums);
    }
  }

  lemma {:induction false} OnlyAgree(s: seq<Event>, a: set<nat>, b: set<nat>)
    requires forall e <- s :: e.num in a <==> e.num in b
    ensures OnlyNumbers(s, a) == OnlyNumbers(s, b)
    decreases |s|
  {
    if s != [] {
      assert s == s[..|s|-1] + [s[|s|-1]];
      OnlyAgree(s[..|s|-1], a, b);
    }
  }

  lemma {:induction false} OnlyAll(s: seq<Event>)
    ensures OnlyNumbers(s, Numbers(s)) == s
    decreases |s|
  {
    if s != [] {
      var front := s[..|s|-1];
      assert s == front + [s[|s|-1]];
      OnlyAll(front);
      OnlyAgree(front, Numbers(s), Numbers(front));
    }
  }

  /** Compaction keeps exactly the events whose numbers remain. */
  lemma {:induction false} DropIsOnly(s: seq<Event>, excess: int)
    requires Increasing(s)
    ensures DropResolved(s, excess) == OnlyNumbers(s, Numbers(DropResolved(s, excess)))
    decreases |s|
  {
    if s == [] || excess <= 0 {
      OnlyAll(s);
    } else {
      var e, t := s[0], s[1..];
      assert s == [e] + t;
      var k := if e.stage.Resolved? then excess - 1 else excess;
      DropIsOnly(t, k);
      DropIsOnlyStep(e, t, DropResolved(t, k), e.stage.Resolved?);
    }
  }

  lemma {:induction false} DropIsOnlyStep(e: Event, t: seq<Event>, r: seq<Event>, dropped: bool)
    requires Increasing([e] + t) && r == OnlyNumbers(t, Numbers(r))
    ensures dropped ==> r == OnlyNumbers([e] + t, Numbers(r))
    ensures !dropped ==> [e] + r == OnlyNumbers([e] + t, Numbers([e] + r))
  {
    forall x | x in t ensures e.num < x.num {
      var i :| 0 <= i < |t| && t[i] == x;
      assert ([e] + t)[0] == e && ([e] + t)[i+1] == x;
    }
    OnlyMembers(t, Numbers(r));
    OnlyConcat([e], t, Numbers(r));
    OnlyConcat([e], t, Numbers([e] + r));
    OnlyAgree(t, Numbers([e] + r), Numbers(r));
    OnlyOne(e, Numbers(r));
    OnlyOne(e, Numbers([e] + r));
    assert e in [e] + r;
  }

  lemma {:induction false} OnlyOne(e: Event, nums: set<nat>)
    ensures OnlyNumbers([e], nums) == if e.num in nums then [e] else []
  {
    assert [e][..0] == [];
  }

  lemma {:induction false} OnlyMembers(s: seq<Event>, nums: set<nat>)
    ensures forall x <- OnlyNumbers(s, nums) :: x in s
    decreases |s|
  {
    if s != [] {
      assert s == s[..|s|-1] + [s[|s|-1]];
      OnlyMembers(s[..|s|-1], nums);
    }
  }

  lemma {:induction false} OnlyShown(s: seq<Event>, nums: set<nat>, requester: Option<int>)
    ensures ShownPlaced(OnlyNumbers(s, nums), requester) == KeepPlaced(ShownPlaced(s, requester), nums)
    decreases |s|
  {
    if s != [] {
      OnlyShown(s[..|s|-1], nums, requester);
    }
  }

  lemma {:induction false} OnlyPresent(s: seq<Event>, nums: set<nat>, staged: seq<nat>, anchor: nat)
    ensures PresentAll(OnlyNumbers(s, nums), staged, anchor) == OnlyNumbers(PresentAll(s, staged, anchor), nums)
    decreases |s|
  {
    if s != [] {
      var r := PresentAll(s, staged, anchor);
      assert r[..|r|-1] == PresentAll(s[..|s|-1], staged, anchor);
      OnlyPresent(s[..|s|-1], nums, staged, anchor);
    }
  }

  lemma {:induction false} KeepNarrow(x: seq<Item>, a: set<nat>, b: set<nat>)
    requires forall y <- x :: y.Thread? && y.num in b ==> y.num in a
    ensures Keep(x, b) == Keep(Keep(x, a), b)
    decreases |x|
  {
    if x != [] {
      assert x == x[..|x|-1] + [x[|x|-1]];
      KeepNarrow(x[..|x|-1], a, b);
      var k, y := Keep(x[..|x|-1], a), x[|x|-1];
      assert (k + [y])[..|k|] == k;
    }
  }

  lemma {:induction false} KeepPrefix(x: seq<Item>, y: seq<Item>, nums: set<nat>)
    requires x <= y
    ensures Keep(x, nums) <= Keep(y, nums)
  {
    assert y == x + y[|x|..];
    KeepConcat(x, y[|x|..], nums);
  }

  // ---- the log ------------------------------------------------------------------------------

  /** Every thread message in a call's input was in the ledger when it went out, and is numbered by now. */
  predicate CallOk(c: Call, revision: nat) {
    && AllBase(c.base)
    && forall x <- c.input :: x.Thread? ==> x.num in c.retained && x.num <= revision
  }

  /** What the ledger still holds of a call's input begins the input the shown messages make. */
  predicate Begins(c: Call, w: World) {
    Keep(c.input, Numbers(w.c.ledger.events))
    <= Weave(LastBase(w), ShownPlaced(w.c.ledger.events, w.c.ledger.requester))
  }

  /** The call in flight, as it stands once its staged messages count as presented. */
  predicate FlightOk(w: World)
    requires w.inFlight.Some? && w.c.staged.Some?
  {
    var l, staged, c := w.c.ledger, w.c.staged.value, w.inFlight.value;
    && CallOk(c, l.revision)
    && Keep(c.input, Numbers(l.events))
       == Weave(c.base, ShownPlaced(PresentAll(l.events, staged.nums, staged.anchor), l.requester))
    && forall past <- w.calls :: Keep(past.input, c.retained) <= c.input
  }

  predicate LogOk(w: World)
    requires StagedOk(w)
  {
    && (forall c <- w.calls :: CallOk(c, w.c.ledger.revision) && Begins(c, w))
    && (forall i, j | 0 <= i < j < |w.calls| :: Keep(w.calls[i].input, w.calls[j].retained) <= w.calls[j].input)
    && (w.inFlight.Some? ==> FlightOk(w))
  }

  /** The steps that only record handling leave the log as it was. */
  lemma {:induction false} SameFaceLog(w: World, w': World)
    requires LedgerOk(w) && LogOk(w) && StagedOk(w')
    requires SameLog(w, w')
    ensures LogOk(w')
  {
    var s, r := w.c.ledger.events, w'.c.ledger.events;
    SameFaceNumbers(s, r);
    SameFaceShown(s, r, w.c.ledger.requester);
    if w.inFlight.Some? {
      var staged := w.c.staged.value;
      PresentFace(s, r, staged.nums, staged.anchor);
      SameFaceShown(PresentAll(s, staged.nums, staged.anchor), PresentAll(r, staged.nums, staged.anchor), w.c.ledger.requester);
    }
  }

  /** Compaction drops the same messages from what was sent and from what would be woven now. */
  lemma {:induction false} AcceptKeep(x: seq<Item>, base: seq<Item>, s: seq<Event>, e: Event, r: seq<Event>, revision: nat, requester: Option<int>)
    requires AllBase(base) && EventsOk(s, revision) && Anchored(s, |base|)
    requires e.stage.Received? && e.num == revision + 1
    requires r == OnlyNumbers(s + [e], Numbers(r))
    requires forall y <- x :: y.Thread? ==> y.num <= revision
    ensures Keep(x, Numbers(r)) == Keep(Keep(x, Numbers(s)), Numbers(r))
    ensures Weave(base, ShownPlaced(r, requester)) == Keep(Weave(base, ShownPlaced(s, requester)), Numbers(r))
  {
    OnlyMembers(s + [e], Numbers(r));
    forall n | n in Numbers(r) && n <= revision ensures n in Numbers(s) {
      var y :| y in r && y.num == n;
      assert y in s + [e];
    }
    KeepNarrow(x, Numbers(s), Numbers(r));
    OnlyShown(s + [e], Numbers(r), requester);
    assert (s + [e])[..|s|] == s;
    ShownFits(s, |base|, requester, revision);
    KeepWeave(base, ShownPlaced(s, requester), Numbers(r));
  }

  lemma {:induction false} LastBaseOk(w: World)
    requires forall c <- w.calls :: CallOk(c, w.c.ledger.revision)
    ensures AllBase(LastBase(w))
  {
    if w.calls != [] {
      assert w.calls[|w.calls|-1] in w.calls;
    }
  }

  lemma {:induction false} AcceptPast(w: World, w': World, e: Event, c: Call)
    requires LedgerOk(w) && c in w.calls && CallOk(c, w.c.ledger.revision) && Begins(c, w)
    requires AllBase(LastBase(w)) && LastBase(w') == LastBase(w) && w'.c.ledger.requester == w.c.ledger.requester
    requires e.stage.Received? && e.num == w.c.ledger.revision + 1
    requires w'.c.ledger.events == OnlyNumbers(w.c.ledger.events + [e], Numbers(w'.c.ledger.events))
    ensures Begins(c, w')
  {
    var l, nums := w.c.ledger, Numbers(w'.c.ledger.events);
    AcceptKeep(c.input, LastBase(w), l.events, e, w'.c.ledger.events, l.revision, l.requester);
    KeepPrefix(Keep(c.input, Numbers(l.events)), Weave(LastBase(w), ShownPlaced(l.events, l.requester)), nums);
  }

  lemma {:induction false} AcceptFlight(w: World, e: Event, r: seq<Event>)
    requires LedgerOk(w) && w.inFlight.Some? && FlightOk(w)
    requires EventOk(e) && e.stage.Received? && e.num == w.c.ledger.revision + 1
    requires r == OnlyNumbers(w.c.ledger.events + [e], Numbers(r))
    ensures var staged, c := w.c.staged.value, w.inFlight.value;
            Keep(c.input, Numbers(r))
            == Weave(c.base, ShownPlaced(PresentAll(r, staged.nums, staged.anchor), w.c.ledger.requester))
  {
    var l, c, staged := w.c.ledger, w.inFlight.value, w.c.staged.value;
    var s' := PresentAll(l.events, staged.nums, staged.anchor);
    PresentEventsOk(l.events, l.revision, staged.nums, staged.anchor, w.bound);
    PresentedAnchors(l.events, staged.nums, staged.anchor);
    PresentNumbers(l.events, staged.nums, staged.anchor);
    PresentNumbers(r, staged.nums, staged.anchor);
    OnlyPresent(l.events + [e], Numbers(r), staged.nums, staged.anchor);
    assert PresentAll(l.events + [e], staged.nums, staged.anchor) == s' + [e];
    AcceptKeep(c.input, c.base, s', e, PresentAll(r, staged.nums, staged.anchor), l.revision, l.requester);
  }

  /** The second world is the first with `e` accepted and perhaps resolved messages compacted away. */
  predicate Accepted(w: World, w': World, e: Event) {
    && w'.calls == w.calls && w'.inFlight == w.inFlight && w'.c.staged == w.c.staged && w'.bound == w.bound
    && w'.c.ledger.requester == w.c.ledger.requester && w'.c.ledger.revision == w.c.ledger.revision + 1
    && EventOk(e) && e.stage.Received? && e.num == w.c.ledger.revision + 1
    && w'.c.ledger.events == OnlyNumbers(w.c.ledger.events + [e], Numbers(w'.c.ledger.events))
  }

  lemma {:induction false} ArriveAccepts(w: World, m: Message)
    requires LedgerOk(w) && Deliver(w.c.ledger, m).1.Accepted?
    ensures Accepted(w, Apply(w, Arrive(m)), Arriving(w.c.ledger, m))
  {
    var l, e := w.c.ledger, Arriving(w.c.ledger, m);
    ArriveEvents(l, m);
    AppendOk(l.events, e, l.revision);
    DropIsOnly(l.events + [e], |l.events| + 1 - MAX_RETAINED_EVENTS);
  }

  lemma {:induction false} AcceptedLog(w: World, w': World, e: Event)
    requires LedgerOk(w) && LogOk(w) && Accepted(w, w', e) && StagedOk(w')
    ensures LogOk(w')
  {
    LastBaseOk(w);
    forall c | c in w.calls ensures CallOk(c, w'.c.ledger.revision) && Begins(c, w') {
      AcceptPast(w, w', e, c);
    }
    if w.inFlight.Some? {
      AcceptFlight(w, e, w'.c.ledger.events);
    }
  }

  lemma {:induction false} AcceptLog(w: World, m: Message)
    requires LedgerOk(w) && LogOk(w) && Deliver(w.c.ledger, m).1.Accepted?
    ensures StagedOk(Apply(w, Arrive(m))) && LogOk(Apply(w, Arrive(m)))
  {
    ArriveOk(w, m);
    ArriveAccepts(w, m);
    AcceptedLog(w, Apply(w, Arrive(m)), Arriving(w.c.ledger, m));
  }

  // ---- a call goes out -----------------------------------------------------------------------

  /** The next input continues what the shown messages make of the last completed call's. */
  lemma {:induction false} Grow(base: seq<Item>, items: seq<Item>, s: seq<Event>, nums: seq<nat>, requester: Option<int>, revision: nat)
    requires EventsOk(s, revision) && Anchored(s, |base|) && base <= items
    ensures Weave(base, ShownPlaced(s, requester)) <= Weave(items, ShownPlaced(PresentAll(s, nums, |items|), requester))
  {
    var more := items[|base|..];
    assert items == base + more;
    var qs := PresentAppends(s, nums, |items|, requester, revision);
    assert Fits(ShownPlaced(s, requester), |base|) by { ShownFits(s, |base|, requester, revision); }
    GrowWeave(base, more, ShownPlaced(s, requester), qs);
  }

  lemma {:induction false} GrowWeave(base: seq<Item>, more: seq<Item>, ps: seq<Placement>, qs: seq<Placement>)
    requires Fits(ps, |base|) && forall q <- qs :: q.anchor == |base + more|
    ensures Weave(base, ps) <= Weave(base + more, ps + qs)
  {
    WeaveTail(base + more, [], ps, qs);
    assert (base + more) + [] == base + more;
    WeaveExtend(base, more, ps);
  }

  lemma {:induction false} InputIsWoven(l: Ledger, items: seq<Item>)
    requires Inv(l) && Anchored(l.events, |items|) && AllBase(items)
    ensures FilteredInput(l, items)
            == Weave(items, ShownPlaced(PresentAll(l.events, NumbersOf(Unpresented(l.events)), |items|), l.requester))
    ensures Keep(FilteredInput(l, items), Numbers(l.events)) == FilteredInput(l, items)
  {
    var n := |items|;
    var nums := NumbersOf(Unpresented(l.events));
    var r := PresentAll(l.events, nums, n);
    forall e | e in l.events && e.stage.Received? ensures e.num in nums {
      assert e in Unpresented(l.events);
      var i :| 0 <= i < |nums| && Unpresented(l.events)[i] == e;
      assert nums[i] == e.num;
    }
    FilteredIsWoven(l, items);
    AllPlacedIsShown(l.events, nums, n, l.requester);
    PlacedFits(l.events, n, l.requester, l.revision);
    PresentNumbers(l.events, nums, n);
    assert forall e <- r :: e.num in Numbers(r);
    ShownNumbers(r, Numbers(l.events), l.requester);
    KeepWeave(items, ShownPlaced(r, l.requester), Numbers(l.events));
  }

  lemma {:induction false} CallOutLog(w: World, items: seq<Item>)
    requires LedgerOk(w) && LogOk(w) && Enabled(w, CallOut(items))
    ensures StagedOk(Apply(w, CallOut(items))) && LogOk(Apply(w, CallOut(items)))
  {
    CallOutOk(w, items);
    var l, w' := w.c.ledger, Apply(w, CallOut(items));
    var c := w'.inFlight.value;
    InputIsWoven(l, items);
    KeepMembers(c.input, c.retained);
    forall n | n in c.retained ensures n <= l.revision {
      var e :| e in l.events && e.num == n;
    }
    Grow(LastBase(w), items, l.events, w'.c.staged.value.nums, l.requester, l.revision);
    forall past | past in w.calls ensures Keep(past.input, c.retained) <= c.input {
      PrefixTrans(Keep(past.input, c.retained), Weave(LastBase(w), ShownPlaced(l.events, l.requester)), c.input);
    }
  }

  /** The second world is the first with the call in flight completed. */
  predicate Completes(w: World, w': World) {
    && w.inFlight.Some? && w.c.staged.Some? && w'.inFlight.None? && w'.calls == w.calls + [w.inFlight.value]
    && w'.c.ledger.revision == w.c.ledger.revision && w'.c.ledger.requester == w.c.ledger.requester
    && w'.c.ledger.events == PresentAll(w.c.ledger.events, w.c.staged.value.nums, w.c.staged.value.anchor)
  }

  lemma {:induction false} CallCompletes(w: World, response: seq<seq<nat>>)
    requires StagedOk(w) && Enabled(w, CallDone(response))
    ensures Completes(w, Apply(w, CallDone(response)))
  {
  }

  lemma {:induction false} CompletedBegins(w: World, w': World, past: Call)
    requires LedgerOk(w) && LogOk(w) && Completes(w, w') && past in w'.calls
    ensures CallOk(past, w.c.ledger.revision) && Begins(past, w')
  {
    var l, staged, c := w.c.ledger, w.c.staged.value, w.inFlight.value;
    assert LastBase(w') == c.base;
    PresentNumbers(l.events, staged.nums, staged.anchor);
    if past in w.calls {
      Grow(LastBase(w), c.base, l.events, staged.nums, l.requester, l.revision);
      PrefixTrans(Keep(past.input, Numbers(l.events)), Weave(LastBase(w), ShownPlaced(l.events, l.requester)),
                  Weave(c.base, ShownPlaced(w'.c.ledger.events, l.requester)));
    }
  }

  lemma {:induction false} CompletedLog(w: World, w': World)
    requires LedgerOk(w) && LogOk(w) && Completes(w, w') && StagedOk(w')
    ensures LogOk(w')
  {
    forall past | past in w'.calls ensures CallOk(past, w'.c.ledger.revision) && Begins(past, w') {
      CompletedBegins(w, w', past);
    }
    forall i, j | 0 <= i < j < |w'.calls|
      ensures Keep(w'.calls[i].input, w'.calls[j].retained) <= w'.calls[j].input
    {
      if j == |w.calls| { assert w.calls[i] in w.calls; }
    }
  }

  lemma {:induction false} CallDoneLog(w: World, response: seq<seq<nat>>)
    requires LedgerOk(w) && LogOk(w) && Enabled(w, CallDone(response))
    ensures StagedOk(Apply(w, CallDone(response))) && LogOk(Apply(w, CallDone(response)))
  {
    CallDoneOk(w, response);
    CallCompletes(w, response);
    CompletedLog(w, Apply(w, CallDone(response)));
  }

  lemma {:induction false} ArriveLog(w: World, m: Message)
    requires LedgerOk(w) && LogOk(w)
    ensures StagedOk(Apply(w, Arrive(m))) && LogOk(Apply(w, Arrive(m)))
  {
    if Deliver(w.c.ledger, m).1.Accepted? {
      AcceptLog(w, m);
    } else {
      ArriveOk(w, m);
      ArriveEvents(w.c.ledger, m);
      SameFaceLog(w, Apply(w, Arrive(m)));
    }
  }

  lemma {:induction false} StepLog(w: World, s: Step)
    requires LedgerOk(w) && LogOk(w) && Enabled(w, s)
    ensures StagedOk(Apply(w, s)) && LogOk(Apply(w, s))
  {
    match s
    case Arrive(m) => ArriveLog(w, m);
    case CallOut(items) => CallOutLog(w, items);
    case CallDone(response) => CallDoneLog(w, response);
    case _ =>
      StepLedgerOk(w, s);
      RecordsOnlyKeeps(w, s);
      SameFaceLog(w, Apply(w, s));
  }
}
