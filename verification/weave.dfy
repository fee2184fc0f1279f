/**
 The simple form of input placement: thread messages woven into the SDK's own
 items at their anchors. `FilteredIsWoven` shows the filter's slot-by-slot
 construction builds exactly this.
 */
module Weaving {
  import opened Sequences
  import opened ThreadInbox
  import opened LedgerInvariant
  import opened Conversation

  datatype Placement = Placement(anchor: nat, item: Item)

  function Weave(base: seq<Item>, ps: seq<Placement>): seq<Item>
    decreases |ps|
  {
    if ps == [] then base
    else
      var p := ps[|ps|-1];
      var a := if p.anchor < |base| then p.anchor else |base|;
      Weave(base[..a], ps[..|ps|-1]) + [p.item] + base[a..]
  }

  function ItemsOf(ps: seq<Placement>): (r: seq<Item>)
    ensures |r| == |ps|
    ensures forall i | 0 <= i < |r| :: r[i] == ps[i].item
  {
    seq(|ps|, i requires 0 <= i < |ps| => ps[i].item)
  }

  /** Anchors never decrease and none lies past the end. */
  predicate Fits(ps: seq<Placement>, n: nat) {
    && (forall i, j | 0 <= i < j < |ps| :: ps[i].anchor <= ps[j].anchor)
    && forall i | 0 <= i < |ps| :: ps[i].anchor <= n
  }

  predicate AllBase(items: seq<Item>) {
    forall x <- items :: x.Base?
  }

  predicate AllThread(ps: seq<Placement>) {
    forall p <- ps :: p.item.Thread?
  }

  /** The items without the thread messages whose number is not in `nums`. */
  function Keep(items: seq<Item>, nums: set<nat>): seq<Item> {
    if items == [] then []
    else
      var rest, x := Keep(items[..|items|-1], nums), items[|items|-1];
      if x.Thread? && x.num !in nums then rest else rest + [x]
  }

  function KeepPlaced(ps: seq<Placement>, nums: set<nat>): seq<Placement> {
    if ps == [] then []
    else
      var rest, p := KeepPlaced(ps[..|ps|-1], nums), ps[|ps|-1];
      if p.item.Thread? && p.item.num !in nums then rest else rest + [p]
  }

  // ---- weaving ---------------------------------------------------------------------

  lemma {:induction false} Assoc<T>(x: seq<T>, y: seq<T>, z: seq<T>)
    ensures (x + y) + z == x + (y + z)
  {
  }

  lemma {:induction false} SplitMore<T>(base: seq<T>, more: seq<T>, a: nat)
    requires a <= |base|
    ensures (base + more)[..a] == base[..a] && (base + more)[a..] == base[a..] + more
  {
  }

  /** A longer base leaves everything woven into the shorter one where it was. */
  lemma {:induction false} WeaveExtend(base: seq<Item>, more: seq<Item>, ps: seq<Placement>)
    requires Fits(ps, |base|)
    ensures Weave(base + more, ps) == Weave(base, ps) + more
  {
    if ps != [] {
      var a, front, p := ps[|ps|-1].anchor, ps[..|ps|-1], ps[|ps|-1];
      SplitMore(base, more, a);
      Assoc(Weave(base[..a], front) + [p.item], base[a..], more);
    }
  }

  /** Messages placed between `x` and `y`, after all the others, stand together there. */
  lemma {:induction false} WeaveTail(x: seq<Item>, y: seq<Item>, ps: seq<Placement>, qs: seq<Placement>)
    requires Fits(ps, |x|)
    requires forall q <- qs :: q.anchor == |x|
    ensures Weave(x + y, ps + qs) == Weave(x, ps) + ItemsOf(qs) + y
    decreases |qs|
  {
    if qs == [] {
      assert ps + qs == ps;
      WeaveExtend(x, y, ps);
    } else {
      var front, q := qs[..|qs|-1], qs[|qs|-1];
      assert qs == front + [q];
      WeaveTail(x, [], ps, front);
      assert x + [] == x;
      assert ItemsOf(qs) == ItemsOf(front) + [q.item];
      assert ps + qs == (ps + front) + [q];
      calc {
        Weave(x + y, ps + qs);
        { WeaveSnoc(x, y, ps + front, q); }
        Weave(x, ps + front) + [q.item] + y;
        { AppendAssoc(Weave(x, ps), ItemsOf(front), q.item, y); }
        Weave(x, ps) + ItemsOf(qs) + y;
      }
    }
  }

  lemma {:induction false} AppendAssoc<T>(a: seq<T>, b: seq<T>, q: T, y: seq<T>)
    ensures (a + b + []) + [q] + y == a + (b + [q]) + y
  {
  }

  lemma {:induction false} WeaveSnoc(x: seq<Item>, y: seq<Item>, ps: seq<Placement>, q: Placement)
    requires q.anchor == |x|
    ensures Weave(x + y, ps + [q]) == Weave(x, ps) + [q.item] + y
  {
    assert (ps + [q])[..|ps|] == ps;
    assert (x + y)[..|x|] == x && (x + y)[|x|..] == y;
  }

  // ---- erasing -----------------------------------------------------------------------

  lemma {:induction false} KeepConcat(x: seq<Item>, y: seq<Item>, nums: set<nat>)
    ensures Keep(x + y, nums) == Keep(x, nums) + Keep(y, nums)
    decreases |y|
  {
    if y == [] {
      assert x + y == x;
    } else {
      assert (x + y)[..|x + y| - 1] == x + y[..|y|-1];
      KeepConcat(x, y[..|y|-1], nums);
    }
  }

  lemma {:induction false} KeepBase(x: seq<Item>, nums: set<nat>)
    requires AllBase(x)
    ensures Keep(x, nums) == x
    decreases |x|
  {
    if x != [] {
      var front, y := x[..|x|-1], x[|x|-1];
      assert x == front + [y];
      KeepBase(front, nums);
      assert y in x;
    }
  }

  /** Dropping messages from a woven input is weaving the messages that are left. */
  lemma {:induction false} KeepWeave(base: seq<Item>, ps: seq<Placement>, nums: set<nat>)
    requires AllBase(base) && Fits(ps, |base|)
    ensures Keep(Weave(base, ps), nums) == Weave(base, KeepPlaced(ps, nums))
    decreases |ps|
  {
    if ps == [] {
      KeepBase(base, nums);
    } else {
      var front, p := ps[..|ps|-1], ps[|ps|-1];
      var x, y := base[..p.anchor], base[p.anchor..];
      Halves(base, p.anchor);
      KeepWeave(x, front, nums);
      KeepLast(Weave(x, front), p.item, y, nums);
      KeepPlacedFits(front, nums, p.anchor);
      KeepOne(x, y, KeepPlaced(front, nums), p, nums);
    }
  }

  lemma {:induction false} Halves(base: seq<Item>, a: nat)
    requires a <= |base|
    ensures base[..a] + base[a..] == base && (AllBase(base) ==> AllBase(base[..a]) && AllBase(base[a..]))
  {
  }

  lemma {:induction false} KeepOne(x: seq<Item>, y: seq<Item>, kept: seq<Placement>, p: Placement, nums: set<nat>)
    requires Fits(kept, |x|) && p.anchor == |x|
    ensures var dropped := p.item.Thread? && p.item.num !in nums;
            Weave(x, kept) + (if dropped then [] else [p.item]) + y == Weave(x + y, if dropped then kept else kept + [p])
  {
    if p.item.Thread? && p.item.num !in nums {
      WeaveExtend(x, y, kept);
      assert Weave(x, kept) + [] == Weave(x, kept);
    } else {
      WeaveSnoc(x, y, kept, p);
    }
  }

  lemma {:induction false} KeepLast(x: seq<Item>, p: Item, y: seq<Item>, nums: set<nat>)
    requires AllBase(y)
    ensures Keep(x + [p] + y, nums) == Keep(x, nums) + (if p.Thread? && p.num !in nums then [] else [p]) + y
  {
    KeepBase(y, nums);
    KeepConcat(x + [p], y, nums);
    assert (x + [p])[..|x|] == x;
  }

  lemma {:induction false} KeepPlacedFits(ps: seq<Placement>, nums: set<nat>, n: nat)
    requires Fits(ps, n)
    ensures Fits(KeepPlaced(ps, nums), n)
    ensures forall p <- KeepPlaced(ps, nums) :: p in ps
    decreases |ps|
  {
    if ps != [] {
      var front := ps[..|ps|-1];
      KeepPlacedFits(front, nums, n);
      assert ps == front + [ps[|ps|-1]];
      assert forall p <- front :: p.anchor <= ps[|ps|-1].anchor;
    }
  }

  lemma {:induction false} KeepNone(ps: seq<Placement>)
    requires AllThread(ps)
    ensures KeepPlaced(ps, {}) == []
    decreases |ps|
  {
    if ps != [] {
      assert forall p <- ps[..|ps|-1] :: p in ps;
      KeepNone(ps[..|ps|-1]);
      assert ps[|ps|-1] in ps;
    }
  }

  lemma {:induction false} KeepAll(items: seq<Item>, nums: set<nat>)
    requires forall x <- items :: x.Thread? ==> x.num in nums
    ensures Keep(items, nums) == items
    decreases |items|
  {
    if items != [] {
      assert forall x <- items[..|items|-1] :: x in items;
      KeepAll(items[..|items|-1], nums);
    }
  }

  lemma {:induction false} KeepMembers(items: seq<Item>, nums: set<nat>)
    ensures forall x :: x in Keep(items, nums) <==> x in items && (x.Thread? ==> x.num in nums)
    decreases |items|
  {
    if items != [] {
      assert items == items[..|items|-1] + [items[|items|-1]];
      KeepMembers(items[..|items|-1], nums);
    }
  }

  // ---- the placements of a ledger -------------------------------------------------------

  /** A new message goes at the end, a shown one at its anchor, or at the end if the input has become shorter. */
  function PlaceOf(e: Event, n: nat): (r: nat)
    ensures r <= n
  {
    if e.stage.Received? || AnchorOf(e) > n then n else AnchorOf(e)
  }

  /** Where every event goes in an input of `n` items. */
  function AllPlaced(events: seq<Event>, n: nat, requester: Option<int>): (r: seq<Placement>)
    ensures |r| == |events|
    ensures forall i | 0 <= i < |r| :: r[i] == Placement(PlaceOf(events[i], n), Render(events[i], requester))
  {
    seq(|events|, i requires 0 <= i < |events| => Placement(PlaceOf(events[i], n), Render(events[i], requester)))
  }

  function Below(ps: seq<Placement>, k: nat): seq<Placement> {
    if ps == [] then []
    else if ps[|ps|-1].anchor < k then Below(ps[..|ps|-1], k) + [ps[|ps|-1]]
    else Below(ps[..|ps|-1], k)
  }

  function AtPlace(ps: seq<Placement>, k: nat): seq<Placement> {
    if ps == [] then []
    else if ps[|ps|-1].anchor == k then AtPlace(ps[..|ps|-1], k) + [ps[|ps|-1]]
    else AtPlace(ps[..|ps|-1], k)
  }

  lemma {:induction false} BelowMembers(ps: seq<Placement>, k: nat)
    ensures forall q <- Below(ps, k) :: q in ps && q.anchor < k
    decreases |ps|
  {
    if ps != [] {
      assert ps == ps[..|ps|-1] + [ps[|ps|-1]];
      BelowMembers(ps[..|ps|-1], k);
    }
  }

  lemma {:induction false} FitsSnoc(ps: seq<Placement>, p: Placement, k: nat)
    requires Fits(ps, k) && p.anchor <= k && forall q <- ps :: q.anchor <= p.anchor
    ensures Fits(ps + [p], k)
  {
  }

  lemma {:induction false} BelowFits(ps: seq<Placement>, k: nat, n: nat)
    requires Fits(ps, n)
    ensures Fits(Below(ps, k), k)
    decreases |ps|
  {
    if ps != [] {
      var front, p := ps[..|ps|-1], ps[|ps|-1];
      BelowFits(front, k, n);
      if p.anchor < k {
        BelowMembers(front, k);
        assert forall q <- front :: q.anchor <= p.anchor;
        FitsSnoc(Below(front, k), p, k);
      }
    }
  }

  lemma {:induction false} AtPlaceMembers(ps: seq<Placement>, k: nat)
    ensures forall q <- AtPlace(ps, k) :: q in ps && q.anchor == k
    decreases |ps|
  {
    if ps != [] {
      assert ps == ps[..|ps|-1] + [ps[|ps|-1]];
      AtPlaceMembers(ps[..|ps|-1], k);
    }
  }

  lemma {:induction false} BelowNext(ps: seq<Placement>, k: nat, n: nat)
    requires Fits(ps, n)
    ensures Below(ps, k + 1) == Below(ps, k) + AtPlace(ps, k)
    decreases |ps|
  {
    if ps != [] {
      var front, p := ps[..|ps|-1], ps[|ps|-1];
      assert ps == front + [p];
      BelowNext(front, k, n);
      if p.anchor < k {
        assert forall q <- front :: q.anchor < k;
        AtPlaceNone(front, k);
      }
    }
  }

  lemma {:induction false} AtPlaceNone(ps: seq<Placement>, k: nat)
    requires forall q <- ps :: q.anchor != k
    ensures AtPlace(ps, k) == []
    decreases |ps|
  {
    if ps != [] {
      assert ps == ps[..|ps|-1] + [ps[|ps|-1]];
      AtPlaceNone(ps[..|ps|-1], k);
    }
  }

  lemma {:induction false} BelowAll(ps: seq<Placement>, k: nat)
    requires forall q <- ps :: q.anchor < k
    ensures Below(ps, k) == ps
    decreases |ps|
  {
    if ps != [] {
      assert ps == ps[..|ps|-1] + [ps[|ps|-1]];
      BelowAll(ps[..|ps|-1], k);
    }
  }

  lemma {:induction false} SortIncreasing(s: seq<Event>)
    requires Increasing(s)
    ensures SortByNumber(s) == s
    decreases |s|
  {
    if s != [] {
      var front, e := s[..|s|-1], s[|s|-1];
      assert s == front + [e] && Increasing(front);
      assert front != [] ==> front[|front|-1].num <= e.num;
      SortIncreasing(front);
    }
  }

  lemma {:induction false} PlacedSnoc(front: seq<Event>, e: Event, n: nat, requester: Option<int>)
    ensures AllPlaced(front + [e], n, requester) == AllPlaced(front, n, requester) + [Placement(PlaceOf(e, n), Render(e, requester))]
  {
  }

  lemma {:induction false} RenderSnoc(s: seq<Event>, e: Event, requester: Option<int>)
    ensures RenderAll(s + [e], requester) == RenderAll(s, requester) + [Render(e, requester)]
  {
  }

  lemma {:induction false} AtPlaceSnoc(ps: seq<Placement>, p: Placement, k: nat)
    ensures ItemsOf(AtPlace(ps + [p], k)) == ItemsOf(AtPlace(ps, k)) + (if p.anchor == k then [p.item] else [])
  {
    assert (ps + [p])[..|ps|] == ps;
  }

  lemma {:induction false} SlotPlacedSnoc(front: seq<Event>, e: Event, i: nat, n: nat, requester: Option<int>)
    requires EventOk(e) && i <= n
    requires forall x <- front :: Before(x, e)
    requires RenderAll(Slot(front, i, n), requester) == ItemsOf(AtPlace(AllPlaced(front, n, requester), i))
    ensures RenderAll(Slot(front + [e], i, n), requester) == ItemsOf(AtPlace(AllPlaced(front + [e], n, requester), i))
  {
    SlotSnoc(front, e, i, n);
    RenderSnoc(Slot(front, i, n), e, requester);
    PlacedSnoc(front, e, n, requester);
    AtPlaceSnoc(AllPlaced(front, n, requester), Placement(PlaceOf(e, n), Render(e, requester)), i);
    assert Slot(front, i, n) + [] == Slot(front, i, n);
  }

  /** A slot of the filter, already in number order, holds exactly the messages placed there. */
  lemma {:induction false} SlotIsPlaced(events: seq<Event>, i: nat, n: nat, requester: Option<int>, revision: nat)
    requires EventsOk(events, revision) && i <= n
    ensures RenderAll(Slot(events, i, n), requester) == ItemsOf(AtPlace(AllPlaced(events, n, requester), i))
    decreases |events|
  {
    if events == [] {
      assert AllPlaced(events, n, requester) == [];
    } else {
      var front, e := events[..|events|-1], events[|events|-1];
      assert events == front + [e];
      LastAfter(events, revision);
      SlotIsPlaced(front, i, n, requester, revision);
      SlotPlacedSnoc(front, e, i, n, requester);
    }
  }

  lemma {:induction false} SlotIncreasing(events: seq<Event>, i: nat, n: nat, revision: nat)
    requires EventsOk(events, revision) && i <= n
    ensures Increasing(Slot(events, i, n))
    ensures forall e <- Slot(events, i, n) :: e in events
    decreases |events|
  {
    if events != [] {
      var front, e := events[..|events|-1], events[|events|-1];
      assert events == front + [e];
      LastAfter(events, revision);
      SlotIncreasing(front, i, n, revision);
      SlotSnoc(front, e, i, n);
      var s := Slot(front, i, n);
      assert forall k | 0 <= k < |s| :: s[k] in s && s[k].num < e.num;
    }
  }

  lemma {:induction false} LastAfter(events: seq<Event>, revision: nat)
    requires EventsOk(events, revision) && events != []
    ensures EventsOk(events[..|events|-1], revision)
    ensures forall x <- events[..|events|-1] :: x in events && Before(x, events[|events|-1])
  {
  }

  lemma {:induction false} SlotSnoc(front: seq<Event>, e: Event, i: nat, n: nat)
    requires EventOk(e) && i <= n
    requires forall x <- front :: Before(x, e)
    ensures Slot(front + [e], i, n) == Slot(front, i, n) + (if PlaceOf(e, n) == i then [e] else [])
  {
    assert (front + [e])[..|front|] == front;
    FilterSnoc(IsReceived, front, e);
    if !e.stage.Received? {
      FilterNone(IsReceived, front);
    }
  }

  lemma {:induction false} SlotRendered(events: seq<Event>, i: nat, n: nat, requester: Option<int>, revision: nat)
    requires EventsOk(events, revision) && i <= n
    ensures RenderAll(SortByNumber(Slot(events, i, n)), requester) == ItemsOf(AtPlace(AllPlaced(events, n, requester), i))
  {
    SlotIncreasing(events, i, n, revision);
    SortIncreasing(Slot(events, i, n));
    SlotIsPlaced(events, i, n, requester, revision);
  }

  /** The items before slot `k`, and those before the next. */
  function Next(k: nat, n: nat): nat { if k < n then k + 1 else k }

  /** The first `k` slots are the woven input of the items before slot `k`. */
  predicate WovenTo(events: seq<Event>, requester: Option<int>, items: seq<Item>, k: nat)
    requires k <= |items| + 1
  {
    Woven(events, requester, items, k)
    == Weave(items[..if k <= |items| then k else |items|], Below(AllPlaced(events, |items|, requester), k))
  }

  function ItemAt(items: seq<Item>, k: nat): seq<Item> { if k < |items| then [items[k]] else [] }

  lemma {:induction false} WeaveNext(items: seq<Item>, ps: seq<Placement>, k: nat)
    requires Fits(ps, |items|) && k <= |items|
    ensures Weave(items[..Next(k, |items|)], Below(ps, k + 1))
         == Weave(items[..k], Below(ps, k)) + ItemsOf(AtPlace(ps, k)) + ItemAt(items, k)
  {
    PlaceNext(items[..k], ItemAt(items, k), ps, |items|);
    assert items[..Next(k, |items|)] == items[..k] + ItemAt(items, k);
  }

  lemma {:induction false} WovenStep(events: seq<Event>, requester: Option<int>, items: seq<Item>, k: nat, revision: nat)
    requires EventsOk(events, revision) && k <= |items|
    requires WovenTo(events, requester, items, k)
    ensures WovenTo(events, requester, items, k + 1)
  {
    SlotRendered(events, k, |items|, requester, revision);
    PlacedFits(events, |items|, requester, revision);
    WeaveNext(items, AllPlaced(events, |items|, requester), k);
  }

  lemma {:induction false} BelowZero(ps: seq<Placement>)
    ensures Below(ps, 0) == []
    decreases |ps|
  {
    if ps != [] { BelowZero(ps[..|ps|-1]); }
  }

  lemma {:induction false} WovenToZero(events: seq<Event>, requester: Option<int>, items: seq<Item>)
    ensures WovenTo(events, requester, items, 0)
  {
    BelowZero(AllPlaced(events, |items|, requester));
  }

  /** The filter builds the woven input, slot by slot. */
  lemma {:induction false} WovenIsWeave(events: seq<Event>, requester: Option<int>, items: seq<Item>, k: nat, revision: nat)
    requires EventsOk(events, revision) && k <= |items| + 1
    ensures WovenTo(events, requester, items, k)
  {
    WovenToZero(events, requester, items);
    for j := 0 to k
      invariant WovenTo(events, requester, items, j)
    {
      WovenStep(events, requester, items, j, revision);
    }
  }

  lemma {:induction false} PlaceNext(x: seq<Item>, y: seq<Item>, ps: seq<Placement>, n: nat)
    requires Fits(ps, n)
    ensures Weave(x + y, Below(ps, |x| + 1)) == Weave(x, Below(ps, |x|)) + ItemsOf(AtPlace(ps, |x|)) + y
  {
    BelowNext(ps, |x|, n);
    BelowMembers(ps, |x|);
    BelowFits(ps, |x|, n);
    AtPlaceMembers(ps, |x|);
    WeaveTail(x, y, Below(ps, |x|), AtPlace(ps, |x|));
  }

  lemma {:induction false} PlacedFits(events: seq<Event>, n: nat, requester: Option<int>, revision: nat)
    requires EventsOk(events, revision)
    ensures Fits(AllPlaced(events, n, requester), n)
  {
  }

  /** The filtered input is the SDK's items with every event woven in at its place. */
  lemma {:induction false} FilteredIsWoven(l: Ledger, items: seq<Item>)
    requires Inv(l)
    ensures FilteredInput(l, items) == Weave(items, AllPlaced(l.events, |items|, l.requester))
  {
    var n := |items|;
    WovenIsWeave(l.events, l.requester, items, n + 1, l.revision);
    PlacedFits(l.events, n, l.requester, l.revision);
    BelowAll(AllPlaced(l.events, n, l.requester), n + 1);
    assert items[..n] == items;
  }
}
