/** Anchored history over any run of builds of one channel, whose anchor may be evicted at any moment. */
module HistoryRuns {
  import opened Sequences
  import opened HistoryPolicy

  /** A build for the trigger at a position of the channel, in any order; or the channel leaving the store. */
  datatype Event = Build(k: nat) | Evict

  predicate EventsOk(ch: Channel, events: seq<Event>) { forall e <- events :: e.Build? ==> e.k < |ch| }

  function Next(c: Config, ch: Channel, state: Option<AnchorState>, e: Event): Option<AnchorState>
    requires c.limit >= 1 && (e.Build? ==> e.k < |ch|)
  {
    if e.Evict? then None else NextState(c, ch, e.k, state)
  }

  /** The channel's anchor after a run. */
  function Anchor(c: Config, ch: Channel, events: seq<Event>): Option<AnchorState>
    requires c.limit >= 1 && EventsOk(ch, events)
  {
    if events == [] then None else Next(c, ch, Anchor(c, ch, events[..|events|-1]), events[|events|-1])
  }

  // ---- where an anchor stands ----------------------------------------------------------------------------

  predicate NoReset(ch: Channel, lo: nat, hi: nat)
    requires hi <= |ch|
  {
    forall i | lo <= i < hi :: !ch[i].reset
  }

  /** The anchor was set by a refresh at position `t` whose window began at `lo`. */
  predicate AnchoredAt(c: Config, ch: Channel, a: AnchorState, lo: nat, t: nat) {
    lo <= t < |ch| && a == AnchorState(ch[lo].id - 1, ch[t].id) && t - lo < c.limit && NoReset(ch, lo, t)
  }

  ghost predicate AnchorOk(c: Config, ch: Channel, state: Option<AnchorState>) {
    state.None? || exists lo: nat, t: nat :: AnchoredAt(c, ch, state.value, lo, t)
  }

  function SlidingFrom(c: Config, ch: Channel, k: nat): (from: nat)
    requires k < |ch| && c.limit >= 1
    ensures from <= k
  {
    var recent := RecentFrom(ch, k, c.limit - 1);
    recent + TrimCount(ch[recent..k], ch[k].alone, c.budget)
  }

  lemma {:induction false} SliceOfSlice(ch: Channel, lo: nat, hi: nat, drop: nat)
    requires lo <= lo + drop <= hi <= |ch|
    ensures ch[lo..hi][drop..] == ch[lo + drop..hi]
  {
  }

  lemma {:induction false} SlidingSlice(c: Config, ch: Channel, k: nat)
    requires k < |ch| && c.limit >= 1
    ensures var from := SlidingFrom(c, ch, k);
            Sliding(c, ch, k) == ch[from..k] && k - from < c.limit && NoReset(ch, from, k)
  {
    RecentIsNewest(ch, k, c.limit - 1);
    var recent := RecentFrom(ch, k, c.limit - 1);
    var drop := TrimCount(ch[recent..k], ch[k].alone, c.budget);
    SliceOfSlice(ch, recent, k, drop);
  }

  lemma {:induction false} RefreshedAt(c: Config, ch: Channel, k: nat)
    requires Ordered(ch) && k < |ch| && c.limit >= 1
    ensures AnchoredAt(c, ch, StateAfterRefresh(Sliding(c, ch, k), ch[k].id), SlidingFrom(c, ch, k), k)
  {
    SlidingSlice(c, ch, k);
    if Sliding(c, ch, k) != [] {
      MinIdFirst(Sliding(c, ch, k));
    }
  }

  lemma {:induction false} AnchorIsOk(c: Config, ch: Channel, events: seq<Event>)
    requires Ordered(ch) && c.limit >= 1 && EventsOk(ch, events)
    ensures AnchorOk(c, ch, Anchor(c, ch, events))
    decreases |events|
  {
    if events != [] {
      AnchorIsOk(c, ch, events[..|events|-1]);
      if events[|events|-1].Build? {
        RefreshedAt(c, ch, events[|events|-1].k);
      }
    }
  }

  // ---- what a build at or after the anchor's trigger fetches --------------------------------------------------

  function Cap(c: Config): nat { MaxWindow(c.limit, c.refreshEvery) + 1 }

  lemma {:induction false} FetchedSlice(c: Config, ch: Channel, k: nat, a: AnchorState, lo: nat, t: nat)
    requires Ordered(ch) && t <= k < |ch| && AnchoredAt(c, ch, a, lo, t)
    ensures FetchAfter(ch, k, a.afterId, Cap(c)) == ch[lo..Min(lo + Cap(c), k)]
  {
    AfterIs(ch[..k], a.afterId, lo);
  }

  function Since(t: nat, k: nat): nat { if k > t then k - t else 1 }

  /** The burst rule fires only where the threshold rule also would: the fetch cap never causes an early refresh. */
  lemma {:induction false} BurstIsThreshold(c: Config, ch: Channel, k: nat, a: AnchorState, lo: nat, t: nat)
    requires Ordered(ch) && ConfigOk(c) && t <= k < |ch| && AnchoredAt(c, ch, a, lo, t)
    requires Decide(c, ch, k, Some(a)) == Refresh(Burst)
    ensures |Filter(NewerThan(a.trigger), FetchAfter(ch, k, a.afterId, Cap(c)))| + 1 >= c.refreshEvery
    ensures Since(t, k) >= c.refreshEvery
  {
    FetchedSlice(c, ch, k, a, lo, t);
    CountNewer(ch, lo, Min(lo + Cap(c), k), t);
  }

  lemma {:induction false} AnyReset(ch: Channel, lo: nat, hi: nat)
    requires lo <= hi <= |ch|
    ensures (exists m <- ch[lo..hi] :: m.reset) <==> !NoReset(ch, lo, hi)
  {
  }

  /** The capped fetch says what the whole stretch up to the trigger would. */
  lemma {:induction false} FetchKeeps(c: Config, ch: Channel, k: nat, a: AnchorState, lo: nat, t: nat)
    requires Ordered(ch) && ConfigOk(c) && t <= k < |ch| && AnchoredAt(c, ch, a, lo, t)
    ensures WindowDecision(a, ch[lo..Min(lo + Cap(c), k)], c).Keep? <==> Since(t, k) < c.refreshEvery && NoReset(ch, lo, k)
    ensures WindowDecision(a, ch[lo..Min(lo + Cap(c), k)], c).Keep? ==> Min(lo + Cap(c), k) == k
  {
    if k - lo < Cap(c) {
      CountNewer(ch, lo, k, t);
      AnyReset(ch, lo, k);
    }
  }

  /** When a build keeps its window, in terms of the whole channel: too little is new, no reset, and it fits. */
  lemma {:induction false} KeepIff(c: Config, ch: Channel, k: nat, a: AnchorState, lo: nat, t: nat)
    requires Ordered(ch) && ConfigOk(c) && t <= k < |ch| && AnchoredAt(c, ch, a, lo, t)
    ensures Decide(c, ch, k, Some(a)).Keep? <==>
            Since(t, k) < c.refreshEvery && NoReset(ch, lo, k) && Fits(ch[lo..k], ch[k].alone, c.budget)
    ensures Decide(c, ch, k, Some(a)).Keep? ==> Window(c, ch, k, Some(a)) == ch[lo..k]
  {
    FetchedSlice(c, ch, k, a, lo, t);
    FetchKeeps(c, ch, k, a, lo, t);
  }

  /** Where the anchor's window up to this trigger says why a build takes a new one, or that it does not. */
  function ReasonFor(c: Config, ch: Channel, k: nat, lo: nat, t: nat): Decision
    requires lo <= k < |ch|
  {
    if k - lo > c.limit + c.refreshEvery - 2 then Refresh(Burst)
    else if exists i | lo <= i < k :: ch[i].reset then Refresh(Reset)
    else if Since(t, k) >= c.refreshEvery then Refresh(Threshold)
    else if c.budget.Some? && ch[k].alone + Tokens(ch[lo..k]) > c.budget.value then Refresh(TokenBudget)
    else Keep
  }

  /**
   What a build decides, in terms of the whole channel: cold without an anchor, a private window for an older trigger,
   and otherwise the first reason that holds for the window the anchor has grown to.
   */
  lemma {:induction false} DecisionIs(c: Config, ch: Channel, k: nat, state: Option<AnchorState>, lo: nat, t: nat)
    requires Ordered(ch) && ConfigOk(c) && k < |ch| && (state.Some? ==> AnchoredAt(c, ch, state.value, lo, t))
    ensures state.None? ==> Decide(c, ch, k, state) == Refresh(Cold)
    ensures state.Some? && k < t ==> Decide(c, ch, k, state) == Snapshot
    ensures state.Some? && t <= k ==> Decide(c, ch, k, state) == ReasonFor(c, ch, k, lo, t)
  {
    if state.Some? && t <= k {
      FetchedSlice(c, ch, k, state.value, lo, t);
      if k - lo < Cap(c) {
        CountNewer(ch, lo, k, t);
        AnyReset(ch, lo, k);
      }
    }
  }
}
