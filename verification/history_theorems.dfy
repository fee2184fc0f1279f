/** What anchored history promises about the prompts of a channel, whatever the order its triggers are handled in. */
module HistoryTheorems {
  import opened Sequences
  import opened HistoryPolicy
  import opened HistoryRuns

  function Between(x: int, y: int): Msg -> bool { (m: Msg) => x < m.id < y }

  lemma FilterMiddle(p: Msg -> bool, x: seq<Msg>, y: seq<Msg>, z: seq<Msg>)
    requires (forall m <- x :: !p(m)) && (forall m <- y :: p(m)) && (forall m <- z :: !p(m))
    ensures Filter(p, x + y + z) == y
  {
    FilterNone(p, x);
    FilterAll(p, y);
    FilterNone(p, z);
    FilterConcat(p, x, y);
    FilterConcat(p, x + y, z);
  }

  lemma {:induction false} SliceIsFilter(ch: Channel, lo: nat, k: nat)
    requires Ordered(ch) && lo <= k < |ch|
    ensures Filter(Between(ch[lo].id - 1, ch[k].id), ch) == ch[lo..k]
  {
    var p, x, y, z := Between(ch[lo].id - 1, ch[k].id), ch[..lo], ch[lo..k], ch[k..];
    assert forall i | 0 <= i < |x| :: !p(x[i]);
    assert forall i | 0 <= i < |y| :: p(y[i]);
    assert forall i | 0 <= i < |z| :: !p(z[i]);
    FilterMiddle(p, x, y, z);
    ThreeSlices(ch, lo, k);
  }

  lemma {:induction false} ThreeSlices(ch: Channel, lo: nat, k: nat)
    requires lo <= k <= |ch|
    ensures ch[..lo] + ch[lo..k] + ch[k..] == ch
  {
  }

  lemma {:induction false} SliceSnoc(ch: Channel, lo: nat, k: nat)
    requires lo <= k < |ch|
    ensures ch[lo..k] + [ch[k]] == ch[lo..k+1]
  {
  }

  lemma {:induction false} SlicePrefix(ch: Channel, lo: nat, i: nat, j: nat)
    requires lo <= i <= j <= |ch|
    ensures ch[lo..i] <= ch[lo..j]
  {
  }

  lemma {:induction false} IdsInOrder(ch: Channel, i: nat, j: nat)
    requires Ordered(ch) && i < |ch| && j < |ch|
    ensures ch[i].id < ch[j].id <==> i < j
  {
  }

  lemma {:induction false} StandsAt(c: Config, ch: Channel, a: AnchorState, k: nat) returns (lo: nat, t: nat)
    requires Ordered(ch) && k < |ch| && AnchorOk(c, ch, Some(a))
    ensures AnchoredAt(c, ch, a, lo, t) && (t <= k <==> a.trigger <= ch[k].id)
  {
    lo, t :| AnchoredAt(c, ch, a, lo, t);
    IdsInOrder(ch, k, t);
  }

  /** Where the anchor of a run stands, and that a trigger not before it is at or after its refresh. */
  lemma {:induction false} Standing(c: Config, ch: Channel, events: seq<Event>, k: nat) returns (lo: nat, t: nat)
    requires Ordered(ch) && ConfigOk(c) && EventsOk(ch, events) && k < |ch|
    requires Anchor(c, ch, events).Some?
    ensures AnchoredAt(c, ch, Anchor(c, ch, events).value, lo, t)
    ensures t <= k <==> Anchor(c, ch, events).value.trigger <= ch[k].id
  {
    AnchorIsOk(c, ch, events);
    lo, t := StandsAt(c, ch, Anchor(c, ch, events).value, k);
  }

  /** A kept window is exactly the messages between the anchor and the trigger, each once and in order. */
  lemma {:induction false} KeptWindowIsExact(c: Config, ch: Channel, events: seq<Event>, k: nat)
    requires Ordered(ch) && ConfigOk(c) && EventsOk(ch, events) && k < |ch|
    requires Decide(c, ch, k, Anchor(c, ch, events)).Keep?
    ensures var a := Anchor(c, ch, events);
            && a.Some? && NextState(c, ch, k, a) == a
            && Window(c, ch, k, a) == Filter(Between(a.value.afterId, ch[k].id), ch)
  {
    var lo, t := Standing(c, ch, events, k);
    KeepIff(c, ch, k, Anchor(c, ch, events).value, lo, t);
    SliceIsFilter(ch, lo, k);
  }

  /** What a build's prompt is when it left `a` as the anchor, having kept it or set it. */
  lemma {:induction false} PromptUnderAnchor(c: Config, ch: Channel, state: Option<AnchorState>, k: nat, a: AnchorState, lo: nat, t: nat)
    requires Ordered(ch) && ConfigOk(c) && k < |ch| && AnchoredAt(c, ch, a, lo, t)
    requires NextState(c, ch, k, state) == Some(a) && (Decide(c, ch, k, state).Keep? || state != Some(a))
    ensures lo <= k && Prompt(c, ch, k, state) == ch[lo..k+1]
  {
    if Decide(c, ch, k, state).Keep? {
      KeepIff(c, ch, k, a, lo, t);
    } else {
      RefreshedAt(c, ch, k);
      SlidingSlice(c, ch, k);
      SameStart(c, ch, a, lo, t, SlidingFrom(c, ch, k), k);
    }
    SliceSnoc(ch, lo, k);
  }

  lemma {:induction false} SameStart(c: Config, ch: Channel, a: AnchorState, lo: nat, t: nat, from: nat, k: nat)
    requires Ordered(ch) && AnchoredAt(c, ch, a, lo, t) && AnchoredAt(c, ch, a, from, k)
    ensures from == lo
  {
  }

  /** The prompt of the build that is event `i` of a run. */
  function PromptOf(c: Config, ch: Channel, events: seq<Event>, i: nat): seq<Msg>
    requires c.limit >= 1 && EventsOk(ch, events) && i < |events| && events[i].Build?
  {
    Prompt(c, ch, events[i].k, Anchor(c, ch, events[..i]))
  }

  /** Event `i` is a build that kept, or set, the anchor `a`. */
  predicate BuiltUnder(c: Config, ch: Channel, events: seq<Event>, i: nat, a: AnchorState)
    requires c.limit >= 1 && EventsOk(ch, events)
  {
    && i < |events| && events[i].Build?
    && var before := Anchor(c, ch, events[..i]);
    && Next(c, ch, before, events[i]) == Some(a)
    && (Decide(c, ch, events[i].k, before).Keep? || before != Some(a))
  }

  lemma {:induction false} UnderAnchorOk(c: Config, ch: Channel, events: seq<Event>, i: nat, a: AnchorState) returns (lo: nat, t: nat)
    requires Ordered(ch) && ConfigOk(c) && EventsOk(ch, events) && BuiltUnder(c, ch, events, i, a)
    ensures AnchoredAt(c, ch, a, lo, t)
  {
    if Anchor(c, ch, events[..i]) == Some(a) {
      AnchorIsOk(c, ch, events[..i]);
      lo, t :| AnchoredAt(c, ch, a, lo, t);
    } else {
      RefreshedAt(c, ch, events[i].k);
      lo, t := SlidingFrom(c, ch, events[i].k), events[i].k;
    }
  }

  lemma {:induction false} PromptOfSlice(c: Config, ch: Channel, events: seq<Event>, i: nat, a: AnchorState, lo: nat, t: nat)
    requires Ordered(ch) && ConfigOk(c) && EventsOk(ch, events) && BuiltUnder(c, ch, events, i, a) && AnchoredAt(c, ch, a, lo, t)
    ensures lo <= events[i].k && PromptOf(c, ch, events, i) == ch[lo..events[i].k+1]
  {
    var before := Anchor(c, ch, events[..i]);
    assert NextState(c, ch, events[i].k, before) == Some(a);
    PromptUnderAnchor(c, ch, before, events[i].k, a, lo, t);
  }

  /**
   Prompts under one anchor extend each other: of any two builds that kept or set the same anchor, in whatever order
   they ran, the one with the later trigger has a prompt that begins with the other's whole prompt.
   */
  lemma {:induction false} PromptsExtend(c: Config, ch: Channel, events: seq<Event>, i: nat, j: nat, a: AnchorState)
    requires Ordered(ch) && ConfigOk(c) && EventsOk(ch, events)
    requires BuiltUnder(c, ch, events, i, a) && BuiltUnder(c, ch, events, j, a) && events[i].k <= events[j].k
    ensures PromptOf(c, ch, events, i) <= PromptOf(c, ch, events, j)
  {
    var lo, t := UnderAnchorOk(c, ch, events, i, a);
    PromptOfSlice(c, ch, events, i, a, lo, t);
    PromptOfSlice(c, ch, events, j, a, lo, t);
    SlicePrefix(ch, lo, events[i].k + 1, events[j].k + 1);
  }

  /** A trigger older than the last refresh, and only such a one, gets a window of its own, and changes no state. */
  lemma {:induction false} StaleIsPrivate(c: Config, ch: Channel, events: seq<Event>, k: nat)
    requires Ordered(ch) && ConfigOk(c) && EventsOk(ch, events) && k < |ch|
    ensures var a := Anchor(c, ch, events);
            && (Decide(c, ch, k, a).Snapshot? <==> a.Some? && ch[k].id < a.value.trigger)
            && (Decide(c, ch, k, a).Snapshot? ==> Anchor(c, ch, events + [Build(k)]) == a && Window(c, ch, k, a) == Sliding(c, ch, k))
  {
    assert (events + [Build(k)])[..|events|] == events;
  }

  // ---- every window ------------------------------------------------------------------------------------------

  /** Every window, of whatever kind, is the messages from some point up to its trigger, without a reset among them. */
  lemma {:induction false} WindowIsSlice(c: Config, ch: Channel, events: seq<Event>, k: nat) returns (from: nat)
    requires Ordered(ch) && ConfigOk(c) && EventsOk(ch, events) && k < |ch|
    ensures from <= k && Window(c, ch, k, Anchor(c, ch, events)) == ch[from..k] && NoReset(ch, from, k)
    ensures k - from <= c.limit + c.refreshEvery - 2
  {
    if Decide(c, ch, k, Anchor(c, ch, events)).Keep? {
      var lo, t := Standing(c, ch, events, k);
      KeepIff(c, ch, k, Anchor(c, ch, events).value, lo, t);
      from := lo;
    } else {
      SlidingSlice(c, ch, k);
      from := SlidingFrom(c, ch, k);
    }
  }

  lemma {:induction false} SliceAfterReset(ch: Channel, from: nat, k: nat, m: Msg, r: Msg)
    requires Ordered(ch) && from <= k < |ch| && NoReset(ch, from, k)
    requires m in ch[from..k] && r in ch && r.reset && r.id < ch[k].id
    ensures r.id < m.id < ch[k].id
  {
  }

  /** No window of any kind holds a message at or before a reset that precedes its trigger, nor more than the bound. */
  lemma {:induction false} NoWindowCrossesReset(c: Config, ch: Channel, events: seq<Event>, k: nat, m: Msg, r: Msg)
    requires Ordered(ch) && ConfigOk(c) && EventsOk(ch, events) && k < |ch|
    requires r in ch && r.reset && r.id < ch[k].id && m in Window(c, ch, k, Anchor(c, ch, events))
    ensures r.id < m.id < ch[k].id
    ensures |Window(c, ch, k, Anchor(c, ch, events))| <= c.limit + c.refreshEvery - 2
  {
    var from := WindowIsSlice(c, ch, events, k);
    SliceAfterReset(ch, from, k, m, r);
  }

  /** Every prompt fits the token budget, or is the trigger alone. */
  lemma {:induction false} PromptFits(c: Config, ch: Channel, k: nat, state: Option<AnchorState>)
    requires k < |ch| && ConfigOk(c)
    ensures var w := Window(c, ch, k, state);
            w == [] || c.budget.None? || ch[k].alone + Tokens(w) <= c.budget.value
  {
    TrimIsLeast(ch[RecentFrom(ch, k, c.limit - 1)..k], ch[k].alone, c.budget);
  }

  // ---- how often, and which way, the anchor moves --------------------------------------------------------------

  predicate Commits(c: Config, ch: Channel, state: Option<AnchorState>, e: Event)
    requires c.limit >= 1 && (e.Build? ==> e.k < |ch|)
  {
    e.Build? && Next(c, ch, state, e) != state
  }

  function MovesAfter(c: Config, ch: Channel, state: Option<AnchorState>, e: Event, moves: nat): nat
    requires c.limit >= 1 && (e.Build? ==> e.k < |ch|)
  {
    moves + (if Commits(c, ch, state, e) then 1 else 0)
  }

  /** How often a run moved the anchor. */
  function Moves(c: Config, ch: Channel, events: seq<Event>): nat
    requires c.limit >= 1 && EventsOk(ch, events)
  {
    if events == [] then 0
    else
      var front, e := events[..|events|-1], events[|events|-1];
      MovesAfter(c, ch, Anchor(c, ch, front), e, Moves(c, ch, front))
  }

  /**
   While the channel stays in the store its anchor moves exactly at a refresh for another trigger, and then its
   trigger moves strictly forward.
   */
  lemma {:induction false} TriggerMovesForward(c: Config, ch: Channel, events: seq<Event>, k: nat)
    requires Ordered(ch) && ConfigOk(c) && EventsOk(ch, events) && k < |ch| && Anchor(c, ch, events).Some?
    ensures var a, b := Anchor(c, ch, events), Anchor(c, ch, events + [Build(k)]);
            && (b != a <==> Decide(c, ch, k, a).Refresh? && ch[k].id != a.value.trigger)
            && (b != a ==> b.Some? && b.value.trigger == ch[k].id > a.value.trigger)
  {
    assert (events + [Build(k)])[..|events|] == events;
  }

  /** A refresh that is neither for a reset nor for the token budget comes a full `refreshEvery` after the last. */
  lemma {:induction false} RefreshesAreSpaced(c: Config, ch: Channel, k: nat, a: AnchorState, lo: nat, t: nat)
    requires Ordered(ch) && ConfigOk(c) && t < k < |ch| && AnchoredAt(c, ch, a, lo, t)
    requires var d := Decide(c, ch, k, Some(a)); d.Refresh? && d.reason != Reset && d.reason != TokenBudget
    ensures k >= t + c.refreshEvery
  {
    if Decide(c, ch, k, Some(a)) == Refresh(Burst) {
      BurstIsThreshold(c, ch, k, a, lo, t);
    } else {
      FetchedSlice(c, ch, k, a, lo, t);
      CountNewer(ch, lo, Min(lo + Cap(c), k), t);
    }
  }

  predicate QuietBuild(c: Config, ch: Channel, state: Option<AnchorState>, e: Event)
    requires c.limit >= 1 && (e.Build? ==> e.k < |ch|)
  {
    e.Build? && var d := Decide(c, ch, e.k, state); d != Refresh(Reset) && d != Refresh(TokenBudget)
  }

  /** The runs the count of refreshes is about: no eviction, no reset refresh, no budget refresh. */
  predicate Undisturbed(c: Config, ch: Channel, events: seq<Event>)
    requires c.limit >= 1 && EventsOk(ch, events)
  {
    events == [] ||
      var front, e := events[..|events|-1], events[|events|-1];
      Undisturbed(c, ch, front) && QuietBuild(c, ch, Anchor(c, ch, front), e)
  }

  lemma {:induction false} OneMove(c: Config, ch: Channel, k: nat, state: Option<AnchorState>, lo: nat, t: nat)
    requires Ordered(ch) && ConfigOk(c) && k < |ch|
    requires state.Some? ==> AnchoredAt(c, ch, state.value, lo, t)
    requires Decide(c, ch, k, state) != Refresh(Reset) && Decide(c, ch, k, state) != Refresh(TokenBudget)
    requires NextState(c, ch, k, state) != state
    ensures NextState(c, ch, k, state).Some?
    ensures AnchoredAt(c, ch, NextState(c, ch, k, state).value, SlidingFrom(c, ch, k), k)
    ensures state.Some? ==> k >= t + c.refreshEvery
  {
    RefreshedAt(c, ch, k);
    if state.Some? {
      RefreshesAreSpaced(c, ch, k, state.value, lo, t);
    }
  }

  function Steps(m: nat, step: nat): nat { if m == 0 then 0 else Steps(m - 1, step) + step }

  /** The anchor has moved `m` times, and its trigger is at least `refreshEvery` messages on for each move but one. */
  predicate Spaced(c: Config, ch: Channel, state: Option<AnchorState>, m: nat, lo: nat, t: nat) {
    if state.None? then m == 0 else m >= 1 && AnchoredAt(c, ch, state.value, lo, t) && Steps(m - 1, c.refreshEvery) <= t
  }

  lemma {:induction false} OneEvent(c: Config, ch: Channel, e: Event, state: Option<AnchorState>, m: nat, lo: nat, t: nat)
    returns (lo': nat, t': nat)
    requires Ordered(ch) && ConfigOk(c) && e.Build? && e.k < |ch| && Spaced(c, ch, state, m, lo, t)
    requires QuietBuild(c, ch, state, e)
    ensures Spaced(c, ch, Next(c, ch, state, e), MovesAfter(c, ch, state, e, m), lo', t')
  {
    if Commits(c, ch, state, e) {
      OneMove(c, ch, e.k, state, lo, t);
      lo', t' := SlidingFrom(c, ch, e.k), e.k;
    } else {
      lo', t' := lo, t;
    }
  }

  lemma {:induction false} LastEvent(c: Config, ch: Channel, events: seq<Event>)
    requires c.limit >= 1 && EventsOk(ch, events) && events != [] && Undisturbed(c, ch, events)
    ensures var front, e := events[..|events|-1], events[|events|-1];
            && QuietBuild(c, ch, Anchor(c, ch, front), e)
            && Anchor(c, ch, events) == Next(c, ch, Anchor(c, ch, front), e)
            && Moves(c, ch, events) == MovesAfter(c, ch, Anchor(c, ch, front), e, Moves(c, ch, front))
  {
  }

  lemma {:induction false} MovesAreSpaced(c: Config, ch: Channel, events: seq<Event>) returns (lo: nat, t: nat)
    requires Ordered(ch) && ConfigOk(c) && EventsOk(ch, events) && Undisturbed(c, ch, events)
    ensures Spaced(c, ch, Anchor(c, ch, events), Moves(c, ch, events), lo, t)
    decreases |events|
  {
    lo, t := 0, 0;
    if events != [] {
      var front, e := events[..|events|-1], events[|events|-1];
      LastEvent(c, ch, events);
      lo, t := MovesAreSpaced(c, ch, front);
      lo, t := OneEvent(c, ch, e, Anchor(c, ch, front), Moves(c, ch, front), lo, t);
    }
  }

  lemma {:induction false} SpacedIsRare(c: Config, ch: Channel, state: Option<AnchorState>, m: nat, lo: nat, t: nat)
    requires ConfigOk(c) && Spaced(c, ch, state, m, lo, t)
    ensures m <= 1 + |ch| / c.refreshEvery
  {
    if m > 0 {
      AtMostQuotient(m - 1, c.refreshEvery, |ch|);
    }
  }

  /** So N messages cause at most 1 + N / refreshEvery refreshes, in whatever order their triggers are handled. */
  lemma {:induction false} RefreshesAreRare(c: Config, ch: Channel, events: seq<Event>)
    requires Ordered(ch) && ConfigOk(c) && EventsOk(ch, events) && Undisturbed(c, ch, events)
    ensures Moves(c, ch, events) <= 1 + |ch| / c.refreshEvery
  {
    var lo, t := MovesAreSpaced(c, ch, events);
    SpacedIsRare(c, ch, Anchor(c, ch, events), Moves(c, ch, events), lo, t);
  }

  lemma {:induction false} StepsIsProduct(m: nat, d: nat)
    ensures Steps(m, d) == m * d
  {
    if m > 0 {
      StepsIsProduct(m - 1, d);
      assert m * d == (m - 1) * d + d;
    }
  }

  lemma {:induction false} AtMostQuotient(m: nat, d: nat, n: nat)
    requires d >= 1 && Steps(m, d) <= n
    ensures m <= n / d
  {
    StepsIsProduct(m, d);
    var q := n / d;
    assert n < (q + 1) * d;
    if q < m {
      Monotone(q + 1, m, d);
    }
  }

  lemma {:induction false} Monotone(a: int, b: int, d: nat)
    requires a <= b
    ensures a * d <= b * d
  {
  }

  // ---- the lower bound --------------------------------------------------------------------------------------

  lemma {:induction false} FitsSuffix(s: seq<Msg>, d: nat, fixed: nat, budget: Option<int>)
    requires d <= |s| && Fits(s, fixed, budget)
    ensures Fits(s[d..], fixed, budget)
    decreases d
  {
    if d > 0 {
      FitsSuffix(s, d - 1, fixed, budget);
      assert s[d-1..][1..] == s[d..];
    } else {
      assert s[0..] == s;
    }
  }

  lemma {:induction false} TrimBeforeIff(s: seq<Msg>, fixed: nat, budget: Option<int>, d: nat)
    requires d < |s|
    ensures TrimCount(s, fixed, budget) <= d <==> Fits(s[d..], fixed, budget)
  {
    var drop := TrimCount(s, fixed, budget);
    TrimIsLeast(s, fixed, budget);
    if drop <= d {
      FitsSuffix(s[drop..], d - drop, fixed, budget);
      assert s[drop..][d-drop..] == s[d..];
    }
  }

  /** A position at or after the recent window's start is kept by the trim exactly when everything from it on fits. */
  lemma {:induction false} StartsBeforeIff(c: Config, ch: Channel, k: nat, p: nat)
    requires k < |ch| && c.limit >= 1 && p < k
    ensures SlidingFrom(c, ch, k) <= p <==> RecentFrom(ch, k, c.limit - 1) <= p && Fits(ch[p..k], ch[k].alone, c.budget)
  {
    var recent := RecentFrom(ch, k, c.limit - 1);
    if recent <= p {
      TrimBeforeIff(ch[recent..k], ch[k].alone, c.budget, p - recent);
      SliceOfSlice(ch, recent, k, p - recent);
    }
  }

  lemma {:induction false} MovedState(c: Config, ch: Channel, k: nat, a: AnchorState, lo: nat, t: nat)
    requires Ordered(ch) && ConfigOk(c) && t < k < |ch| && AnchoredAt(c, ch, a, lo, t) && Decide(c, ch, k, Some(a)).Refresh?
    ensures NextState(c, ch, k, Some(a)) == Some(AnchorState(ch[SlidingFrom(c, ch, k)].id - 1, ch[k].id))
  {
    RefreshedAt(c, ch, k);
  }

  lemma {:induction false} StartsEarlierIff(c: Config, ch: Channel, k: nat, a: AnchorState, lo: nat, t: nat)
    requires Ordered(ch) && ConfigOk(c) && t < k < |ch| && AnchoredAt(c, ch, a, lo, t)
    ensures ch[SlidingFrom(c, ch, k)].id - 1 < a.afterId <==>
            RecentFrom(ch, k, c.limit - 1) < lo && Fits(ch[lo-1..k], ch[k].alone, c.budget)
  {
    IdsInOrder(ch, SlidingFrom(c, ch, k), lo);
    if lo > 0 {
      StartsBeforeIff(c, ch, k, lo - 1);
    }
  }

  /** A refresh moves the lower bound back exactly when one message more than the old window held still fits. */
  lemma {:induction false} BoundMovesBackIff(c: Config, ch: Channel, k: nat, a: AnchorState, lo: nat, t: nat)
    requires Ordered(ch) && ConfigOk(c) && t < k < |ch| && AnchoredAt(c, ch, a, lo, t) && Decide(c, ch, k, Some(a)).Refresh?
    ensures NextState(c, ch, k, Some(a)).Some?
    ensures NextState(c, ch, k, Some(a)).value.afterId < a.afterId <==>
            RecentFrom(ch, k, c.limit - 1) < lo && Fits(ch[lo-1..k], ch[k].alone, c.budget)
  {
    MovedState(c, ch, k, a, lo, t);
    StartsEarlierIff(c, ch, k, a, lo, t);
  }

  lemma {:induction false} RecentMovesOn(ch: Channel, t: nat, k: nat, count: nat)
    requires t <= k <= |ch|
    ensures RecentFrom(ch, t, count) <= RecentFrom(ch, k, count)
    decreases k, count
  {
    if t < k && count > 0 && !ch[k-1].reset {
      RecentMovesOn(ch, t, k - 1, count);
      RecentShrinks(ch, k - 1, count);
    }
  }

  lemma {:induction false} RecentShrinks(ch: Channel, k: nat, count: nat)
    requires k <= |ch| && count > 0
    ensures RecentFrom(ch, k, count) <= RecentFrom(ch, k, count - 1)
    decreases count
  {
    if k > 0 && count > 1 && !ch[k-1].reset {
      RecentShrinks(ch, k - 1, count - 1);
    }
  }

  predicate Untrimmed(c: Config, ch: Channel, k: nat)
    requires k < |ch| && c.limit >= 1
  {
    Fits(ch[RecentFrom(ch, k, c.limit - 1)..k], ch[k].alone, c.budget)
  }

  lemma {:induction false} AnchorWasSet(c: Config, ch: Channel, events: seq<Event>) returns (t: nat)
    requires ConfigOk(c) && EventsOk(ch, events) && Anchor(c, ch, events).Some?
    ensures t < |ch| && Build(t) in events
    ensures Anchor(c, ch, events).value == StateAfterRefresh(Sliding(c, ch, t), ch[t].id)
    decreases |events|
  {
    var front, e := events[..|events|-1], events[|events|-1];
    if Next(c, ch, Anchor(c, ch, front), e) == Anchor(c, ch, front) {
      t := AnchorWasSet(c, ch, front);
    } else {
      t := e.k;
    }
  }

  lemma {:induction false} TokensSnoc(s: seq<Msg>, m: Msg)
    ensures Tokens(s + [m]) == Tokens(s) + m.tokens
    decreases |s|
  {
    if s == [] {
      assert s + [m] == [m] && [m][1..] == [];
    } else {
      TokensSnoc(s[1..], m);
      assert (s + [m])[1..] == s[1..] + [m];
    }
  }

  lemma {:induction false} TokensGrow(ch: Channel, p: nat, i: nat, k: nat)
    requires p <= i <= k <= |ch|
    ensures Tokens(ch[p..i]) <= Tokens(ch[p..k])
    decreases k
  {
    if i < k {
      TokensGrow(ch, p, i, k - 1);
      assert ch[p..k] == ch[p..k-1] + [ch[k-1]];
      TokensSnoc(ch[p..k-1], ch[k-1]);
    }
  }

  /** A trigger that does not cost more as the trigger than as history, or whose refresh trims nothing. */
  predicate Steady(c: Config, ch: Channel, k: nat)
    requires k < |ch| && c.limit >= 1
  {
    ch[k].alone <= ch[k].tokens || Untrimmed(c, ch, k)
  }

  /** What fits before a later trigger fitted before this one, which costs that prompt what it costs its own. */
  lemma {:induction false} FittedBefore(ch: Channel, p: nat, t: nat, k: nat, budget: Option<int>)
    requires p <= t < k < |ch| && ch[t].alone <= ch[t].tokens && Fits(ch[p..k], ch[k].alone, budget)
    ensures Fits(ch[p..t], ch[t].alone, budget)
  {
    TokensGrow(ch, p, t + 1, k);
    assert ch[p..t+1] == ch[p..t] + [ch[t]];
    TokensSnoc(ch[p..t], ch[t]);
  }

  /** After a steady trigger's refresh, one message more than its window never fits a later prompt. */
  lemma {:induction false} NoneMoreFits(c: Config, ch: Channel, t: nat, k: nat)
    requires c.limit >= 1 && t < k < |ch| && Steady(c, ch, t)
    ensures var lo := SlidingFrom(c, ch, t);
            !(RecentFrom(ch, k, c.limit - 1) < lo && Fits(ch[lo-1..k], ch[k].alone, c.budget))
  {
    var lo := SlidingFrom(c, ch, t);
    RecentMovesOn(ch, t, k, c.limit - 1);
    if RecentFrom(ch, k, c.limit - 1) < lo && Fits(ch[lo-1..k], ch[k].alone, c.budget) {
      StartsBeforeIff(c, ch, t, lo - 1);
      assert !Untrimmed(c, ch, t);
      FittedBefore(ch, lo - 1, t, k, c.budget);
    }
  }

  lemma {:induction false} SteadyStep(c: Config, ch: Channel, t: nat, k: nat)
    requires Ordered(ch) && ConfigOk(c) && t < |ch| && k < |ch| && Steady(c, ch, t)
    ensures var a := StateAfterRefresh(Sliding(c, ch, t), ch[t].id);
            NextState(c, ch, k, Some(a)).Some? && NextState(c, ch, k, Some(a)).value.afterId >= a.afterId
  {
    var a := StateAfterRefresh(Sliding(c, ch, t), ch[t].id);
    RefreshedAt(c, ch, t);
    if NextState(c, ch, k, Some(a)) != Some(a) {
      BoundMovesBackIff(c, ch, k, a, SlidingFrom(c, ch, t), t);
      NoneMoreFits(c, ch, t, k);
    }
  }

  /**
   While the channel stays in the store and no message costs more as a trigger than as history, or nothing is trimmed,
   the lower bound never moves back.
   */
  lemma {:induction false} BoundNeverMovesBack(c: Config, ch: Channel, events: seq<Event>, k: nat)
    requires Ordered(ch) && ConfigOk(c) && EventsOk(ch, events) && k < |ch|
    requires Anchor(c, ch, events).Some? && forall e <- events :: e.Build? ==> Steady(c, ch, e.k)
    ensures var b := Anchor(c, ch, events + [Build(k)]);
            b.Some? && b.value.afterId >= Anchor(c, ch, events).value.afterId
  {
    assert (events + [Build(k)])[..|events|] == events;
    var t := AnchorWasSet(c, ch, events);
    assert Steady(c, ch, Build(t).k);
    SteadyStep(c, ch, t, k);
  }

  /** What an entry costs that only names its author, in that many characters. */
  function Placeholder(name: nat): nat { 8 + (17 + name + 2) / 3 }

  /**
   The two estimates of a message the code can produce: the same, or apart by the placeholder entry that a trigger
   without text, image or file gets, which names its author.
   */
  ghost predicate Estimated(m: Msg) {
    m.alone == m.tokens || exists name: nat :: name > 0 && m.alone == m.tokens + Placeholder(name)
  }

  /** "hi" and the like by "al" cost 15; an empty trigger by "christine" costs 17, and nothing as history. */
  predicate EmptyTrigger(c: Config, ch: Channel) {
    && c == Config(3, 1, Some(30))
    && ch == [Msg(1, false, 15, 15), Msg(2, false, 15, 15), Msg(3, false, 0, 17), Msg(4, false, 15, 15)]
  }

  lemma {:induction false} EmptyTriggerWindows(c: Config, ch: Channel)
    requires EmptyTrigger(c, ch)
    ensures Sliding(c, ch, 2) == [] && Sliding(c, ch, 3) == [ch[1], ch[2]]
  {
    assert RecentFrom(ch, 0, 0) == 0 && RecentFrom(ch, 1, 1) == 0 && RecentFrom(ch, 2, 2) == 0;
    assert RecentFrom(ch, 1, 0) == 1 && RecentFrom(ch, 2, 1) == 1 && RecentFrom(ch, 3, 2) == 1;
    NothingFits(ch[0..2]);
    BothFit(ch[1..3]);
  }

  lemma {:induction false} NothingFits(s: seq<Msg>)
    requires |s| == 2 && s[0].tokens == 15 && s[1].tokens == 15
    ensures TrimCount(s, 17, Some(30)) == 2
  {
    assert Tokens(s[1..][1..]) == 0 && Tokens(s[1..]) == 15 && Tokens(s) == 30;
    assert TrimCount(s[1..], 17, Some(30)) == 1;
  }

  lemma {:induction false} BothFit(s: seq<Msg>)
    requires |s| == 2 && s[0].tokens == 15 && s[1].tokens == 0
    ensures TrimCount(s, 15, Some(30)) == 0
  {
    assert Tokens(s[1..][1..]) == 0 && Tokens(s[1..]) == 0;
  }

  lemma {:induction false} EmptyTriggerStates(c: Config, ch: Channel)
    requires EmptyTrigger(c, ch)
    ensures NextState(c, ch, 2, None) == Some(AnchorState(2, 3))
    ensures NextState(c, ch, 3, Some(AnchorState(2, 3))) == Some(AnchorState(1, 4))
  {
    EmptyTriggerWindows(c, ch);
    MinIdFirst([ch[1], ch[2]]);
    KeepIff(c, ch, 3, AnchorState(2, 3), 2, 2);
  }

  /**
   Otherwise it can: an empty trigger leaves no room for history, costs nothing once it is history itself, and the
   next refresh reaches further back.
   */
  lemma {:induction false} TrimmedBoundCanMoveBack()
    ensures var c := Config(3, 1, Some(30));
            var ch := [Msg(1, false, 15, 15), Msg(2, false, 15, 15), Msg(3, false, 0, 17), Msg(4, false, 15, 15)];
            && Ordered(ch) && (forall m <- ch :: Estimated(m))
            && Anchor(c, ch, [Build(2)]) == Some(AnchorState(2, 3))
            && Anchor(c, ch, [Build(2), Build(3)]) == Some(AnchorState(1, 4))
  {
    var c := Config(3, 1, Some(30));
    var ch := [Msg(1, false, 15, 15), Msg(2, false, 15, 15), Msg(3, false, 0, 17), Msg(4, false, 15, 15)];
    assert Placeholder(9) == 17;
    assert [Build(2), Build(3)][..1] == [Build(2)] && [Build(2)][..0] == [];
    EmptyTriggerStates(c, ch);
  }
}
