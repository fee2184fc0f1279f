/**
 Which channel history goes into a prompt. A channel is its messages in order; a window is the run of messages
 from some position up to, and without, the trigger.
 */
module HistoryPolicy {
  import opened Sequences

  /** `tokens` estimates the message as history, `alone` as the trigger, which is never left out. */
  datatype Msg = Msg(id: int, reset: bool, tokens: nat, alone: nat)

  type Channel = seq<Msg>

  predicate Ordered(ch: Channel) { forall i, j | 0 <= i < j < |ch| :: ch[i].id < ch[j].id }

  datatype Config = Config(limit: nat, refreshEvery: nat, budget: Option<int>)

  /** Both settings are positive. */
  predicate ConfigOk(c: Config) { c.limit >= 1 && c.refreshEvery >= 1 }

  datatype AnchorState = AnchorState(afterId: int, trigger: int)

  datatype Reason = Cold | Burst | Reset | Threshold | TokenBudget
  datatype Decision = Keep | Refresh(reason: Reason) | Snapshot

  function MaxWindow(limit: nat, refreshEvery: nat): nat {
    if limit + refreshEvery >= 2 then limit + refreshEvery - 2 else 0
  }

  function InitialDecision(state: Option<AnchorState>, trigger: int): Option<Decision> {
    if state.None? then Some(Refresh(Cold)) else if trigger < state.value.trigger then Some(Snapshot) else None
  }

  function NewerThan(id: int): Msg -> bool { (m: Msg) => m.id > id }

  function WindowDecision(state: AnchorState, fetched: seq<Msg>, c: Config): Decision {
    if |fetched| > MaxWindow(c.limit, c.refreshEvery) then Refresh(Burst)
    else if exists m <- fetched :: m.reset then Refresh(Reset)
    else if |Filter(NewerThan(state.trigger), fetched)| + 1 >= c.refreshEvery then Refresh(Threshold)
    else Keep
  }

  function StateAfterRefresh(window: seq<Msg>, trigger: int): AnchorState {
    AnchorState((if window == [] then trigger else MinId(window)) - 1, trigger)
  }

  function MinId(s: seq<Msg>): int
    requires s != []
  {
    if |s| == 1 then s[0].id
    else
      var rest := MinId(s[..|s|-1]);
      if s[|s|-1].id < rest then s[|s|-1].id else rest
  }

  // ---- reading the channel ---------------------------------------------------------------------------

  /** Where the newest `count` messages before position `k` begin, without crossing a reset. */
  function RecentFrom(ch: Channel, k: nat, count: nat): (from: nat)
    requires k <= |ch|
    ensures from <= k
  {
    if count == 0 || k == 0 || ch[k-1].reset then k else RecentFrom(ch, k - 1, count - 1)
  }

  /** The first position after a message id. */
  function After(ch: Channel, id: int): (from: nat)
    ensures from <= |ch|
  {
    if ch == [] then 0
    else if After(ch[..|ch|-1], id) < |ch| - 1 then After(ch[..|ch|-1], id)
    else if ch[|ch|-1].id > id then |ch| - 1
    else |ch|
  }

  function Min(a: int, b: int): int { if a < b then a else b }

  /** Up to `cap` messages after `id` and before position `k`, the oldest first. */
  function FetchAfter(ch: Channel, k: nat, id: int, cap: nat): seq<Msg>
    requires k <= |ch|
  {
    var from := After(ch[..k], id);
    ch[from..Min(from + cap, k)]
  }

  function Tokens(s: seq<Msg>): nat {
    if s == [] then 0 else s[0].tokens + Tokens(s[1..])
  }

  // ---- fitting a token budget --------------------------------------------------------------------------

  predicate Fits(s: seq<Msg>, fixed: nat, budget: Option<int>) {
    budget.None? || fixed + Tokens(s) <= budget.value
  }

  /** The oldest messages dropped until the rest fits, or nothing is left. */
  function TrimCount(s: seq<Msg>, fixed: nat, budget: Option<int>): (drop: nat)
    ensures drop <= |s|
  {
    if s == [] || Fits(s, fixed, budget) then 0 else 1 + TrimCount(s[1..], fixed, budget)
  }

  function Trim(s: seq<Msg>, fixed: nat, budget: Option<int>): seq<Msg> { s[TrimCount(s, fixed, budget)..] }

  // ---- one build ------------------------------------------------------------------------------------------

  function Sliding(c: Config, ch: Channel, k: nat): seq<Msg>
    requires k < |ch| && c.limit >= 1
  {
    Trim(ch[RecentFrom(ch, k, c.limit - 1)..k], ch[k].alone, c.budget)
  }

  function Decide(c: Config, ch: Channel, k: nat, state: Option<AnchorState>): Decision
    requires k < |ch|
  {
    var first := InitialDecision(state, ch[k].id);
    if first.Some? then first.value
    else
      var fetched := FetchAfter(ch, k, state.value.afterId, MaxWindow(c.limit, c.refreshEvery) + 1);
      var decision := WindowDecision(state.value, fetched, c);
      if decision.Keep? && !Fits(fetched, ch[k].alone, c.budget) then Refresh(TokenBudget) else decision
  }

  /** The history of the prompt for the trigger at position `k`. */
  function Window(c: Config, ch: Channel, k: nat, state: Option<AnchorState>): seq<Msg>
    requires k < |ch| && c.limit >= 1
  {
    if Decide(c, ch, k, state).Keep? then FetchAfter(ch, k, state.value.afterId, MaxWindow(c.limit, c.refreshEvery) + 1)
    else Sliding(c, ch, k)
  }

  predicate Newer(current: Option<AnchorState>, state: AnchorState) {
    current.None? || state.trigger > current.value.trigger
  }

  /** The channel's anchor after that build, while the channel stays in the store. */
  function NextState(c: Config, ch: Channel, k: nat, state: Option<AnchorState>): Option<AnchorState>
    requires k < |ch| && c.limit >= 1
  {
    var refreshed := StateAfterRefresh(Sliding(c, ch, k), ch[k].id);
    if Decide(c, ch, k, state).Refresh? && Newer(state, refreshed) then Some(refreshed) else state
  }

  function Prompt(c: Config, ch: Channel, k: nat, state: Option<AnchorState>): seq<Msg>
    requires k < |ch| && c.limit >= 1
  {
    Window(c, ch, k, state) + [ch[k]]
  }

  // ---- what the pieces mean --------------------------------------------------------------------------------

  /** `After` finds where a channel passes an id. */
  lemma {:induction false} AfterIs(ch: Channel, id: int, lo: nat)
    requires lo <= |ch| && (forall i | 0 <= i < lo :: ch[i].id <= id) && (forall i | lo <= i < |ch| :: ch[i].id > id)
    ensures After(ch, id) == lo
    decreases |ch|
  {
    if ch != [] {
      AfterIs(ch[..|ch|-1], id, if lo < |ch| then lo else lo - 1);
    }
  }

  /** A recent window holds at most `count` messages and no reset, and stops only at its count, a reset or the start. */
  lemma {:induction false} RecentIsNewest(ch: Channel, k: nat, count: nat)
    requires k <= |ch|
    ensures var from := RecentFrom(ch, k, count);
            && k - from <= count && (forall i | from <= i < k :: !ch[i].reset)
            && (from == 0 || k - from == count || ch[from-1].reset)
    decreases k
  {
    if count > 0 && k > 0 && !ch[k-1].reset {
      RecentIsNewest(ch, k - 1, count - 1);
    }
  }

  /** Fewest dropped: what is left fits or is empty, and one message more would not fit. */
  lemma {:induction false} TrimIsLeast(s: seq<Msg>, fixed: nat, budget: Option<int>)
    ensures var drop := TrimCount(s, fixed, budget);
            && (Fits(s[drop..], fixed, budget) || drop == |s|)
            && (forall d | 0 <= d < drop :: !Fits(s[d..], fixed, budget))
    decreases |s|
  {
    var drop := TrimCount(s, fixed, budget);
    assert s[0..] == s;
    if drop > 0 {
      TrimIsLeast(s[1..], fixed, budget);
      assert s[1..][drop-1..] == s[drop..];
      forall d | 0 <= d < drop
        ensures !Fits(s[d..], fixed, budget)
      {
        if d > 0 { assert s[1..][d-1..] == s[d..]; }
      }
    }
  }

  lemma {:induction false} MinIdFirst(s: seq<Msg>)
    requires s != [] && Ordered(s)
    ensures MinId(s) == s[0].id
    decreases |s|
  {
    if |s| > 1 {
      MinIdFirst(s[..|s|-1]);
    }
  }

  lemma {:induction false} FilterSplit(p: Msg -> bool, x: seq<Msg>, y: seq<Msg>)
    requires (forall m <- x :: !p(m)) && (forall m <- y :: p(m))
    ensures |Filter(p, x + y)| == |y|
  {
    FilterNone(p, x);
    FilterAll(p, y);
    FilterConcat(p, x, y);
  }

  /** The messages of an ordered stretch that are newer than one of its own, or than the one just before it. */
  lemma {:induction false} CountNewer(ch: Channel, lo: nat, hi: nat, t: nat)
    requires Ordered(ch) && lo <= hi <= |ch| && t < |ch| && lo <= t + 1
    ensures |Filter(NewerThan(ch[t].id), ch[lo..hi])| == (if hi > t + 1 then hi - (t + 1) else 0)
  {
    var p := NewerThan(ch[t].id);
    var mid := if hi > t + 1 then t + 1 else hi;
    var x, y := ch[lo..mid], ch[mid..hi];
    assert forall i | 0 <= i < |x| :: !p(x[i]);
    assert forall i | 0 <= i < |y| :: p(y[i]);
    assert ch[lo..hi] == x + y;
    FilterSplit(p, x, y);
  }
}
