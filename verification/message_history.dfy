/** Choosing a prompt's history, as the handler does it: the anchor store, the channel reads and the token trim. */
module MessageHistory {
  import opened Sequences
  import opened LruOrder
  import A = AnchorStore
  import P = HistoryPolicy

  /** The anchors of the channels used most recently; `AnchorStore` says what each method does to the whole state. */
  class HistoryStore {
    const maxChannels: nat
    var order: seq<A.Key>
    var states: map<A.Key, P.AnchorState>

    function Value(): A.Anchors
      reads this
    {
      A.Anchors(order, states)
    }

    ghost predicate Valid()
      reads this
    {
      A.AnchorsOk(Value(), maxChannels)
    }

    constructor (maxChannels: nat)
      ensures Valid() && this.maxChannels == maxChannels && Value() == A.Anchors([], map[])
    {
      this.maxChannels, order, states := maxChannels, [], map[];
    }

    function Lookup(key: A.Key): Option<P.AnchorState>
      reads this
    {
      A.Lookup(Value(), key)
    }

    method Get(key: A.Key) returns (state: Option<P.AnchorState>)
      requires Valid()
      modifies this`order
      ensures Valid() && state == Lookup(key) && Value() == A.Got(old(Value()), key)
    {
      A.ApplyOk(Value(), A.Read(key), maxChannels);
      state := None;
      if key in states {
        order := Used(order, key);
        state := Some(states[key]);
      }
    }

    /** Stores a state unless it would move the anchor backwards; the channels used longest ago make room. */
    method Commit(key: A.Key, state: P.AnchorState) returns (stored: bool)
      requires Valid()
      modifies this
      ensures Valid() && stored == P.Newer(old(Lookup(key)), state)
      ensures Value() == A.Committed(old(Value()), key, state, maxChannels)
      ensures stored && maxChannels > 0 ==> Lookup(key) == Some(state)
    {
      if key in states && state.trigger <= states[key].trigger {
        return false;
      }
      UsedLists(order, states, key, state);
      ghost var used := Used(order, key);
      order := Used(order, key);
      states := states[key := state];
      ghost var all := states;
      ghost var dropped: nat := 0;
      while |order| > maxChannels
        invariant dropped <= |used| && order == used[dropped..] && (dropped > 0 ==> |order| >= maxChannels)
        invariant Lists(order, states)
        invariant forall k :: k in states ==> k in all && states[k] == all[k]
      {
        var oldest := order[0];
        OldestLists(order, states);
        states := states - {oldest};
        order := order[1..];
        dropped := dropped + 1;
      }
      assert order == Newest(used, maxChannels);
      assert states == A.Only(all, order);
      assert maxChannels > 0 ==> order[|order|-1] == key;
      stored := true;
    }
  }

  /** How many of the oldest messages to drop to fit the budget. */
  method TrimCount(tokens: seq<P.Msg>, fixed: nat, budget: Option<int>) returns (drop: nat)
    ensures drop == P.TrimCount(tokens, fixed, budget)
  {
    if budget.None? {
      return 0;
    }
    var total := fixed + P.Tokens(tokens);
    drop := 0;
    assert tokens[0..] == tokens;
    while total > budget.value && drop < |tokens|
      invariant drop <= |tokens| && total == fixed + P.Tokens(tokens[drop..])
      invariant P.TrimCount(tokens, fixed, budget) == drop + P.TrimCount(tokens[drop..], fixed, budget)
    {
      assert tokens[drop..][1..] == tokens[drop + 1..];
      total := total - tokens[drop].tokens;
      drop := drop + 1;
    }
  }

  /** One message being answered: the channel it is in, its position there, and the history chosen for its prompt. */
  class MessageHandler {
    const channel: P.Channel
    const trigger: nat
    const key: A.Key
    const config: P.Config
    var history: seq<P.Msg>

    predicate Valid() { trigger < |channel| && P.ConfigOk(config) && P.Ordered(channel) }

    constructor (channel: P.Channel, trigger: nat, key: A.Key, config: P.Config)
      requires trigger < |channel| && P.ConfigOk(config) && P.Ordered(channel)
      ensures Valid() && this.channel == channel && this.trigger == trigger && this.key == key && this.config == config
      ensures history == []
    {
      this.channel, this.trigger, this.key, this.config, history := channel, trigger, key, config, [];
    }

    /** The newest `count` messages before the trigger, read newest first and stopping at a reset. */
    method FetchRecent(count: nat) returns (found: seq<P.Msg>)
      requires Valid()
      ensures found == channel[P.RecentFrom(channel, trigger, count)..trigger]
    {
      found := [];
      var at: nat := trigger;
      while at > 0 && |found| < count
        invariant at <= trigger && |found| == trigger - at && |found| <= count && found == channel[at..trigger]
        invariant P.RecentFrom(channel, trigger, count) == P.RecentFrom(channel, at, count - |found|)
      {
        if channel[at-1].reset {
          break;
        }
        at := at - 1;
        found := [channel[at]] + found;
      }
    }

    /** Up to `cap` messages after `id`, oldest first. */
    method FetchAfter(id: int, cap: nat) returns (found: seq<P.Msg>)
      requires Valid()
      ensures found == P.FetchAfter(channel, trigger, id, cap)
    {
      found := [];
      var at := 0;
      while at < trigger && channel[at].id <= id
        invariant at <= trigger && forall i | 0 <= i < at :: channel[i].id <= id
      {
        at := at + 1;
      }
      var from := at;
      P.AfterIs(channel[..trigger], id, from);
      while at < trigger && |found| < cap
        invariant from <= at <= trigger && |found| == at - from <= cap && found == channel[from..at]
      {
        found := found + [channel[at]];
        at := at + 1;
      }
    }

    method Trim(groups: seq<P.Msg>) returns (kept: seq<P.Msg>)
      requires Valid()
      ensures kept == P.Trim(groups, channel[trigger].alone, config.budget)
    {
      var drop := TrimCount(groups, channel[trigger].alone, config.budget);
      kept := groups[drop..];
    }

    /** What to do about the channel's anchor, with the messages since it when they are kept. */
    method ReadAnchored(state: Option<P.AnchorState>) returns (decision: P.Decision, kept: seq<P.Msg>)
      requires Valid()
      ensures decision == P.Decide(config, channel, trigger, state)
      ensures decision.Keep? ==> kept == P.Window(config, channel, trigger, state) && P.Fits(kept, channel[trigger].alone, config.budget)
    {
      kept := [];
      var first := P.InitialDecision(state, channel[trigger].id);
      if first.Some? {
        return first.value, [];
      }
      kept := FetchAfter(state.value.afterId, P.MaxWindow(config.limit, config.refreshEvery) + 1);
      decision := P.WindowDecision(state.value, kept, config);
      if decision.Keep? && config.budget.Some? && channel[trigger].alone + P.Tokens(kept) > config.budget.value {
        decision := P.Refresh(P.TokenBudget);
      }
    }

    /** Anchored mode's window, given the channel's anchor. */
    method ChooseGroups(state: Option<P.AnchorState>) returns (decision: P.Decision, groups: seq<P.Msg>)
      requires Valid()
      ensures decision == P.Decide(config, channel, trigger, state)
      ensures groups == P.Window(config, channel, trigger, state)
    {
      decision, groups := ReadAnchored(state);
      if !decision.Keep? {
        groups := FetchRecent(config.limit - 1);
      }
      groups := Trim(groups);
    }

    /** Anchored mode: keeps or refreshes the channel's window, committing the anchor on a refresh. */
    method AnchoredGroups(store: HistoryStore) returns (groups: seq<P.Msg>)
      requires Valid() && store.Valid()
      modifies store
      ensures store.Valid()
      ensures groups == P.Window(config, channel, trigger, old(store.Lookup(key)))
      ensures store.maxChannels > 0 ==>
                store.Lookup(key) == P.NextState(config, channel, trigger, old(store.Lookup(key)))
      ensures forall k | k in store.states && k != key :: k in old(store.states) && store.states[k] == old(store.states)[k]
    {
      var state := store.Get(key);
      var decision;
      decision, groups := ChooseGroups(state);
      if decision.Refresh? {
        var _ := store.Commit(key, P.StateAfterRefresh(groups, channel[trigger].id));
      }
    }

    /** Chooses the history for the prompt, in the configured mode. */
    method SelectMessages(anchored: bool, store: HistoryStore)
      requires Valid() && store.Valid()
      modifies this, store
      ensures store.Valid()
      ensures history == if anchored then P.Window(config, channel, trigger, old(store.Lookup(key)))
                         else P.Sliding(config, channel, trigger)
      ensures !anchored ==> store.Value() == old(store.Value())
    {
      if anchored {
        history := AnchoredGroups(store);
      } else {
        var recent := FetchRecent(config.limit - 1);
        history := Trim(recent);
      }
    }
  }
}
