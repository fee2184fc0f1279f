/** The anchors of the channels used most recently, as a value, and how long a channel keeps its own. */
module AnchorStore {
  import opened Sequences
  import opened LruOrder
  import P = HistoryPolicy

  /** A server and a channel of it. */
  type Key = (int, int)

  /** `order` is the order of use, oldest first. */
  datatype Anchors = Anchors(order: seq<Key>, states: map<Key, P.AnchorState>)

  ghost predicate AnchorsOk(v: Anchors, max: nat) { Lists(v.order, v.states) && |v.order| <= max }

  function Lookup(v: Anchors, key: Key): Option<P.AnchorState> {
    if key in v.states then Some(v.states[key]) else None
  }

  function Only<V>(m: map<Key, V>, keys: seq<Key>): map<Key, V> { map k | k in m && k in keys :: m[k] }

  /** A read marks the channel as used last. */
  function Got(v: Anchors, key: Key): Anchors {
    if key in v.states then v.(order := Used(v.order, key)) else v
  }

  /** A state with a newer trigger is stored, and the channels used longest ago make room. */
  function Committed(v: Anchors, key: Key, state: P.AnchorState, max: nat): Anchors {
    if !P.Newer(Lookup(v, key), state) then v
    else
      var order := Newest(Used(v.order, key), max);
      Anchors(order, Only(v.states[key := state], order))
  }

  // ---- runs -------------------------------------------------------------------------------------------

  datatype Use = Read(key: Key) | Write(key: Key, state: P.AnchorState)

  function Apply(v: Anchors, use: Use, max: nat): Anchors {
    if use.Read? then Got(v, use.key) else Committed(v, use.key, use.state, max)
  }

  function After(v: Anchors, uses: seq<Use>, max: nat): Anchors {
    if uses == [] then v else Apply(After(v, uses[..|uses|-1], max), uses[|uses|-1], max)
  }

  function KeysOf(uses: seq<Use>): set<Key> { set u <- uses :: u.key }

  lemma {:induction false} OnlyLists(s: seq<Key>, m: map<Key, P.AnchorState>, max: nat)
    requires Lists(s, m)
    ensures Lists(Newest(s, max), Only(m, Newest(s, max)))
  {
    NewestNoDup(s, max);
    assert forall k <- Newest(s, max) :: k in s;
  }

  lemma {:induction false} ApplyOk(v: Anchors, use: Use, max: nat)
    requires AnchorsOk(v, max)
    ensures AnchorsOk(Apply(v, use, max), max)
  {
    if use.Write? {
      UsedLists(v.order, v.states, use.key, use.state);
      OnlyLists(Used(v.order, use.key), v.states[use.key := use.state], max);
    } else if use.key in v.states {
      UsedLists(v.order, v.states, use.key, v.states[use.key]);
      assert v.states[use.key := v.states[use.key]] == v.states;
    }
  }

  /** A use either leaves the order as it was or moves its key to the end, the oldest making room. */
  lemma {:induction false} ApplyOrder(v: Anchors, use: Use, max: nat)
    requires AnchorsOk(v, max)
    ensures var r := Apply(v, use, max); r.order == v.order || r.order == Newest(Used(v.order, use.key), max)
  {
    if use.Read? && use.key in v.states {
      UsedIs(v.order, use.key);
    }
  }

  lemma {:induction false} UseKeeps(v: Anchors, key: Key, use: Use, recent: set<Key>, max: nat)
    requires AnchorsOk(v, max) && Within(v.order, key, recent) && key !in recent && |recent + {use.key} - {key}| < max
    ensures AnchorsOk(Apply(v, use, max), max) && Within(Apply(v, use, max).order, key, recent + {use.key} - {key})
  {
    ApplyOk(v, use, max);
    ApplyOrder(v, use, max);
    WithinUse(v.order, key, use.key, recent, max);
    WithinMore(v.order, key, recent, recent + {use.key} - {key});
  }

  lemma {:induction false} OthersSnoc(front: seq<Use>, last: Use, key: Key)
    ensures KeysOf(front + [last]) - {key} == KeysOf(front) - {key} + {last.key} - {key}
    ensures |KeysOf(front) - {key}| <= |KeysOf(front + [last]) - {key}|
  {
    assert forall u <- front :: u in front + [last];
    assert last in front + [last];
    SubsetSize(KeysOf(front) - {key}, KeysOf(front + [last]) - {key});
  }

  lemma {:induction false} InStates(v: Anchors, key: Key, recent: set<Key>, max: nat)
    requires AnchorsOk(v, max) && Within(v.order, key, recent)
    ensures key in v.states
  {
  }

  /** A channel just used keeps its anchor until as many other channels as the store holds have been used. */
  lemma {:induction false} StaysWhileRecent(v: Anchors, key: Key, uses: seq<Use>, max: nat)
    requires AnchorsOk(v, max) && v.order != [] && v.order[|v.order|-1] == key && |KeysOf(uses) - {key}| < max
    ensures var r := After(v, uses, max);
            AnchorsOk(r, max) && Within(r.order, key, KeysOf(uses) - {key}) && key in r.states
    decreases |uses|
  {
    if uses != [] {
      var front, last := uses[..|uses|-1], uses[|uses|-1];
      OthersSnoc(front, last, key);
      assert uses == front + [last];
      StaysWhileRecent(v, key, front, max);
      UseKeeps(After(v, front, max), key, last, KeysOf(front) - {key}, max);
    }
    InStates(After(v, uses, max), key, KeysOf(uses) - {key}, max);
  }

  const NoAnchors := Anchors([], map[])

  /** A read that finds an anchor, or a write newer than the one kept, makes the channel the one used last. */
  lemma {:induction false} UseIsLast(v: Anchors, use: Use, max: nat)
    requires AnchorsOk(v, max) && max >= 1
    requires if use.Read? then use.key in v.states
             else use.key in v.states ==> use.state.trigger > v.states[use.key].trigger
    ensures var r := Apply(v, use, max);
            && r.order != [] && r.order[|r.order|-1] == use.key && use.key in r.states
            && r.states[use.key] == if use.Read? then v.states[use.key] else use.state
  {
    ApplyOk(v, use, max);
    UsedIs(v.order, use.key);
  }

  /** The last write of the key with this state; every later write of the key has no newer trigger. */
  predicate LatestWrite(uses: seq<Use>, i: nat, key: Key, state: P.AnchorState) {
    && i < |uses| && uses[i] == Write(key, state)
    && forall j | i < j < |uses| :: uses[j].Write? && uses[j].key == key ==> uses[j].state.trigger <= state.trigger
  }

  lemma {:induction false} AfterOk(uses: seq<Use>, max: nat)
    ensures AnchorsOk(After(NoAnchors, uses, max), max)
    decreases |uses|
  {
    if uses != [] {
      AfterOk(uses[..|uses|-1], max);
      ApplyOk(After(NoAnchors, uses[..|uses|-1], max), uses[|uses|-1], max);
    }
  }

  lemma {:induction false} ApplyStates(v: Anchors, use: Use, max: nat, key: Key)
    requires AnchorsOk(v, max) && key in Apply(v, use, max).states
    ensures var state := Apply(v, use, max).states[key];
            || use == Write(key, state)
            || (key in v.states && v.states[key] == state && (use.Write? && use.key == key ==> use.state.trigger <= state.trigger))
  {
  }

  /** The anchor kept is one that was written, and no write of its channel since then was newer. */
  lemma {:induction false} HoldsNewest(uses: seq<Use>, max: nat, key: Key) returns (i: nat)
    requires key in After(NoAnchors, uses, max).states
    ensures LatestWrite(uses, i, key, After(NoAnchors, uses, max).states[key])
    decreases |uses|
  {
    var front, last := uses[..|uses|-1], uses[|uses|-1];
    var v := After(NoAnchors, front, max);
    AfterOk(front, max);
    ApplyStates(v, last, max, key);
    if last == Write(key, After(NoAnchors, uses, max).states[key]) {
      i := |uses| - 1;
    } else {
      i := HoldsNewest(front, max, key);
    }
  }

  /**
   Over any run: a channel whose anchor was found, or written anew, by use `i` still has one after every later use until
   as many other channels as the store holds have been used.
   */
  lemma {:induction false} StaysAfterUse(uses: seq<Use>, i: nat, max: nat)
    requires i < |uses| && |KeysOf(uses[i+1..]) - {uses[i].key}| < max
    requires var v, use := After(NoAnchors, uses[..i], max), uses[i];
             if use.Read? then use.key in v.states else use.key in v.states ==> use.state.trigger > v.states[use.key].trigger
    ensures uses[i].key in After(NoAnchors, uses, max).states
  {
    var v := After(NoAnchors, uses[..i], max);
    AfterOk(uses[..i], max);
    ApplyOk(v, uses[i], max);
    UseIsLast(v, uses[i], max);
    assert uses[..i+1][..i] == uses[..i];
    AfterConcat(NoAnchors, uses[..i+1], uses[i+1..], max);
    assert uses == uses[..i+1] + uses[i+1..];
    StaysWhileRecent(Apply(v, uses[i], max), uses[i].key, uses[i+1..], max);
  }

  lemma {:induction false} AfterConcat(v: Anchors, a: seq<Use>, b: seq<Use>, max: nat)
    ensures After(v, a + b, max) == After(After(v, a, max), b, max)
    decreases |b|
  {
    if b == [] {
      assert a + b == a;
    } else {
      assert (a + b)[..|a + b| - 1] == a + b[..|b|-1];
      AfterConcat(v, a, b[..|b|-1], max);
    }
  }
}
