/** The order of use of an `OrderedDict` kept as an LRU: oldest use first, each key once. */
module LruOrder {
  predicate NoDup<K(==)>(s: seq<K>) { forall i, j | 0 <= i < j < |s| :: s[i] != s[j] }

  function Without<K(==)>(s: seq<K>, key: K): seq<K> {
    if s == [] then []
    else if s[|s|-1] == key then Without(s[..|s|-1], key) else Without(s[..|s|-1], key) + [s[|s|-1]]
  }

  /** The order after a use of `key`. */
  function Used<K(==)>(s: seq<K>, key: K): seq<K> { Without(s, key) + [key] }

  /** What is left when the oldest are dropped until at most `max` remain. */
  function Newest<K>(s: seq<K>, max: nat): seq<K> { if |s| <= max then s else s[|s| - max..] }

  lemma {:induction false} WithoutIs<K>(s: seq<K>, key: K)
    ensures forall k :: k in Without(s, key) <==> k in s && k != key
    ensures |Without(s, key)| <= |s| && (key !in s ==> Without(s, key) == s)
    ensures NoDup(s) ==> NoDup(Without(s, key)) && (key in s ==> |Without(s, key)| == |s| - 1)
    decreases |s|
  {
    if s != [] {
      WithoutIs(s[..|s|-1], key);
      assert s == s[..|s|-1] + [s[|s|-1]];
      if NoDup(s) {
        assert NoDup(s[..|s|-1]) && s[|s|-1] !in s[..|s|-1];
      }
    }
  }

  lemma {:induction false} UsedIs<K>(s: seq<K>, key: K)
    requires NoDup(s)
    ensures NoDup(Used(s, key)) && (forall k :: k in Used(s, key) <==> k in s || k == key)
    ensures |Used(s, key)| == if key in s then |s| else |s| + 1
  {
    WithoutIs(s, key);
  }

  /** The order lists exactly the keys of the dictionary, each once. */
  ghost predicate Lists<K(!new), V>(s: seq<K>, m: map<K, V>) { NoDup(s) && forall k :: k in s <==> k in m }

  lemma {:induction false} UsedLists<K(!new), V>(s: seq<K>, m: map<K, V>, key: K, value: V)
    requires Lists(s, m)
    ensures Lists(Used(s, key), m[key := value]) && |Used(s, key)| == if key in m then |s| else |s| + 1
  {
    UsedIs(s, key);
    assert forall k :: k in Used(s, key) <==> k in s || k == key;
  }

  lemma {:induction false} OldestLists<K(!new), V>(s: seq<K>, m: map<K, V>)
    requires Lists(s, m) && s != []
    ensures Lists(s[1..], m - {s[0]})
  {
    assert s == [s[0]] + s[1..];
  }

  // ---- what is used recently stays ----------------------------------------------------------------------

  /** `key` is in the order, and only members of `recent` were used after it. */
  predicate Within<K(==)>(s: seq<K>, key: K, recent: set<K>) {
    exists i | 0 <= i < |s| :: s[i] == key && forall j | i < j < |s| :: s[j] in recent
  }

  lemma {:induction false} TailSize<K>(s: seq<K>, recent: set<K>)
    requires NoDup(s) && forall k <- s :: k in recent
    ensures |s| <= |recent|
    decreases |s|
  {
    if s != [] {
      var front, last := s[..|s|-1], s[|s|-1];
      TailSize(front, recent - {last});
    }
  }

  lemma {:induction false} WithoutKeeps<K>(s: seq<K>, key: K, other: K, recent: set<K>)
    requires Within(s, key, recent) && other != key
    ensures Within(Without(s, other), key, recent)
    decreases |s|
  {
    var front, last := s[..|s|-1], s[|s|-1];
    WithoutIs(front, other);
    if last == key {
      var w := Without(s, other);
      assert w[|w|-1] == key;
    } else {
      var i :| 0 <= i < |s| && s[i] == key && forall j | i < j < |s| :: s[j] in recent;
      assert front[i] == key && forall j | i < j < |front| :: front[j] == s[j];
      WithoutKeeps(front, key, other, recent);
      if last != other {
        Snoc(Without(front, other), last, key, recent);
      }
    }
  }

  lemma {:induction false} Snoc<K>(s: seq<K>, last: K, key: K, recent: set<K>)
    requires Within(s, key, recent) && last in recent
    ensures Within(s + [last], key, recent)
  {
    var i :| 0 <= i < |s| && s[i] == key && forall j | i < j < |s| :: s[j] in recent;
    assert (s + [last])[i] == key;
  }

  lemma {:induction false} NewestKeeps<K>(s: seq<K>, key: K, recent: set<K>, max: nat)
    requires NoDup(s) && Within(s, key, recent) && |recent| < max
    ensures Within(Newest(s, max), key, recent)
  {
    var i :| 0 <= i < |s| && s[i] == key && forall j | i < j < |s| :: s[j] in recent;
    TailSize(s[i+1..], recent);
    if |s| > max {
      assert s[|s| - max..][i - (|s| - max)] == key;
    }
  }

  lemma {:induction false} NewestNoDup<K>(s: seq<K>, max: nat)
    requires NoDup(s)
    ensures NoDup(Newest(s, max)) && |Newest(s, max)| <= max
  {
  }

  lemma {:induction false} WithinUse<K>(s: seq<K>, key: K, used: K, recent: set<K>, max: nat)
    requires NoDup(s) && Within(s, key, recent) && |recent + {used} - {key}| < max && key !in recent
    ensures Within(Newest(Used(s, used), max), key, recent + {used} - {key})
  {
    var more := recent + {used} - {key};
    UsedIs(s, used);
    if used == key {
      var u := Used(s, used);
      assert u[|u|-1] == key;
    } else {
      WithoutKeeps(s, key, used, recent);
      var i :| 0 <= i < |Without(s, used)| && Without(s, used)[i] == key
               && forall j | i < j < |Without(s, used)| :: Without(s, used)[j] in recent;
      assert Used(s, used)[i] == key;
    }
    NewestKeeps(Used(s, used), key, more, max);
  }

  lemma {:induction false} WithinMore<K>(s: seq<K>, key: K, recent: set<K>, more: set<K>)
    requires Within(s, key, recent) && recent <= more
    ensures Within(s, key, more)
  {
    var i :| 0 <= i < |s| && s[i] == key && forall j | i < j < |s| :: s[j] in recent;
    assert s[i] == key && forall j | i < j < |s| :: s[j] in more;
  }
}
