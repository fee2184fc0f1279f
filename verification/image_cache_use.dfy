/** The cache as its users see it: what was served or stored stays while it and what was used since fit together. */
module ImageCacheUse {
  import opened Sequences
  import opened ImageCache
  import opened ImageCacheRuns
  import opened ImageCacheTheorems

  // ---- the end of the order of use ----------------------------------------------------------------------

  /** The slot is one of `keys`, of no more than the size allowed for its key. */
  predicate Allowed(x: Slot, keys: seq<Key>, size: Key -> nat) { x.key in keys && x.image.size <= size(x.key) }

  /** From position `p` on there is `slot` and then only what is allowed. */
  predicate HeldFrom(s: seq<Slot>, p: nat, slot: Slot, keys: seq<Key>, size: Key -> nat) {
    p < |s| && s[p] == slot && forall q | p <= q < |s| :: Allowed(s[q], keys, size)
  }

  ghost predicate Held(s: seq<Slot>, slot: Slot, keys: seq<Key>, size: Key -> nat) {
    exists p: nat :: HeldFrom(s, p, slot, keys, size)
  }

  lemma {:induction false} SnocHeld(s: seq<Slot>, x: Slot, slot: Slot, keys: seq<Key>, size: Key -> nat)
    requires Held(s, slot, keys, size) && Allowed(x, keys, size)
    ensures Held(s + [x], slot, keys, size)
  {
    var p: nat :| HeldFrom(s, p, slot, keys, size);
    assert HeldFrom(s + [x], p, slot, keys, size);
  }

  lemma {:induction false} LastHeld(s: seq<Slot>, slot: Slot, keys: seq<Key>, size: Key -> nat)
    requires Allowed(slot, keys, size)
    ensures Held(s + [slot], slot, keys, size)
  {
    assert HeldFrom(s + [slot], |s|, slot, keys, size);
  }

  lemma {:induction false} WithoutHeld(s: seq<Slot>, other: Key, slot: Slot, keys: seq<Key>, size: Key -> nat)
    requires Held(s, slot, keys, size) && other != slot.key
    ensures Held(Without(s, other), slot, keys, size)
    decreases |s|
  {
    var p: nat :| HeldFrom(s, p, slot, keys, size);
    var front, last := s[..|s|-1], s[|s|-1];
    if p == |s| - 1 {
      LastHeld(Without(front, other), slot, keys, size);
    } else {
      assert HeldFrom(front, p, slot, keys, size);
      WithoutHeld(front, other, slot, keys, size);
      if last.key != other {
        SnocHeld(Without(front, other), last, slot, keys, size);
      }
    }
  }

  lemma {:induction false} RemoveHeld(c: Cache, other: Key, slot: Slot, keys: seq<Key>, size: Key -> nat)
    requires Held(c.slots, slot, keys, size) && other != slot.key
    ensures Held(Remove(c, other).slots, slot, keys, size)
  {
    WithoutHeld(c.slots, other, slot, keys, size);
  }

  lemma {:induction false} RemoveAllHeld(c: Cache, others: seq<Key>, slot: Slot, keys: seq<Key>, size: Key -> nat)
    requires Held(c.slots, slot, keys, size) && slot.key !in others
    ensures Held(RemoveAll(c, others).slots, slot, keys, size)
    decreases |others|
  {
    if others != [] {
      RemoveHeld(c, others[0], slot, keys, size);
      RemoveAllHeld(Remove(c, others[0]), others[1..], slot, keys, size);
    }
  }

  // ---- eviction ---------------------------------------------------------------------------------------------

  lemma {:induction false} SumWithout(size: Key -> nat, keys: seq<Key>, i: nat)
    requires i < |keys|
    ensures Sum(size, keys) == Sum(size, keys[..i] + keys[i+1..]) + size(keys[i])
    decreases |keys|
  {
    var n := |keys| - 1;
    if i == n {
      assert keys[..i] + keys[i+1..] == keys[..n];
    } else {
      SumWithout(size, keys[..n], i);
      var rest := keys[..i] + keys[i+1..];
      assert rest[..|rest|-1] == keys[..n][..i] + keys[..n][i+1..] && rest[|rest|-1] == keys[n];
    }
  }

  /** Entries of different keys, all allowed, take no more than is allowed for the keys together. */
  lemma {:induction false} AllowedTotal(t: seq<Slot>, keys: seq<Key>, size: Key -> nat)
    requires Distinct(t) && forall x <- t :: Allowed(x, keys, size)
    ensures Total(t) <= Sum(size, keys)
    decreases |t|
  {
    if t != [] {
      var front, last := t[..|t|-1], t[|t|-1];
      assert last in t;
      var i :| 0 <= i < |keys| && keys[i] == last.key;
      var rest := keys[..i] + keys[i+1..];
      forall x <- front ensures Allowed(x, rest, size) {
        assert x in t;
        var j :| 0 <= j < |keys| && keys[j] == x.key;
        assert if j < i then rest[j] == x.key else rest[j-1] == x.key;
      }
      AllowedTotal(front, rest, size);
      SumWithout(size, keys, i);
    }
  }

  lemma {:induction false} HeldRest(s: seq<Slot>, slot: Slot, keys: seq<Key>, size: Key -> nat, maxBytes: nat)
    requires Distinct(s) && Held(s, slot, keys, size) && Total(s) > maxBytes >= Sum(size, keys)
    ensures Held(s[1..], slot, keys, size)
  {
    var p: nat :| HeldFrom(s, p, slot, keys, size);
    if p == 0 {
      AllowedTotal(s, keys, size);
    } else {
      assert HeldFrom(s[1..], p - 1, slot, keys, size);
    }
  }

  /** What may stay together is not evicted. */
  lemma {:induction false} EvictHeld(c: Cache, maxBytes: nat, slot: Slot, keys: seq<Key>, size: Key -> nat)
    requires CacheOk(c) && Held(c.slots, slot, keys, size) && Sum(size, keys) <= maxBytes
    ensures Held(Evict(c, maxBytes).slots, slot, keys, size)
    decreases |c.slots|
  {
    if c.bytes > maxBytes && c.slots != [] {
      HeldRest(c.slots, slot, keys, size, maxBytes);
      DropOldestOk(c);
      EvictHeld(DropOldest(c), maxBytes, slot, keys, size);
    }
  }

  // ---- what a step uses --------------------------------------------------------------------------------------

  /** The step serves this image, or its load ends and the image is kept. */
  predicate Used(l: Limits, w: World, step: Step, key: Key, image: Image)
    requires CanStep(w, step)
  {
    match step
    case AskFor(k, _) => k == key && Ask(w.cache, key, w.now) == Hit(image)
    case Callback(task) =>
      && w.loads[task].key == key && w.loads[task].phase.result == Some(image)
      && Ask(Apply(l, w, step).cache, key, w.now) == Hit(image)
    case _ => false
  }

  /** The step uses only images of these keys, none larger than its key is allowed. */
  ghost predicate UsesOnly(l: Limits, w: World, step: Step, keys: seq<Key>, size: Key -> nat)
    requires CanStep(w, step)
  {
    forall key, image :: Used(l, w, step, key, image) ==> key in keys && image.size <= size(key)
  }

  predicate Forgets(step: Step, message: Message) { step.Forget? && step.message == message }

  /** What is kept is not being loaded. */
  predicate Settled(c: Cache) { forall x <- c.slots :: x.key !in c.inflight }

  lemma {:induction false} GetMisses(c: Cache, key: Key, now: int)
    requires Lookup(c, key, now).None?
    ensures Lacks(Get(c, key, now), key)
  {
  }

  lemma {:induction false} StepSettled(l: Limits, w: World, step: Step)
    requires LoadsOk(l, w) && Settled(w.cache) && CanStep(w, step)
    ensures Settled(Apply(l, w, step).cache)
  {
    match step
    case AskFor(key, task) =>
      AskRecords(w.cache, key, task, w.now);
      if Lookup(w.cache, key, w.now).None? {
        GetMisses(w.cache, key, w.now);
      }
    case Callback(task) =>
      var load := w.loads[task];
      FinishRecords(w.cache, l, load.key, task, load.phase.result, load.started, w.now);
    case Forget(m, deleted) => InvalidateRecords(w.cache, l, m, deleted, w.now);
    case _ =>
  }

  // ---- one step ------------------------------------------------------------------------------------------------

  lemma {:induction false} HeldIn(s: seq<Slot>, slot: Slot, keys: seq<Key>, size: Key -> nat)
    requires Held(s, slot, keys, size)
    ensures slot in s && Allowed(slot, keys, size)
  {
    var p: nat :| HeldFrom(s, p, slot, keys, size);
  }

  lemma {:induction false} SameKey(s: seq<Slot>, a: Slot, b: Slot)
    requires Distinct(s) && a in s && b in s && a.key == b.key
    ensures a == b
  {
    OnlySlot(Empty.(slots := s), a);
    OnlySlot(Empty.(slots := s), b);
  }

  lemma {:induction false} AskHeld(c: Cache, key: Key, now: int, slot: Slot, keys: seq<Key>, size: Key -> nat)
    requires CacheOk(c) && Held(c.slots, slot, keys, size) && now < slot.expiresAt
    requires Lookup(c, key, now).Some? ==> key in keys && Lookup(c, key, now).value.size <= size(key)
    ensures Held(Get(c, key, now).slots, slot, keys, size)
  {
    HeldIn(c.slots, slot, keys, size);
    OnlySlot(c, slot);
    var found := Find(c.slots, key);
    if found.Some? {
      if now >= found.value.expiresAt {
        RemoveHeld(c, key, slot, keys, size);
      } else if key == slot.key {
        LastHeld(Without(c.slots, key), slot, keys, size);
      } else {
        WithoutHeld(c.slots, key, slot, keys, size);
        SnocHeld(Without(c.slots, key), found.value, slot, keys, size);
      }
    }
  }

  lemma {:induction false} RoomHeld(c: Cache, key: Key, now: int, slot: Slot, keys: seq<Key>, size: Key -> nat)
    requires CacheOk(c) && Held(c.slots, slot, keys, size) && now < slot.expiresAt && key != slot.key
    ensures Held(Room(c, key, now).slots, slot, keys, size)
  {
    HeldIn(c.slots, slot, keys, size);
    var past := Keys(Expired(now), c.slots);
    if slot.key in past {
      var x :| x in c.slots && Expired(now)(x) && x.key == slot.key;
      SameKey(c.slots, x, slot);
    }
    RemoveAllHeld(c, past, slot, keys, size);
    RemoveHeld(Expire(c, now), key, slot, keys, size);
  }

  lemma {:induction false} StoreHeld(c: Cache, l: Limits, key: Key, image: Image, now: int, slot: Slot, keys: seq<Key>, size: Key -> nat)
    requires CacheOk(c) && Held(c.slots, slot, keys, size) && now < slot.expiresAt && key != slot.key
    requires Sum(size, keys) <= l.maxBytes && (image.size <= l.maxBytes ==> key in keys && image.size <= size(key))
    ensures Held(Store(c, l, key, image, now).slots, slot, keys, size)
  {
    if image.size <= l.maxBytes {
      var room, added := Room(c, key, now), Slot(key, image, now + l.ttl);
      RoomOk(c, key, now);
      RoomHeld(c, key, now, slot, keys, size);
      AppendOk(room, added);
      SnocHeld(room.slots, added, slot, keys, size);
      EvictHeld(Append(room, added), l.maxBytes, slot, keys, size);
    }
  }

  lemma {:induction false} SlotIsServed(c: Cache, slot: Slot, now: int)
    requires Distinct(c.slots) && slot in c.slots && now < slot.expiresAt
    ensures Ask(c, slot.key, now) == Hit(slot.image)
  {
    OnlySlot(c, slot);
  }

  /** An image that fits and is wanted is served at once after its load. */
  lemma {:induction false} StoredIsUsed(l: Limits, w: World, task: Task)
    requires LoadsOk(l, w) && CanStep(w, Callback(task)) && l.ttl > 0
    requires w.loads[task].phase.result.Some? && w.loads[task].phase.result.value.size <= l.maxBytes
    requires Wanted(w.cache, w.loads[task].key, w.loads[task].started)
    ensures Used(l, w, Callback(task), w.loads[task].key, w.loads[task].phase.result.value)
  {
    var load := w.loads[task];
    FinishRecords(w.cache, l, load.key, task, load.phase.result, load.started, w.now);
    var r := Finish(w.cache, l, load.key, task, load.phase.result, load.started, w.now);
    SlotIsServed(r, Slot(load.key, load.phase.result.value, w.now + l.ttl), w.now);
  }

  lemma {:induction false} FinishHeld(l: Limits, w: World, task: Task, slot: Slot, keys: seq<Key>, size: Key -> nat)
    requires LoadsOk(l, w) && Settled(w.cache) && CanStep(w, Callback(task)) && l.ttl > 0
    requires Held(w.cache.slots, slot, keys, size) && w.now < slot.expiresAt
    requires UsesOnly(l, w, Callback(task), keys, size) && Sum(size, keys) <= l.maxBytes
    ensures Held(Apply(l, w, Callback(task)).cache.slots, slot, keys, size)
  {
    var load := w.loads[task];
    HeldIn(w.cache.slots, slot, keys, size);
    assert load.key in w.cache.inflight && load.key != slot.key;
    var done := w.cache.(inflight := w.cache.inflight - {load.key});
    if load.phase.result.Some? && Wanted(w.cache, load.key, load.started) {
      if load.phase.result.value.size <= l.maxBytes {
        StoredIsUsed(l, w, task);
      }
      StoreHeld(done, l, load.key, load.phase.result.value, w.now, slot, keys, size);
    }
  }

  lemma {:induction false} ForgetHeld(l: Limits, w: World, m: Message, deleted: bool, slot: Slot, keys: seq<Key>, size: Key -> nat)
    requires Held(w.cache.slots, slot, keys, size) && m != MessageOf(slot.key)
    ensures Held(Apply(l, w, Forget(m, deleted)).cache.slots, slot, keys, size)
  {
    var kept := Pruned(w.cache.invalidated, w.now, l.ttl);
    var record := Invalidation(w.cache.generation + 1, deleted || (m in kept && kept[m].deleted), w.now);
    var marked := w.cache.(generation := w.cache.generation + 1, invalidated := kept[m := record]);
    RemoveAllHeld(marked, Keys(Belongs(m), w.cache.slots), slot, keys, size);
  }

  lemma {:induction false} StepHeld(l: Limits, w: World, step: Step, slot: Slot, keys: seq<Key>, size: Key -> nat)
    requires LoadsOk(l, w) && Settled(w.cache) && CanStep(w, step) && l.ttl > 0
    requires Held(w.cache.slots, slot, keys, size) && w.now < slot.expiresAt
    requires UsesOnly(l, w, step, keys, size) && Sum(size, keys) <= l.maxBytes && !Forgets(step, MessageOf(slot.key))
    ensures Held(Apply(l, w, step).cache.slots, slot, keys, size)
  {
    match step
    case AskFor(key, task) =>
      if Lookup(w.cache, key, w.now).Some? {
        assert Used(l, w, step, key, Lookup(w.cache, key, w.now).value);
      }
      AskHeld(w.cache, key, w.now, slot, keys, size);
    case Callback(task) => FinishHeld(l, w, task, slot, keys, size);
    case Forget(m, deleted) => ForgetHeld(l, w, m, deleted, slot, keys, size);
    case _ =>
  }

  lemma {:induction false} StoredIsLast(l: Limits, w: World, task: Task, key: Key, image: Image, keys: seq<Key>, size: Key -> nat)
    returns (slot: Slot)
    requires LoadsOk(l, w) && Settled(w.cache) && CanStep(w, Callback(task)) && Used(l, w, Callback(task), key, image)
    requires key in keys && image.size <= size(key) && Sum(size, keys) <= l.maxBytes
    ensures slot.key == key && slot.image == image && Held(Apply(l, w, Callback(task)).cache.slots, slot, keys, size)
  {
    slot := Slot(key, image, w.now + l.ttl);
    var done := w.cache.(inflight := w.cache.inflight - {key});
    var room := Room(done, key, w.now);
    var found := Find(Apply(l, w, Callback(task)).cache.slots, key).value;
    assert found !in w.cache.slots;
    assert Apply(l, w, Callback(task)).cache == Evict(Append(room, slot), l.maxBytes);
    RoomOk(done, key, w.now);
    AppendOk(room, slot);
    LastHeld(room.slots, slot, keys, size);
    EvictHeld(Append(room, slot), l.maxBytes, slot, keys, size);
  }

  /** What a step uses is last in the order afterwards. */
  lemma {:induction false} UsedIsLast(l: Limits, w: World, step: Step, key: Key, image: Image, keys: seq<Key>, size: Key -> nat)
    returns (slot: Slot)
    requires LoadsOk(l, w) && Settled(w.cache) && CanStep(w, step) && UsesOnly(l, w, step, keys, size) && Used(l, w, step, key, image)
    requires Sum(size, keys) <= l.maxBytes
    ensures slot.key == key && slot.image == image && Held(Apply(l, w, step).cache.slots, slot, keys, size)
  {
    match step
    case AskFor(_, _) =>
      slot := Find(w.cache.slots, key).value;
      LastHeld(Without(w.cache.slots, key), slot, keys, size);
    case Callback(task) =>
      slot := StoredIsLast(l, w, task, key, image, keys, size);
  }

  /** A load that fits, and during which its message was not invalidated, is served from the moment it ends. */
  lemma {:induction false} LoadIsServed(l: Limits, steps: seq<Step>, task: Task)
    requires ValidRun(l, steps) && CanStep(Run(l, steps), Callback(task)) && l.ttl > 0
    requires var load := Run(l, steps).loads[task];
             load.phase.result.Some? && load.phase.result.value.size <= l.maxBytes && !Stale(Run(l, steps), load)
    ensures var w, load := Run(l, steps), Run(l, steps).loads[task];
            Ask(Apply(l, w, Callback(task)).cache, load.key, w.now) == Hit(load.phase.result.value)
  {
    RunOk(l, steps);
    var w := Run(l, steps);
    var load := w.loads[task];
    var m := MessageOf(load.key);
    if m in w.cache.invalidated {
      assert RecordOk(w, m) && w.history[w.cache.invalidated[m].generation - 1].message == m;
    }
    StoredIsUsed(l, w, task);
  }

  // ---- any run ---------------------------------------------------------------------------------------------------

  lemma {:induction false} PrefixValid(l: Limits, steps: seq<Step>, n: nat)
    requires ValidRun(l, steps) && n <= |steps|
    ensures ValidRun(l, steps[..n])
    decreases |steps|
  {
    if n == |steps| {
      assert steps[..n] == steps;
    } else {
      PrefixValid(l, steps[..|steps|-1], n);
      assert steps[..|steps|-1][..n] == steps[..n];
    }
  }

  /** The world after the first `n` steps. */
  function WorldAt(l: Limits, steps: seq<Step>, n: nat): World
    requires ValidRun(l, steps) && n <= |steps|
  {
    PrefixValid(l, steps, n);
    Run(l, steps[..n])
  }

  lemma {:induction false} NextWorld(l: Limits, steps: seq<Step>, n: nat)
    requires ValidRun(l, steps) && n < |steps|
    ensures CanStep(WorldAt(l, steps, n), steps[n])
    ensures WorldAt(l, steps, n + 1) == Apply(l, WorldAt(l, steps, n), steps[n])
    ensures WorldOk(l, WorldAt(l, steps, n))
  {
    PrefixValid(l, steps, n);
    PrefixValid(l, steps, n + 1);
    RunOk(l, steps[..n]);
    assert steps[..n+1][..n] == steps[..n];
  }

  lemma {:induction false} AlwaysSettled(l: Limits, steps: seq<Step>, n: nat)
    requires ValidRun(l, steps) && n <= |steps|
    ensures Settled(WorldAt(l, steps, n).cache)
  {
    if n > 0 {
      AlwaysSettled(l, steps, n - 1);
      NextWorld(l, steps, n - 1);
      StepSettled(l, WorldAt(l, steps, n - 1), steps[n-1]);
    }
  }

  lemma {:induction false} TimePasses(l: Limits, steps: seq<Step>, m: nat, n: nat)
    requires ValidRun(l, steps) && m <= n <= |steps|
    ensures WorldAt(l, steps, m).now <= WorldAt(l, steps, n).now
    decreases n
  {
    if m < n {
      TimePasses(l, steps, m, n - 1);
      NextWorld(l, steps, n - 1);
    }
  }

  /** The load of this image ends in step `j`, and nothing has invalidated its message since. */
  predicate LoadedAt(l: Limits, steps: seq<Step>, j: nat, n: nat, key: Key, image: Image)
    requires ValidRun(l, steps) && n <= |steps|
  {
    && j < n && steps[j] == Callback(image.task)
    && image.task in WorldAt(l, steps, j).loads
    && WorldAt(l, steps, j).loads[image.task].key == key
    && WorldAt(l, steps, j).loads[image.task].phase == Loaded(Some(image))
    && forall i | j < i < n :: !Forgets(steps[i], MessageOf(key))
  }

  /** A slot comes from the load that produced its image, and expires a time to live after it. */
  predicate Origin(l: Limits, steps: seq<Step>, j: nat, n: nat, slot: Slot)
    requires ValidRun(l, steps) && n <= |steps|
  {
    LoadedAt(l, steps, j, n, slot.key, slot.image) && slot.expiresAt == WorldAt(l, steps, j).now + l.ttl
  }

  lemma {:induction false} OriginStays(l: Limits, steps: seq<Step>, j: nat, n: nat, slot: Slot)
    requires ValidRun(l, steps) && n < |steps| && Origin(l, steps, j, n, slot) && !Forgets(steps[n], MessageOf(slot.key))
    ensures Origin(l, steps, j, n + 1, slot)
  {
  }

  lemma {:induction false} AtFirst(l: Limits, steps: seq<Step>)
    requires ValidRun(l, steps)
    ensures WorldAt(l, steps, 0) == Start
  {
  }

  /** A slot that was not there a step ago comes from that step, any other from where it came from then. */
  lemma {:induction false} NextOrigin(l: Limits, steps: seq<Step>, n: nat, slot: Slot)
    requires ValidRun(l, steps) && n < |steps| && slot in WorldAt(l, steps, n + 1).cache.slots
    ensures slot in WorldAt(l, steps, n).cache.slots ==> !Forgets(steps[n], MessageOf(slot.key))
    ensures slot !in WorldAt(l, steps, n).cache.slots ==> Origin(l, steps, n, n + 1, slot)
  {
    NextWorld(l, steps, n);
    var w := WorldAt(l, steps, n);
    if slot in w.cache.slots {
      KeptIsNotForgotten(l, w, steps[n], slot);
    } else {
      AddedIsLoaded(l, w, steps[n], slot);
    }
  }

  lemma {:induction false} SlotOrigin(l: Limits, steps: seq<Step>, n: nat, slot: Slot) returns (j: nat)
    requires ValidRun(l, steps) && n <= |steps| && slot in WorldAt(l, steps, n).cache.slots
    ensures Origin(l, steps, j, n, slot)
    decreases n
  {
    AtFirst(l, steps);
    NextOrigin(l, steps, n - 1, slot);
    if slot in WorldAt(l, steps, n - 1).cache.slots {
      j := SlotOrigin(l, steps, n - 1, slot);
      OriginStays(l, steps, j, n - 1, slot);
    } else {
      j := n - 1;
    }
  }

  lemma {:induction false} KeptIsNotForgotten(l: Limits, w: World, step: Step, slot: Slot)
    requires WorldOk(l, w) && CanStep(w, step) && slot in Apply(l, w, step).cache.slots
    ensures !Forgets(step, MessageOf(slot.key))
  {
    if step.Forget? {
      InvalidateRecords(w.cache, l, step.message, step.deleted, w.now);
    }
  }

  lemma {:induction false} AddedIsLoaded(l: Limits, w: World, step: Step, slot: Slot)
    requires WorldOk(l, w) && CanStep(w, step) && slot in Apply(l, w, step).cache.slots && slot !in w.cache.slots
    ensures step == Callback(slot.image.task) && slot.image.task in w.loads && w.loads[slot.image.task].key == slot.key
    ensures w.loads[slot.image.task].phase == Loaded(Some(slot.image)) && slot.expiresAt == w.now + l.ttl
  {
    match step
    case AskFor(key, task) => AskRecords(w.cache, key, task, w.now);
    case Callback(task) =>
      var load := w.loads[task];
      FinishRecords(w.cache, l, load.key, task, load.phase.result, load.started, w.now);
      StoreKeeps(w.cache.(inflight := w.cache.inflight - {load.key}), l, load.key, load.phase.result.value, w.now);
    case Forget(m, deleted) => InvalidateRecords(w.cache, l, m, deleted, w.now);
    case _ =>
  }

  /** A load ends once. */
  lemma {:induction false} StaysOver(l: Limits, steps: seq<Step>, j: nat, n: nat)
    requires ValidRun(l, steps) && j < n <= |steps| && steps[j].Callback?
    ensures var loads := WorldAt(l, steps, n).loads; steps[j].task in loads && loads[steps[j].task].phase.Over?
    decreases n
  {
    NextWorld(l, steps, n - 1);
    if j < n - 1 {
      StaysOver(l, steps, j, n - 1);
    }
  }

  lemma {:induction false} LoadedOnce(l: Limits, steps: seq<Step>, i: nat, j: nat)
    requires ValidRun(l, steps) && i < |steps| && j < |steps| && steps[i].Callback? && steps[i] == steps[j]
    ensures i == j
  {
    NextWorld(l, steps, i);
    NextWorld(l, steps, j);
    if i < j {
      StaysOver(l, steps, i, j);
    } else if j < i {
      StaysOver(l, steps, j, i);
    }
  }

  /**
   Every image served was loaded for that very attachment less than a time to live ago, and its message has not been
   invalidated since that load ended.
   */
  lemma {:induction false} HitsAreFresh(l: Limits, steps: seq<Step>, n: nat, key: Key) returns (j: nat)
    requires ValidRun(l, steps) && n <= |steps| && Ask(WorldAt(l, steps, n).cache, key, WorldAt(l, steps, n).now).Hit?
    ensures LoadedAt(l, steps, j, n, key, Ask(WorldAt(l, steps, n).cache, key, WorldAt(l, steps, n).now).image)
    ensures WorldAt(l, steps, n).now < WorldAt(l, steps, j).now + l.ttl
  {
    j := SlotOrigin(l, steps, n, Find(WorldAt(l, steps, n).cache.slots, key).value);
  }

  /** Step `i` uses only images of these keys and sizes, and does not invalidate the message. */
  ghost predicate Harmless(l: Limits, steps: seq<Step>, i: nat, message: Message, keys: seq<Key>, size: Key -> nat)
    requires ValidRun(l, steps) && i < |steps|
  {
    && !Forgets(steps[i], message)
    && CanStep(WorldAt(l, steps, i), steps[i]) && UsesOnly(l, WorldAt(l, steps, i), steps[i], keys, size)
  }

  /** The steps from `k` up to `n` are all such. */
  ghost predicate Undisturbed(l: Limits, steps: seq<Step>, k: nat, n: nat, message: Message, keys: seq<Key>, size: Key -> nat)
    requires ValidRun(l, steps) && n <= |steps|
  {
    forall i | k <= i < n :: Harmless(l, steps, i, message, keys, size)
  }

  lemma {:induction false} NextHeld(l: Limits, steps: seq<Step>, n: nat, slot: Slot, keys: seq<Key>, size: Key -> nat)
    requires ValidRun(l, steps) && n < |steps| && l.ttl > 0 && Sum(size, keys) <= l.maxBytes
    requires Held(WorldAt(l, steps, n).cache.slots, slot, keys, size) && WorldAt(l, steps, n + 1).now < slot.expiresAt
    requires Harmless(l, steps, n, MessageOf(slot.key), keys, size)
    ensures Held(WorldAt(l, steps, n + 1).cache.slots, slot, keys, size)
  {
    TimePasses(l, steps, n, n + 1);
    AlwaysSettled(l, steps, n);
    NextWorld(l, steps, n);
    StepHeld(l, WorldAt(l, steps, n), steps[n], slot, keys, size);
  }

  lemma {:induction false} StaysHeld(l: Limits, steps: seq<Step>, k: nat, n: nat, slot: Slot, keys: seq<Key>, size: Key -> nat)
    requires ValidRun(l, steps) && k < n <= |steps| && l.ttl > 0 && Sum(size, keys) <= l.maxBytes
    requires Held(WorldAt(l, steps, k + 1).cache.slots, slot, keys, size) && WorldAt(l, steps, n).now < slot.expiresAt
    requires Undisturbed(l, steps, k, n, MessageOf(slot.key), keys, size)
    ensures Held(WorldAt(l, steps, n).cache.slots, slot, keys, size)
    decreases n
  {
    if n > k + 1 {
      TimePasses(l, steps, n - 1, n);
      StaysHeld(l, steps, k, n - 1, slot, keys, size);
      NextHeld(l, steps, n - 1, slot, keys, size);
    }
  }

  lemma {:induction false} UsedSlot(l: Limits, steps: seq<Step>, j: nat, k: nat, key: Key, image: Image, keys: seq<Key>, size: Key -> nat)
    returns (slot: Slot)
    requires ValidRun(l, steps) && j <= k < |steps| && steps[j] == Callback(image.task)
    requires Harmless(l, steps, k, MessageOf(key), keys, size)
    requires Sum(size, keys) <= l.maxBytes && Used(l, WorldAt(l, steps, k), steps[k], key, image)
    ensures slot == Slot(key, image, WorldAt(l, steps, j).now + l.ttl)
    ensures Held(WorldAt(l, steps, k + 1).cache.slots, slot, keys, size)
  {
    AlwaysSettled(l, steps, k);
    NextWorld(l, steps, k);
    slot := UsedIsLast(l, WorldAt(l, steps, k), steps[k], key, image, keys, size);
    HeldIn(WorldAt(l, steps, k + 1).cache.slots, slot, keys, size);
    var o := SlotOrigin(l, steps, k + 1, slot);
    LoadedOnce(l, steps, o, j);
  }

  /**
   An image loaded in step `j` and served, or kept, in step `k` is served again for as long as its time to live from
   its load, if its message is not invalidated meanwhile and if it and the other images used from then on fit the
   cache together: `keys` holds every attachment used, `size` how large its images may be.
   */
  lemma {:induction false} StaysWhileItFits(
    l: Limits, steps: seq<Step>, j: nat, k: nat, n: nat, key: Key, image: Image, keys: seq<Key>, size: Key -> nat)
    requires ValidRun(l, steps) && j <= k < n <= |steps|
    requires steps[j] == Callback(image.task) && WorldAt(l, steps, n).now < WorldAt(l, steps, j).now + l.ttl
    requires Undisturbed(l, steps, k, n, MessageOf(key), keys, size) && Sum(size, keys) <= l.maxBytes
    requires Harmless(l, steps, k, MessageOf(key), keys, size) && Used(l, WorldAt(l, steps, k), steps[k], key, image)
    ensures Ask(WorldAt(l, steps, n).cache, key, WorldAt(l, steps, n).now) == Hit(image)
  {
    TimePasses(l, steps, j, n);
    var slot := UsedSlot(l, steps, j, k, key, image, keys, size);
    StaysHeld(l, steps, k, n, slot, keys, size);
    LastIsServed(l, steps, n, slot, keys, size);
  }

  lemma {:induction false} LastIsServed(l: Limits, steps: seq<Step>, n: nat, slot: Slot, keys: seq<Key>, size: Key -> nat)
    requires ValidRun(l, steps) && n <= |steps| && WorldAt(l, steps, n).now < slot.expiresAt
    requires Held(WorldAt(l, steps, n).cache.slots, slot, keys, size)
    ensures Ask(WorldAt(l, steps, n).cache, slot.key, WorldAt(l, steps, n).now) == Hit(slot.image)
  {
    PrefixValid(l, steps, n);
    RunOk(l, steps[..n]);
    HeldIn(WorldAt(l, steps, n).cache.slots, slot, keys, size);
    SlotIsServed(WorldAt(l, steps, n).cache, slot, WorldAt(l, steps, n).now);
  }
}
