/**
 Encoded images kept for prompt builds, as a value: what each operation of the cache does to all of its state.
 An encoded image stands for itself by its size and the load that produced it.
 */
module ImageCache {
  import opened Sequences

  type Task = nat

  datatype Key = Key(channel: int, message: int, attachment: int)

  /** Which message an attachment belongs to. */
  type Message = (int, int)

  function MessageOf(key: Key): Message { (key.channel, key.message) }

  datatype Image = Image(size: nat, task: Task)
  datatype Slot = Slot(key: Key, image: Image, expiresAt: int)
  datatype Invalidation = Invalidation(generation: nat, deleted: bool, at: int)

  datatype Limits = Limits(maxBytes: nat, ttl: nat)

  /** `slots` is the ordered dictionary, oldest use first. */
  datatype Cache = Cache(
    slots: seq<Slot>, bytes: int, inflight: map<Key, Task>, generation: nat, invalidated: map<Message, Invalidation>)

  const Empty := Cache([], 0, map[], 0, map[])

  /** No key twice. */
  predicate Distinct(s: seq<Slot>) {
    s == [] || (Distinct(s[..|s|-1]) && forall x <- s[..|s|-1] :: x.key != s[|s|-1].key)
  }

  function Find(s: seq<Slot>, key: Key): (r: Option<Slot>)
    ensures r.Some? ==> r.value in s && r.value.key == key
    ensures r.None? ==> forall x <- s :: x.key != key
  {
    if s == [] then None
    else
      assert s == s[..|s|-1] + [s[|s|-1]];
      if s[|s|-1].key == key then Some(s[|s|-1]) else Find(s[..|s|-1], key)
  }

  function Without(s: seq<Slot>, key: Key): (r: seq<Slot>)
    ensures |r| <= |s| && forall x :: x in r <==> x in s && x.key != key
  {
    if s == [] then []
    else
      var rest, last := Without(s[..|s|-1], key), s[|s|-1];
      assert s == s[..|s|-1] + [last];
      if last.key == key then rest else rest + [last]
  }

  function Total(s: seq<Slot>): nat {
    if s == [] then 0 else Total(s[..|s|-1]) + s[|s|-1].image.size
  }

  /** Each key once, and the byte counter is the total size. */
  predicate CacheOk(c: Cache) { Distinct(c.slots) && c.bytes == Total(c.slots) }

  predicate Lacks(c: Cache, key: Key) { forall x <- c.slots :: x.key != key }

  function Remove(c: Cache, key: Key): Cache {
    var slot := Find(c.slots, key);
    if slot.None? then c else c.(slots := Without(c.slots, key), bytes := c.bytes - slot.value.image.size)
  }

  /** Removes these keys one by one. */
  function RemoveAll(c: Cache, keys: seq<Key>): Cache
    decreases |keys|
  {
    if keys == [] then c else RemoveAll(Remove(c, keys[0]), keys[1..])
  }

  /** The keys of the slots that satisfy `p`, in order. */
  function Keys(p: Slot -> bool, s: seq<Slot>): (r: seq<Key>)
    ensures forall k :: k in r <==> exists x :: x in s && p(x) && x.key == k
  {
    if s == [] then []
    else
      var rest, last := Keys(p, s[..|s|-1]), s[|s|-1];
      assert s == s[..|s|-1] + [last];
      if p(last) then rest + [last.key] else rest
  }

  function Expired(now: int): Slot -> bool { (s: Slot) => now >= s.expiresAt }

  function Belongs(message: Message): Slot -> bool { (s: Slot) => MessageOf(s.key) == message }

  function Expire(c: Cache, now: int): Cache { RemoveAll(c, Keys(Expired(now), c.slots)) }

  function DropOldest(c: Cache): Cache
    requires c.slots != []
  {
    c.(slots := c.slots[1..], bytes := c.bytes - c.slots[0].image.size)
  }

  /** Drops the entries used longest ago until the rest fits. */
  function Evict(c: Cache, maxBytes: nat): Cache
    decreases |c.slots|
  {
    if c.bytes <= maxBytes || c.slots == [] then c else Evict(DropOldest(c), maxBytes)
  }

  function Append(c: Cache, slot: Slot): Cache { c.(slots := c.slots + [slot], bytes := c.bytes + slot.image.size) }

  /** What a new entry is put behind: neither expired entries nor an older one for its key. */
  function Room(c: Cache, key: Key, now: int): Cache { Remove(Expire(c, now), key) }

  function Store(c: Cache, limits: Limits, key: Key, image: Image, now: int): Cache {
    if image.size > limits.maxBytes then c
    else Evict(Append(Room(c, key, now), Slot(key, image, now + limits.ttl)), limits.maxBytes)
  }

  // ---- the operations callers use --------------------------------------------------------------------

  datatype Outcome = Hit(image: Image) | Miss | Coalesced(task: Task)

  function Lookup(c: Cache, key: Key, now: int): Option<Image> {
    var slot := Find(c.slots, key);
    if slot.Some? && now < slot.value.expiresAt then Some(slot.value.image) else None
  }

  function Get(c: Cache, key: Key, now: int): Cache {
    var slot := Find(c.slots, key);
    if slot.None? then c
    else if now >= slot.value.expiresAt then Remove(c, key)
    else c.(slots := Without(c.slots, key) + [slot.value])
  }

  /** What a build asking for an image gets: the image, a load to wait for, or a load of its own. */
  function Ask(c: Cache, key: Key, now: int): Outcome {
    if Lookup(c, key, now).Some? then Hit(Lookup(c, key, now).value)
    else if key in c.inflight then Coalesced(c.inflight[key])
    else Miss
  }

  function AskState(c: Cache, key: Key, task: Task, now: int): Cache {
    var read := Get(c, key, now);
    if Ask(c, key, now).Miss? then read.(inflight := read.inflight[key := task]) else read
  }

  /** Whether a load that began at `started` may still be kept. */
  predicate Wanted(c: Cache, key: Key, started: nat) {
    MessageOf(key) in c.invalidated ==> c.invalidated[MessageOf(key)].generation <= started
  }

  function Finish(c: Cache, limits: Limits, key: Key, task: Task, result: Option<Image>, started: nat, now: int): Cache {
    var done := if key in c.inflight && c.inflight[key] == task then c.(inflight := c.inflight - {key}) else c;
    if result.None? || !Wanted(done, key, started) then done else Store(done, limits, key, result.value, now)
  }

  function Pruned(m: map<Message, Invalidation>, now: int, ttl: nat): map<Message, Invalidation> {
    map k <- m | now - m[k].at <= ttl :: m[k]
  }

  function Invalidate(c: Cache, limits: Limits, message: Message, deleted: bool, now: int): Cache {
    var kept := Pruned(c.invalidated, now, limits.ttl);
    var record := Invalidation(c.generation + 1, deleted || (message in kept && kept[message].deleted), now);
    RemoveAll(c.(generation := c.generation + 1, invalidated := kept[message := record]), Keys(Belongs(message), c.slots))
  }

  /** Which of these messages of a channel were deleted after a generation. */
  function DeletedSince(c: Cache, generation: nat, channel: int, ids: seq<int>): set<int> {
    set id | id in ids && (channel, id) in c.invalidated
             && c.invalidated[(channel, id)].deleted && c.invalidated[(channel, id)].generation > generation
  }

  // ---- the byte counter ---------------------------------------------------------------------------------

  lemma {:induction false} DistinctSnoc(s: seq<Slot>, slot: Slot)
    requires Distinct(s) && forall x <- s :: x.key != slot.key
    ensures Distinct(s + [slot])
  {
    assert (s + [slot])[..|s|] == s;
  }

  lemma {:induction false} TotalSnoc(s: seq<Slot>, slot: Slot)
    ensures Total(s + [slot]) == Total(s) + slot.image.size
  {
    assert (s + [slot])[..|s|] == s;
  }

  function SizeOf(slot: Option<Slot>): nat { if slot.Some? then slot.value.image.size else 0 }

  lemma {:induction false} TotalWithout(s: seq<Slot>, key: Key)
    requires Distinct(s)
    ensures Distinct(Without(s, key)) && Total(s) == Total(Without(s, key)) + SizeOf(Find(s, key))
    decreases |s|
  {
    if s != [] {
      var front, last := s[..|s|-1], s[|s|-1];
      TotalWithout(front, key);
      if last.key == key {
        assert Find(front, key).None?;
      } else {
        DistinctSnoc(Without(front, key), last);
        TotalSnoc(Without(front, key), last);
      }
    }
  }

  lemma {:induction false} RemoveOk(c: Cache, key: Key)
    requires CacheOk(c)
    ensures CacheOk(Remove(c, key))
  {
    TotalWithout(c.slots, key);
  }

  lemma {:induction false} RemoveAllOk(c: Cache, keys: seq<Key>)
    requires CacheOk(c)
    ensures CacheOk(RemoveAll(c, keys)) && RemoveAll(c, keys).bytes <= c.bytes
    decreases |keys|
  {
    if keys != [] {
      RemoveOk(c, keys[0]);
      RemoveAllOk(Remove(c, keys[0]), keys[1..]);
    }
  }

  lemma {:induction false} TotalFirst(s: seq<Slot>)
    requires s != []
    ensures Total(s) == s[0].image.size + Total(s[1..])
    decreases |s|
  {
    if |s| > 1 {
      TotalFirst(s[..|s|-1]);
      assert s[..|s|-1][1..] == s[1..][..|s|-2];
    } else {
      assert s[..0] == [] && s[1..] == [];
    }
  }

  lemma {:induction false} DistinctRest(s: seq<Slot>)
    requires Distinct(s) && s != []
    ensures Distinct(s[1..])
    decreases |s|
  {
    if |s| > 1 {
      DistinctRest(s[..|s|-1]);
      assert s[..|s|-1][1..] == s[1..][..|s|-2];
    }
  }

  lemma {:induction false} DropOldestOk(c: Cache)
    requires CacheOk(c) && c.slots != []
    ensures CacheOk(DropOldest(c))
  {
    DistinctRest(c.slots);
    TotalFirst(c.slots);
  }

  /** Over the cap there is an entry to drop, so eviction ends within the cap. */
  lemma {:induction false} EvictOk(c: Cache, maxBytes: nat)
    requires CacheOk(c)
    ensures CacheOk(Evict(c, maxBytes)) && Evict(c, maxBytes).bytes <= maxBytes
    decreases |c.slots|
  {
    if c.bytes > maxBytes {
      DropOldestOk(c);
      EvictOk(DropOldest(c), maxBytes);
    }
  }

  lemma {:induction false} AppendOk(c: Cache, slot: Slot)
    requires CacheOk(c) && Lacks(c, slot.key)
    ensures CacheOk(Append(c, slot))
  {
    DistinctSnoc(c.slots, slot);
    TotalSnoc(c.slots, slot);
  }

  lemma {:induction false} RemoveClears(c: Cache, key: Key)
    ensures Lacks(Remove(c, key), key)
  {
  }

  lemma {:induction false} RoomOk(c: Cache, key: Key, now: int)
    requires CacheOk(c)
    ensures CacheOk(Room(c, key, now)) && Lacks(Room(c, key, now), key)
  {
    RemoveAllOk(c, Keys(Expired(now), c.slots));
    RemoveOk(Expire(c, now), key);
    RemoveClears(Expire(c, now), key);
  }

  lemma {:induction false} PutOk(room: Cache, slot: Slot, maxBytes: nat)
    requires CacheOk(room) && Lacks(room, slot.key)
    ensures CacheOk(Evict(Append(room, slot), maxBytes)) && Evict(Append(room, slot), maxBytes).bytes <= maxBytes
  {
    AppendOk(room, slot);
    EvictOk(Append(room, slot), maxBytes);
  }

  /** Storing keeps the counter right, and within the cap if anything was stored. */
  lemma {:induction false} StoreOk(c: Cache, limits: Limits, key: Key, image: Image, now: int)
    requires CacheOk(c)
    ensures CacheOk(Store(c, limits, key, image, now))
    ensures image.size <= limits.maxBytes ==> Store(c, limits, key, image, now).bytes <= limits.maxBytes
  {
    RoomOk(c, key, now);
    PutOk(Room(c, key, now), Slot(key, image, now + limits.ttl), limits.maxBytes);
  }

  lemma {:induction false} UseOk(c: Cache, key: Key)
    requires CacheOk(c) && Find(c.slots, key).Some?
    ensures CacheOk(c.(slots := Without(c.slots, key) + [Find(c.slots, key).value]))
  {
    RemoveOk(c, key);
    RemoveClears(c, key);
    AppendOk(Remove(c, key), Find(c.slots, key).value);
  }

  // ---- what removal, eviction and storing leave ----------------------------------------------------------

  predicate SameRecords(c: Cache, r: Cache) {
    r.inflight == c.inflight && r.generation == c.generation && r.invalidated == c.invalidated
  }

  /** Only entries went. */
  predicate Shrunk(c: Cache, r: Cache) { SameRecords(c, r) && forall x <- r.slots :: x in c.slots }

  lemma {:induction false} RemoveAllShrinks(c: Cache, keys: seq<Key>)
    ensures Shrunk(c, RemoveAll(c, keys))
    ensures forall x <- RemoveAll(c, keys).slots :: x.key !in keys
    decreases |keys|
  {
    if keys != [] {
      assert keys == [keys[0]] + keys[1..];
      RemoveAllShrinks(Remove(c, keys[0]), keys[1..]);
    }
  }

  lemma {:induction false} EvictShrinks(c: Cache, maxBytes: nat)
    ensures Shrunk(c, Evict(c, maxBytes))
    decreases |c.slots|
  {
    if c.bytes > maxBytes && c.slots != [] {
      EvictShrinks(DropOldest(c), maxBytes);
    }
  }

  /** Eviction drops the fewest of the entries used longest ago: with one entry more the rest would not fit. */
  lemma {:induction false} EvictsFewestOldest(c: Cache, maxBytes: nat) returns (drop: nat)
    requires CacheOk(c)
    ensures drop <= |c.slots| && Evict(c, maxBytes).slots == c.slots[drop..]
    ensures drop > 0 ==> Total(c.slots[drop-1..]) > maxBytes
    decreases |c.slots|
  {
    drop := 0;
    if c.bytes > maxBytes {
      DropOldestOk(c);
      var d := EvictsFewestOldest(DropOldest(c), maxBytes);
      drop := d + 1;
      if d > 0 {
        assert c.slots[1..][d-1..] == c.slots[d..];
      } else {
        assert c.slots[0..] == c.slots;
      }
    }
  }

  /** The entry last in the order stays if it fits alone. */
  lemma {:induction false} EvictKeepsLast(c: Cache, maxBytes: nat, last: Slot)
    requires CacheOk(c) && c.slots != [] && c.slots[|c.slots|-1] == last && last.image.size <= maxBytes
    ensures last in Evict(c, maxBytes).slots
    decreases |c.slots|
  {
    if c.bytes > maxBytes {
      if |c.slots| == 1 {
        assert c.slots[..0] == [];
      }
      DropOldestOk(c);
      EvictKeepsLast(DropOldest(c), maxBytes, last);
    }
  }

  lemma {:induction false} PutKeeps(room: Cache, slot: Slot, maxBytes: nat)
    requires CacheOk(room) && Lacks(room, slot.key) && slot.image.size <= maxBytes
    ensures var r := Evict(Append(room, slot), maxBytes);
            slot in r.slots && SameRecords(room, r) && forall x <- r.slots :: x == slot || x in room.slots
  {
    AppendOk(room, slot);
    EvictShrinks(Append(room, slot), maxBytes);
    EvictKeepsLast(Append(room, slot), maxBytes, slot);
  }

  lemma {:induction false} RoomShrinks(c: Cache, key: Key, now: int)
    ensures Shrunk(c, Room(c, key, now))
  {
    RemoveAllShrinks(c, Keys(Expired(now), c.slots));
  }

  /** A stored image that fits the cap is there afterwards, with a full time to live; no other entry is new. */
  lemma {:induction false} StoreKeeps(c: Cache, limits: Limits, key: Key, image: Image, now: int)
    requires CacheOk(c) && image.size <= limits.maxBytes
    ensures var r, slot := Store(c, limits, key, image, now), Slot(key, image, now + limits.ttl);
            slot in r.slots && SameRecords(c, r) && forall x <- r.slots | x != slot :: x in c.slots
  {
    RoomOk(c, key, now);
    RoomShrinks(c, key, now);
    PutKeeps(Room(c, key, now), Slot(key, image, now + limits.ttl), limits.maxBytes);
  }
}
