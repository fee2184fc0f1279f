/** The cache object itself: every method changes its fields as `ImageCache` says. */
module AttachmentCaches {
  import opened Sequences
  import C = ImageCache

  class AttachmentCache {
    const limits: C.Limits
    var entries: seq<C.Slot>
    var bytes: int
    var inflight: map<C.Key, C.Task>
    var generation: nat
    var invalidated: map<C.Message, C.Invalidation>

    function Value(): C.Cache
      reads this
    {
      C.Cache(entries, bytes, inflight, generation, invalidated)
    }

    predicate Valid()
      reads this
    {
      C.CacheOk(Value()) && bytes <= limits.maxBytes
    }

    constructor (limits: C.Limits)
      ensures Valid() && Value() == C.Empty && this.limits == limits
    {
      this.limits := limits;
      entries, bytes, inflight, generation, invalidated := [], 0, map[], 0, map[];
    }

    method Remove(key: C.Key)
      requires C.CacheOk(Value())
      modifies this`entries, this`bytes
      ensures Value() == C.Remove(old(Value()), key) && C.CacheOk(Value()) && bytes <= old(bytes)
    {
      C.RemoveOk(Value(), key);
      var slot := C.Find(entries, key);
      if slot.Some? {
        bytes := bytes - slot.value.image.size;
        entries := C.Without(entries, key);
      }
    }

    method RemoveEach(keys: seq<C.Key>)
      requires C.CacheOk(Value())
      modifies this`entries, this`bytes
      ensures C.CacheOk(Value()) && Value() == C.RemoveAll(old(Value()), keys) && bytes <= old(bytes)
    {
      C.RemoveAllOk(Value(), keys);
      var i := 0;
      assert keys[0..] == keys;
      while i < |keys|
        invariant i <= |keys| && C.CacheOk(Value())
        invariant C.RemoveAll(Value(), keys[i..]) == C.RemoveAll(old(Value()), keys)
      {
        assert keys[i..][1..] == keys[i+1..];
        Remove(keys[i]);
        i := i + 1;
      }
    }

    method Get(key: C.Key, now: int) returns (image: Option<C.Image>)
      requires Valid()
      modifies this`entries, this`bytes
      ensures Valid() && Value() == C.Get(old(Value()), key, now) && image == C.Lookup(old(Value()), key, now)
    {
      var slot := C.Find(entries, key);
      if slot.None? {
        return None;
      }
      if now >= slot.value.expiresAt {
        Remove(key);
        return None;
      }
      C.UseOk(Value(), key);
      entries := C.Without(entries, key) + [slot.value];
      image := Some(slot.value.image);
    }

    /** Serves a build: the kept image, the load already under way, or a new load begun as `task`. */
    method GetOrLoad(key: C.Key, task: C.Task, now: int) returns (outcome: C.Outcome, started: nat)
      requires Valid()
      modifies this
      ensures Valid() && Value() == C.AskState(old(Value()), key, task, now)
      ensures outcome == C.Ask(old(Value()), key, now) && started == old(generation)
    {
      started := generation;
      var image := Get(key, now);
      if image.Some? {
        outcome := C.Hit(image.value);
      } else if key in inflight {
        outcome := C.Coalesced(inflight[key]);
      } else {
        inflight := inflight[key := task];
        outcome := C.Miss;
      }
    }

    method InvalidateMessage(message: C.Message, deleted: bool, now: int)
      requires Valid()
      modifies this
      ensures Valid() && Value() == C.Invalidate(old(Value()), limits, message, deleted, now)
    {
      generation := generation + 1;
      PruneInvalidated(now);
      var before := message in invalidated && invalidated[message].deleted;
      invalidated := invalidated[message := C.Invalidation(generation, deleted || before, now)];
      ghost var marked := Value();
      assert marked == old(Value()).(generation := generation, invalidated := invalidated);
      var gone := C.Keys(C.Belongs(message), entries);
      RemoveEach(gone);
    }

    /** The messages whose records are past their time to live. */
    method StaleRecords(now: int) returns (stale: set<C.Message>)
      ensures stale == set k <- invalidated | now - invalidated[k].at > limits.ttl
    {
      stale := {};
      var left := invalidated.Keys;
      while left != {}
        invariant left <= invalidated.Keys && stale == set k <- invalidated.Keys - left | now - invalidated[k].at > limits.ttl
        decreases |left|
      {
        var key :| key in left;
        left := left - {key};
        if now - invalidated[key].at > limits.ttl {
          stale := stale + {key};
        }
      }
    }

    method PruneInvalidated(now: int)
      modifies this`invalidated
      ensures invalidated == C.Pruned(old(invalidated), now, limits.ttl)
      ensures forall k <- old(invalidated) :: k !in invalidated <==> now - old(invalidated)[k].at > limits.ttl
    {
      var stale := StaleRecords(now);
      ghost var all := stale;
      while stale != {}
        invariant stale <= all && invalidated == old(invalidated) - (all - stale)
        decreases |stale|
      {
        var key :| key in stale;
        stale := stale - {key};
        invalidated := invalidated - {key};
      }
    }

    method DeletedSince(since: nat, channel: int, ids: seq<int>) returns (found: set<int>)
      ensures found == C.DeletedSince(Value(), since, channel, ids)
    {
      found := {};
      for i := 0 to |ids|
        invariant found == C.DeletedSince(Value(), since, channel, ids[..i])
      {
        assert ids[..i+1] == ids[..i] + [ids[i]];
        var m := (channel, ids[i]);
        if m in invalidated && invalidated[m].deleted && invalidated[m].generation > since {
          found := found + {ids[i]};
        }
      }
      assert ids[..|ids|] == ids;
    }

    /** A load is over; its result is kept unless its message was invalidated since it began. */
    method Finish(key: C.Key, task: C.Task, result: Option<C.Image>, started: nat, now: int)
      requires Valid()
      modifies this
      ensures Valid() && Value() == C.Finish(old(Value()), limits, key, task, result, started, now)
    {
      if key in inflight && inflight[key] == task {
        inflight := inflight - {key};
      }
      if result.None? {
        return;
      }
      var message := C.MessageOf(key);
      if message in invalidated && invalidated[message].generation > started {
        return;
      }
      Store(key, result.value, now);
    }

    method Expire(now: int)
      requires Valid()
      modifies this`entries, this`bytes
      ensures Valid() && Value() == C.Expire(old(Value()), now)
    {
      var gone := C.Keys(C.Expired(now), entries);
      RemoveEach(gone);
    }

    method Store(key: C.Key, image: C.Image, now: int)
      requires Valid()
      modifies this`entries, this`bytes
      ensures Valid() && Value() == C.Store(old(Value()), limits, key, image, now)
    {
      if image.size > limits.maxBytes {
        return;
      }
      MakeRoom(key, now);
      Put(C.Slot(key, image, now + limits.ttl));
    }

    method MakeRoom(key: C.Key, now: int)
      requires Valid()
      modifies this`entries, this`bytes
      ensures Valid() && C.Lacks(Value(), key) && Value() == C.Room(old(Value()), key, now)
    {
      C.RoomOk(Value(), key, now);
      Expire(now);
      Remove(key);
    }

    method Put(slot: C.Slot)
      requires Valid() && C.Lacks(Value(), slot.key)
      modifies this`entries, this`bytes
      ensures Valid() && Value() == C.Evict(C.Append(old(Value()), slot), limits.maxBytes)
    {
      Append(slot);
      EvictOldest();
    }

    method Append(slot: C.Slot)
      requires C.CacheOk(Value()) && C.Lacks(Value(), slot.key)
      modifies this`entries, this`bytes
      ensures C.CacheOk(Value()) && Value() == C.Append(old(Value()), slot)
    {
      C.AppendOk(Value(), slot);
      entries := entries + [slot];
      bytes := bytes + slot.image.size;
    }

    /** Makes room: the entries used longest ago go until the rest fits. */
    method EvictOldest()
      requires C.CacheOk(Value())
      modifies this`entries, this`bytes
      ensures Valid() && Value() == C.Evict(old(Value()), limits.maxBytes)
    {
      while bytes > limits.maxBytes
        invariant C.CacheOk(Value()) && C.Evict(Value(), limits.maxBytes) == C.Evict(old(Value()), limits.maxBytes)
        decreases |entries|
      {
        C.DropOldestOk(Value());
        bytes := bytes - entries[0].image.size;
        entries := entries[1..];
      }
    }
  }
}
