/** What the image cache promises over every run, and the runs on which it promises less than it seems to. */
module ImageCacheTheorems {
  import opened Sequences
  import opened ImageCache
  import opened ImageCacheRuns

  ghost predicate WorldOk(l: Limits, w: World) {
    LoadsOk(l, w) && SlotsOk(w) && HistoryOk(w) && RecordsOk(w) && AllRemembered(l, w)
  }

  lemma {:induction false} RunOk(l: Limits, steps: seq<Step>)
    requires ValidRun(l, steps)
    ensures WorldOk(l, Run(l, steps))
    decreases |steps|
  {
    if steps != [] {
      var w, step := Run(l, steps[..|steps|-1]), steps[|steps|-1];
      RunOk(l, steps[..|steps|-1]);
      StepLoads(l, w, step);
      StepSlots(l, w, step);
      StepHistory(l, w, step);
      StepRecords(l, w, step);
      StepRemembered(l, w, step);
    }
  }

  predicate Unfinished(w: World, task: Task) { task in w.loads && !w.loads[task].phase.Over? }

  /** Always: the counter is the total size of what is kept, within the cap; and no key has two loads under way. */
  lemma {:induction false} BytesAndLoads(l: Limits, steps: seq<Step>, a: Task, b: Task)
    requires ValidRun(l, steps)
    ensures var w := Run(l, steps);
            && w.cache.bytes == Total(w.cache.slots) <= l.maxBytes && Distinct(w.cache.slots)
            && (Unfinished(w, a) && Unfinished(w, b) && w.loads[a].key == w.loads[b].key ==> a == b)
  {
    RunOk(l, steps);
  }

  // ---- hits after an invalidation ----------------------------------------------------------------------------

  /** The record still tells that a load that ended in time is stale. */
  lemma {:induction false} StaleIsUnwanted(l: Limits, w: World, task: Task)
    requires WorldOk(l, w) && CanStep(w, Callback(task)) && InTime(l, w, Callback(task)) && Stale(w, w.loads[task])
    ensures !Wanted(w.cache, w.loads[task].key, w.loads[task].started)
  {
    var load := w.loads[task];
    var i :| load.started <= i < |w.history| && w.history[i].message == MessageOf(load.key);
    assert Remembered(l, w, i);
  }

  /** An image in the cache, and one about to be stored, stay current. */
  lemma {:induction false} StepCurrent(l: Limits, w: World, step: Step)
    requires WorldOk(l, w) && Current(w) && CanStep(w, step) && InTime(l, w, step)
    ensures Current(Apply(l, w, step))
  {
    match step
    case AskFor(key, task) => AskRecords(w.cache, key, task, w.now);
    case Callback(task) =>
      var load := w.loads[task];
      FinishRecords(w.cache, l, load.key, task, load.phase.result, load.started, w.now);
      if Stale(w, load) {
        StaleIsUnwanted(l, w, task);
      }
    case Forget(m, deleted) => ForgetCurrent(l, w, m, deleted);
    case _ =>
  }

  lemma {:induction false} ForgetCurrent(l: Limits, w: World, m: Message, deleted: bool)
    requires WorldOk(l, w) && Current(w)
    ensures Current(Apply(l, w, Forget(m, deleted)))
  {
    var n := Apply(l, w, Forget(m, deleted));
    InvalidateRecords(w.cache, l, m, deleted, w.now);
    forall x <- n.cache.slots
      ensures x.image.task in n.loads && !Stale(n, n.loads[x.image.task])
    {
      assert x in w.cache.slots && MessageOf(x.key) != m;
      assert !Stale(w, w.loads[x.image.task]);
    }
  }

  lemma {:induction false} RunCurrent(l: Limits, steps: seq<Step>)
    requires ValidRun(l, steps) && Timely(l, steps)
    ensures Current(Run(l, steps))
    decreases |steps|
  {
    if steps != [] {
      RunCurrent(l, steps[..|steps|-1]);
      RunOk(l, steps[..|steps|-1]);
      StepCurrent(l, Run(l, steps[..|steps|-1]), steps[|steps|-1]);
    }
  }

  /**
   When every load is over within the time to live of any invalidation it outlasts, each hit is an image whose load,
   for that very attachment, began after every invalidation of its message so far.
   */
  lemma {:induction false} HitsAreCurrent(l: Limits, steps: seq<Step>, key: Key, i: nat)
    requires ValidRun(l, steps) && Timely(l, steps) && Ask(Run(l, steps).cache, key, Run(l, steps).now).Hit?
    ensures var w := Run(l, steps);
            var task := Ask(w.cache, key, w.now).image.task;
            && task in w.loads && w.loads[task].key == key
            && (i < |w.history| && w.history[i].message == MessageOf(key) ==> w.loads[task].started > i)
  {
    RunOk(l, steps);
    RunCurrent(l, steps);
    var w := Run(l, steps);
    var slot := Find(w.cache.slots, key).value;
    assert slot in w.cache.slots;
    assert !Stale(w, w.loads[slot.image.task]);
  }

  lemma {:induction false} WantedIsStored(l: Limits, w: World, task: Task)
    requires WorldOk(l, w) && CanStep(w, Callback(task)) && MessageOf(w.loads[task].key) !in w.cache.invalidated
    requires w.loads[task].phase.result.Some? && w.loads[task].phase.result.value.size <= l.maxBytes
    ensures Slot(w.loads[task].key, w.loads[task].phase.result.value, w.now + l.ttl) in Apply(l, w, Callback(task)).cache.slots
  {
    var load := w.loads[task];
    FinishRecords(w.cache, l, load.key, task, load.phase.result, load.started, w.now);
  }

  /**
   Without that proviso, a stale load puts its image back exactly when no record of its message is left: when the last
   invalidation of the message has been dropped, which takes another invalidation past its time to live.
   */
  lemma {:induction false} StaleIsStoredIff(l: Limits, steps: seq<Step>, task: Task)
    requires ValidRun(l, steps) && CanStep(Run(l, steps), Callback(task))
    requires var w := Run(l, steps);
             Stale(w, w.loads[task]) && w.loads[task].phase.result.Some? && w.loads[task].phase.result.value.size <= l.maxBytes
    ensures var w, n := Run(l, steps), Apply(l, Run(l, steps), Callback(task));
            (exists x :: x in n.cache.slots && x.image.task == task) <==> MessageOf(w.loads[task].key) !in w.cache.invalidated
  {
    RunOk(l, steps);
    var w := Run(l, steps);
    var load := w.loads[task];
    var m := MessageOf(load.key);
    var i :| load.started <= i < |w.history| && w.history[i].message == m;
    FinishRecords(w.cache, l, load.key, task, load.phase.result, load.started, w.now);
    if m in w.cache.invalidated {
      assert RecordOk(w, m);
    } else {
      WantedIsStored(l, w, task);
    }
  }

  // ---- deletions --------------------------------------------------------------------------------------------

  /**
   A build that chose its messages at some generation is told of every deletion since then, for as long as the
   deletion's time to live, whatever edits of the same message follow; and it is told of none that did not happen.
   */
  lemma {:induction false} DeletionsAreReported(l: Limits, steps: seq<Step>, since: nat, channel: int, ids: seq<int>, id: int, i: nat)
    requires ValidRun(l, steps) && id in ids
    ensures var w := Run(l, steps);
            && (since <= i < |w.history| && w.history[i].message == (channel, id) && w.history[i].deleted && w.now - w.history[i].at <= l.ttl ==>
                  id in DeletedSince(w.cache, since, channel, ids))
            && (id in DeletedSince(w.cache, since, channel, ids) ==>
                  (exists j | 0 <= j < |w.history| :: w.history[j].message == (channel, id) && w.history[j].deleted)
                  && exists j | since <= j < |w.history| :: w.history[j].message == (channel, id))
  {
    RunOk(l, steps);
    var w := Run(l, steps);
    if i < |w.history| {
      assert Remembered(l, w, i);
    }
    if id in DeletedSince(w.cache, since, channel, ids) {
      assert RecordOk(w, (channel, id));
      assert w.history[w.cache.invalidated[(channel, id)].generation - 1].message == (channel, id);
    }
  }

  // ---- shared loads ------------------------------------------------------------------------------------------

  /**
   Only hits are safe: a build that asks just after an invalidation is given an image from before it exactly when a
   load for that attachment was under way.
   */
  lemma {:induction false} SharedLoadIsStaleIff(l: Limits, steps: seq<Step>, key: Key, deleted: bool)
    requires ValidRun(l, steps)
    ensures var w, n := Run(l, steps), Apply(l, Run(l, steps), Forget(MessageOf(key), deleted));
            var outcome := Ask(n.cache, key, n.now);
            && !outcome.Hit? && (outcome.Coalesced? <==> key in w.cache.inflight)
            && (outcome.Coalesced? ==> outcome.task in n.loads && n.loads[outcome.task].key == key && Stale(n, n.loads[outcome.task]))
  {
    RunOk(l, steps);
    var w := Run(l, steps);
    var n := Apply(l, w, Forget(MessageOf(key), deleted));
    InvalidateRecords(w.cache, l, MessageOf(key), deleted, w.now);
    assert n.history[|w.history|].message == MessageOf(key);
  }

  // ---- a load that outlasts the record ----------------------------------------------------------------------

  lemma {:induction false} OneMore(l: Limits, steps: seq<Step>, step: Step)
    requires ValidRun(l, steps) && CanStep(Run(l, steps), step)
    ensures ValidRun(l, steps + [step]) && Run(l, steps + [step]) == Apply(l, Run(l, steps), step)
  {
    assert (steps + [step])[..|steps|] == steps;
  }

  /** The run up to the moment the record of the deletion is dropped, with the load still under way. */
  lemma {:induction false} Outlasted(l: Limits, key: Key, other: Message) returns (steps: seq<Step>)
    requires other != MessageOf(key)
    ensures ValidRun(l, steps)
    ensures var w := Run(l, steps);
            && w.loads == map[0 := Load(key, 0, Running)] && w.cache.slots == [] && MessageOf(key) !in w.cache.invalidated
            && |w.history| == 2 && w.history[0] == Past(MessageOf(key), true, 0)
  {
    OneMore(l, [], AskFor(key, 0));
    steps := [AskFor(key, 0)];
    assert [] + [AskFor(key, 0)] == steps;
    OneMore(l, steps, Forget(MessageOf(key), true));
    steps := steps + [Forget(MessageOf(key), true)];
    OneMore(l, steps, Tick(l.ttl + 1));
    steps := steps + [Tick(l.ttl + 1)];
    OneMore(l, steps, Forget(other, false));
    steps := steps + [Forget(other, false)];
  }

  /** For every cache that can hold an image, a run in which a deleted message's image comes back and is served. */
  lemma {:induction false} LateLoadRestoresDeleted(l: Limits, key: Key, other: Message) returns (steps: seq<Step>)
    requires other != MessageOf(key) && l.maxBytes >= 1 && l.ttl >= 1
    ensures ValidRun(l, steps)
    ensures var w := Run(l, steps);
            var outcome := Ask(w.cache, key, w.now);
            && |w.history| > 0 && w.history[0].message == MessageOf(key) && w.history[0].deleted
            && outcome.Hit? && outcome.image.task in w.loads && Stale(w, w.loads[outcome.image.task])
  {
    steps := Outlasted(l, key, other);
    OneMore(l, steps, Complete(0, Some(1)));
    steps := steps + [Complete(0, Some(1))];
    var w := Run(l, steps);
    RunOk(l, steps);
    FinishRecords(w.cache, l, key, 0, Some(Image(1, 0)), 0, w.now);
    OneMore(l, steps, Callback(0));
    steps := steps + [Callback(0)];
    var n := Run(l, steps);
    assert Slot(key, Image(1, 0), w.now + l.ttl) in n.cache.slots;
    RunOk(l, steps);
    OnlySlot(n.cache, Slot(key, Image(1, 0), w.now + l.ttl));
  }

  lemma {:induction false} OnlySlot(c: Cache, slot: Slot)
    requires Distinct(c.slots) && slot in c.slots
    ensures Find(c.slots, slot.key) == Some(slot)
    decreases |c.slots|
  {
    var n := |c.slots| - 1;
    if c.slots[n] != slot {
      assert slot in c.slots[..n];
      OnlySlot(c.(slots := c.slots[..n]), slot);
    }
  }
}
