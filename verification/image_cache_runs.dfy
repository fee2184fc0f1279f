/**
 The image cache over any run: builds asking for images, loads that end whenever they do, messages edited and
 deleted, and time passing. `history` keeps every invalidation, of which the cache forgets those past their time to live.
 */
module ImageCacheRuns {
  import opened Sequences
  import opened ImageCache

  /** A load ends with an image or a failure; the cache hears of it in a later step. */
  datatype Phase = Running | Loaded(result: Option<Image>) | Over

  /** `started` is the cache's generation when the load began. */
  datatype Load = Load(key: Key, started: nat, phase: Phase)

  /** The invalidation at position i has generation i + 1. */
  datatype Past = Past(message: Message, deleted: bool, at: int)

  datatype World = World(cache: Cache, now: int, loads: map<Task, Load>, history: seq<Past>)

  const Start := World(Empty, 0, map[], [])

  datatype Step =
    | Tick(ticks: nat)
    | AskFor(key: Key, task: Task)
    | Complete(task: Task, size: Option<nat>)
    | Callback(task: Task)
    | Forget(message: Message, deleted: bool)

  predicate CanStep(w: World, step: Step) {
    match step
    case AskFor(_, task) => task !in w.loads
    case Complete(task, _) => task in w.loads && w.loads[task].phase.Running?
    case Callback(task) => task in w.loads && w.loads[task].phase.Loaded?
    case _ => true
  }

  function SetPhase(w: World, task: Task, phase: Phase): map<Task, Load>
    requires task in w.loads
  {
    w.loads[task := w.loads[task].(phase := phase)]
  }

  function Apply(l: Limits, w: World, step: Step): World
    requires CanStep(w, step)
  {
    match step
    case Tick(ticks) => w.(now := w.now + ticks)
    case AskFor(key, task) =>
      var loads := if Ask(w.cache, key, w.now).Miss? then w.loads[task := Load(key, w.cache.generation, Running)] else w.loads;
      w.(cache := AskState(w.cache, key, task, w.now), loads := loads)
    case Complete(task, size) =>
      w.(loads := SetPhase(w, task, Loaded(if size.Some? then Some(Image(size.value, task)) else None)))
    case Callback(task) =>
      var load := w.loads[task];
      w.(cache := Finish(w.cache, l, load.key, task, load.phase.result, load.started, w.now), loads := SetPhase(w, task, Over))
    case Forget(message, deleted) =>
      w.(cache := Invalidate(w.cache, l, message, deleted, w.now), history := w.history + [Past(message, deleted, w.now)])
  }

  predicate ValidRun(l: Limits, steps: seq<Step>)
    decreases |steps|, 0
  {
    steps == [] || (ValidRun(l, steps[..|steps|-1]) && CanStep(Run(l, steps[..|steps|-1]), steps[|steps|-1]))
  }

  function Run(l: Limits, steps: seq<Step>): World
    requires ValidRun(l, steps)
    decreases |steps|, 1
  {
    if steps == [] then Start else Apply(l, Run(l, steps[..|steps|-1]), steps[|steps|-1])
  }

  /** The message was invalidated after the load had begun. */
  predicate Stale(w: World, load: Load) {
    exists i | load.started <= i < |w.history| :: w.history[i].message == MessageOf(load.key)
  }

  /** A load is over before any invalidation of its message since it began is past the time to live. */
  predicate InTime(l: Limits, w: World, step: Step)
    requires CanStep(w, step)
  {
    step.Callback? ==>
      var load := w.loads[step.task];
      forall i | load.started <= i < |w.history| :: w.history[i].message == MessageOf(load.key) ==> w.now - w.history[i].at <= l.ttl
  }

  predicate Timely(l: Limits, steps: seq<Step>)
    requires ValidRun(l, steps)
    decreases |steps|
  {
    steps == [] ||
      (Timely(l, steps[..|steps|-1]) && InTime(l, Run(l, steps[..|steps|-1]), steps[|steps|-1]))
  }

  // ---- the invariant ----------------------------------------------------------------------------------

  /** The byte counter is right, within the cap, and every unfinished load is the one in flight for its key. */
  predicate LoadsOk(l: Limits, w: World) {
    && CacheOk(w.cache) && w.cache.bytes <= l.maxBytes
    && (forall t <- w.loads :: !w.loads[t].phase.Over? ==>
          w.loads[t].key in w.cache.inflight && w.cache.inflight[w.loads[t].key] == t)
    && (forall k <- w.cache.inflight :: w.cache.inflight[k] in w.loads && w.loads[w.cache.inflight[k]].key == k)
    && (forall t <- w.loads :: w.loads[t].started <= w.cache.generation)
    && (forall t <- w.loads :: w.loads[t].phase.Loaded? && w.loads[t].phase.result.Some? ==> w.loads[t].phase.result.value.task == t)
  }

  predicate SlotsOk(w: World) {
    forall x <- w.cache.slots :: x.image.task in w.loads && w.loads[x.image.task].key == x.key && w.loads[x.image.task].phase.Over?
  }

  predicate HistoryOk(w: World) {
    && w.cache.generation == |w.history|
    && (forall i, j | 0 <= i <= j < |w.history| :: w.history[i].at <= w.history[j].at)
    && (forall i | 0 <= i < |w.history| :: w.history[i].at <= w.now)
  }

  /** A message's record is its latest invalidation, and it is deleted only if some invalidation deleted it. */
  predicate RecordOk(w: World, m: Message)
    requires m in w.cache.invalidated
  {
    var r := w.cache.invalidated[m];
    && 1 <= r.generation <= |w.history|
    && w.history[r.generation-1].message == m && w.history[r.generation-1].at == r.at
    && (forall i | r.generation <= i < |w.history| :: w.history[i].message != m)
    && (r.deleted ==> exists i | 0 <= i < |w.history| :: w.history[i].message == m && w.history[i].deleted)
  }

  ghost predicate RecordsOk(w: World) { forall m <- w.cache.invalidated :: RecordOk(w, m) }

  /** Within its time to live an invalidation is remembered, and so is that it was a deletion. */
  predicate Remembered(l: Limits, w: World, i: nat)
    requires i < |w.history|
  {
    var p := w.history[i];
    w.now - p.at <= l.ttl ==>
      && p.message in w.cache.invalidated && w.cache.invalidated[p.message].generation > i
      && (p.deleted ==> w.cache.invalidated[p.message].deleted)
  }

  predicate AllRemembered(l: Limits, w: World) { forall i | 0 <= i < |w.history| :: Remembered(l, w, i) }

  /** Every image kept comes from a load that began after the last invalidation of its message. */
  predicate Current(w: World) { forall x <- w.cache.slots :: x.image.task in w.loads && !Stale(w, w.loads[x.image.task]) }

  // ---- what each operation leaves of the records ---------------------------------------------------------

  lemma {:induction false} FinishRecords(c: Cache, l: Limits, key: Key, task: Task, result: Option<Image>, started: nat, now: int)
    requires CacheOk(c) && c.bytes <= l.maxBytes && (result.Some? ==> result.value.task == task)
    ensures var r := Finish(c, l, key, task, result, started, now);
            && CacheOk(r) && r.bytes <= l.maxBytes
            && r.generation == c.generation && r.invalidated == c.invalidated
            && r.inflight == (if key in c.inflight && c.inflight[key] == task then c.inflight - {key} else c.inflight)
            && (forall x <- r.slots :: x in c.slots ||
                  (x.key == key && x.image.task == task && result.Some? && Wanted(c, key, started)))
            && (result.Some? && Wanted(c, key, started) && result.value.size <= l.maxBytes ==>
                  Slot(key, result.value, now + l.ttl) in r.slots)
  {
    var done := if key in c.inflight && c.inflight[key] == task then c.(inflight := c.inflight - {key}) else c;
    if result.Some? && Wanted(done, key, started) {
      StoreOk(done, l, key, result.value, now);
      if result.value.size <= l.maxBytes {
        StoreKeeps(done, l, key, result.value, now);
      }
    }
  }

  lemma {:induction false} RemoveMembers(c: Cache, key: Key)
    ensures Shrunk(c, Remove(c, key)) && Remove(c, key).bytes <= c.bytes
  {
  }

  lemma {:induction false} UseMembers(s: seq<Slot>, key: Key)
    requires Find(s, key).Some?
    ensures forall x <- Without(s, key) + [Find(s, key).value] :: x in s
  {
  }

  lemma {:induction false} GetRecords(c: Cache, key: Key, now: int)
    requires CacheOk(c)
    ensures var r := Get(c, key, now);
            CacheOk(r) && r.bytes <= c.bytes && Shrunk(c, r)
  {
    if Find(c.slots, key).Some? {
      if now >= Find(c.slots, key).value.expiresAt {
        RemoveOk(c, key);
        RemoveMembers(c, key);
      } else {
        UseOk(c, key);
        UseMembers(c.slots, key);
      }
    }
  }

  lemma {:induction false} AskRecords(c: Cache, key: Key, task: Task, now: int)
    requires CacheOk(c)
    ensures var r := AskState(c, key, task, now);
            && CacheOk(r) && r.bytes <= c.bytes
            && r.generation == c.generation && r.invalidated == c.invalidated
            && r.inflight == (if Ask(c, key, now).Miss? then c.inflight[key := task] else c.inflight)
            && (forall x <- r.slots :: x in c.slots)
  {
    GetRecords(c, key, now);
  }

  lemma {:induction false} InvalidateRecords(c: Cache, l: Limits, m: Message, deleted: bool, now: int)
    requires CacheOk(c)
    ensures var r, kept := Invalidate(c, l, m, deleted, now), Pruned(c.invalidated, now, l.ttl);
            && CacheOk(r) && r.bytes <= c.bytes && r.inflight == c.inflight && r.generation == c.generation + 1
            && r.invalidated == kept[m := Invalidation(r.generation, deleted || (m in kept && kept[m].deleted), now)]
            && (forall x <- r.slots :: x in c.slots && MessageOf(x.key) != m)
  {
    var kept := Pruned(c.invalidated, now, l.ttl);
    var record := Invalidation(c.generation + 1, deleted || (m in kept && kept[m].deleted), now);
    var marked := c.(generation := c.generation + 1, invalidated := kept[m := record]);
    RemoveAllOk(marked, Keys(Belongs(m), c.slots));
    RemoveAllShrinks(marked, Keys(Belongs(m), c.slots));
  }

  // ---- each step keeps each part ---------------------------------------------------------------------------

  lemma {:induction false} StepLoads(l: Limits, w: World, step: Step)
    requires LoadsOk(l, w) && CanStep(w, step)
    ensures LoadsOk(l, Apply(l, w, step))
  {
    match step
    case AskFor(key, task) => AskRecords(w.cache, key, task, w.now);
    case Callback(task) =>
      var load := w.loads[task];
      FinishRecords(w.cache, l, load.key, task, load.phase.result, load.started, w.now);
    case Forget(m, deleted) => InvalidateRecords(w.cache, l, m, deleted, w.now);
    case _ =>
  }

  lemma {:induction false} StepSlots(l: Limits, w: World, step: Step)
    requires LoadsOk(l, w) && SlotsOk(w) && CanStep(w, step)
    ensures SlotsOk(Apply(l, w, step))
  {
    match step
    case AskFor(key, task) => AskRecords(w.cache, key, task, w.now);
    case Callback(task) =>
      var load := w.loads[task];
      FinishRecords(w.cache, l, load.key, task, load.phase.result, load.started, w.now);
    case Forget(m, deleted) => InvalidateRecords(w.cache, l, m, deleted, w.now);
    case _ =>
  }

  /** A step that is no invalidation leaves the records and the history as they are. */
  lemma {:induction false} SameHistory(l: Limits, w: World, step: Step)
    requires LoadsOk(l, w) && CanStep(w, step) && !step.Forget?
    ensures var n := Apply(l, w, step);
            n.cache.generation == w.cache.generation && n.cache.invalidated == w.cache.invalidated
            && n.history == w.history && n.now >= w.now
  {
    match step
    case AskFor(key, task) => AskRecords(w.cache, key, task, w.now);
    case Callback(task) =>
      var load := w.loads[task];
      FinishRecords(w.cache, l, load.key, task, load.phase.result, load.started, w.now);
    case _ =>
  }

  lemma {:induction false} StepHistory(l: Limits, w: World, step: Step)
    requires LoadsOk(l, w) && HistoryOk(w) && CanStep(w, step)
    ensures HistoryOk(Apply(l, w, step))
  {
    if step.Forget? {
      InvalidateRecords(w.cache, l, step.message, step.deleted, w.now);
    } else {
      SameHistory(l, w, step);
    }
  }

  /** A record stays right when another message's invalidation is added to the history. */
  lemma {:induction false} OtherRecord(w: World, n: World, p: Past, m: Message)
    requires n.history == w.history + [p] && p.message != m && m in w.cache.invalidated && RecordOk(w, m)
    requires m in n.cache.invalidated && n.cache.invalidated[m] == w.cache.invalidated[m]
    ensures RecordOk(n, m)
  {
    assert forall i | 0 <= i < |w.history| :: n.history[i] == w.history[i];
  }

  /** The record of the message just invalidated. */
  lemma {:induction false} OwnRecord(w: World, n: World, p: Past)
    requires n.history == w.history + [p] && p.message in n.cache.invalidated
    requires var r := n.cache.invalidated[p.message];
             && r.generation == |n.history| && r.at == p.at
             && (r.deleted ==> p.deleted || (p.message in w.cache.invalidated && w.cache.invalidated[p.message].deleted && RecordOk(w, p.message)))
    ensures RecordOk(n, p.message)
  {
    assert n.history[|w.history|] == p && forall i | 0 <= i < |w.history| :: n.history[i] == w.history[i];
  }

  lemma {:induction false} ForgetRecord(l: Limits, w: World, step: Step, m: Message)
    requires LoadsOk(l, w) && HistoryOk(w) && RecordsOk(w) && step.Forget? && m in Apply(l, w, step).cache.invalidated
    ensures RecordOk(Apply(l, w, step), m)
  {
    var n, p := Apply(l, w, step), Past(step.message, step.deleted, w.now);
    InvalidateRecords(w.cache, l, step.message, step.deleted, w.now);
    if m == step.message {
      OwnRecord(w, n, p);
    } else {
      OtherRecord(w, n, p, m);
    }
  }

  lemma {:induction false} StepRecords(l: Limits, w: World, step: Step)
    requires LoadsOk(l, w) && HistoryOk(w) && RecordsOk(w) && CanStep(w, step)
    ensures RecordsOk(Apply(l, w, step))
  {
    var n := Apply(l, w, step);
    forall m <- n.cache.invalidated
      ensures RecordOk(n, m)
    {
      if step.Forget? {
        ForgetRecord(l, w, step, m);
      } else {
        SameHistory(l, w, step);
        assert RecordOk(w, m);
      }
    }
  }

  lemma {:induction false} ForgetRemembered(l: Limits, w: World, step: Step, i: nat)
    requires LoadsOk(l, w) && HistoryOk(w) && RecordsOk(w) && step.Forget? && i <= |w.history|
    requires i < |w.history| ==> Remembered(l, w, i)
    ensures Remembered(l, Apply(l, w, step), i)
  {
    InvalidateRecords(w.cache, l, step.message, step.deleted, w.now);
    if i < |w.history| && w.history[i].message in w.cache.invalidated {
      assert RecordOk(w, w.history[i].message);
    }
  }

  lemma {:induction false} StepRemembered(l: Limits, w: World, step: Step)
    requires LoadsOk(l, w) && HistoryOk(w) && RecordsOk(w) && AllRemembered(l, w) && CanStep(w, step)
    ensures AllRemembered(l, Apply(l, w, step))
  {
    var n := Apply(l, w, step);
    forall i | 0 <= i < |n.history|
      ensures Remembered(l, n, i)
    {
      if step.Forget? {
        ForgetRemembered(l, w, step, i);
      } else {
        SameHistory(l, w, step);
        assert Remembered(l, w, i);
      }
    }
  }
}
