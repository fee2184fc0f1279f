/**
 The due set over whole runs, the poller's own removals included. The poller lists what is due, reads each row, and
 takes a member whose row was gone or not enabled out of the due set in a step of its own, outside any transaction.
 */
module AutomationPoller {
  import opened Sequences
  import opened Text
  import opened AutomationPolicy
  import opened AutomationStore
  import opened AutomationInvariant
  import opened AutomationClients
  import opened AutomationRuns
  import opened AutomationTheorems

  // ---- the worlds of a run ------------------------------------------------------------------------------

  lemma {:induction false} PrefixValid(s: Settings, steps: seq<Step>, n: nat)
    requires ValidRun(s, Start, steps) && n <= |steps|
    ensures ValidRun(s, Start, steps[..n])
    decreases |steps|
  {
    if n < |steps| {
      PrefixValid(s, steps[..|steps|-1], n);
      assert steps[..|steps|-1][..n] == steps[..n];
    } else {
      assert steps[..n] == steps;
    }
  }

  /** The world before step `n` of a run. */
  function WorldAt(s: Settings, steps: seq<Step>, n: nat): World
    requires ValidRun(s, Start, steps) && n <= |steps|
  {
    PrefixValid(s, steps, n);
    Run(s, Start, steps[..n])
  }

  lemma {:induction false} NextWorld(s: Settings, steps: seq<Step>, n: nat)
    requires ValidRun(s, Start, steps) && n < |steps|
    ensures CanStep(s, WorldAt(s, steps, n), steps[n])
    ensures WorldAt(s, steps, n + 1) == Apply(s, WorldAt(s, steps, n), steps[n])
    ensures WorldOk(s, WorldAt(s, steps, n))
  {
    PrefixValid(s, steps, n);
    PrefixValid(s, steps, n + 1);
    assert steps[..n+1][..n] == steps[..n];
    RunsAreSerial(s, steps[..n]);
  }

  predicate EnabledAt(s: Settings, steps: seq<Step>, n: nat, id: Id)
    requires ValidRun(s, Start, steps) && n <= |steps|
  {
    EnabledSchedule(WorldAt(s, steps, n).db, id)
  }

  predicate DueRightAt(s: Settings, steps: seq<Step>, n: nat, id: Id)
    requires ValidRun(s, Start, steps) && n <= |steps|
  {
    DueOk(WorldAt(s, steps, n).db, id)
  }

  predicate ToRemove(w: World, c: Client, id: Id) { IsPolling(w, c) && w.txns[c].gone == Some(id) }

  /** This poller has read the row of `id` as gone or not enabled and is about to remove it. */
  predicate ToRemoveAt(s: Settings, steps: seq<Step>, n: nat, c: Client, id: Id)
    requires ValidRun(s, Start, steps) && n <= |steps|
  {
    ToRemove(WorldAt(s, steps, n), c, id)
  }

  /** Step `k` commits an edit that enables the record. */
  predicate ResumesAt(s: Settings, steps: seq<Step>, k: nat, id: Id)
    requires ValidRun(s, Start, steps) && k < |steps|
  {
    NextWorld(s, steps, k);
    var tx := Committed(s, WorldAt(s, steps, k), steps[k]);
    && tx.Update? && tx.id == id && tx.changes.status == Some(Enabled)
    && !EnabledAt(s, steps, k, id) && EnabledAt(s, steps, k + 1, id)
  }

  // ---- when the due set stays right ------------------------------------------------------------------------

  /** Step `j` read the row as gone or not enabled, and from then until step `n` the poller has it to remove. */
  predicate ReadAt(s: Settings, steps: seq<Step>, j: nat, n: nat, c: Client, id: Id)
    requires ValidRun(s, Start, steps) && j < n <= |steps|
  {
    && steps[j] == ReadDueRow(c, id) && !EnabledAt(s, steps, j, id)
    && (forall i | j < i <= n :: ToRemoveAt(s, steps, i, c, id))
  }

  /** Step `n` removes a member whose row step `j` read, though an edit at step `k` has enabled it since. */
  predicate ResumedMeanwhile(s: Settings, steps: seq<Step>, j: nat, k: nat, n: nat, id: Id)
    requires ValidRun(s, Start, steps)
  {
    && j < k < n < |steps| && steps[n].RemoveDue? && ReadAt(s, steps, j, n, steps[n].client, id)
    && ResumesAt(s, steps, k, id) && (forall i | k < i <= n :: EnabledAt(s, steps, i, id))
  }

  lemma {:induction false} BecomesToRemove(s: Settings, w: World, step: Step, c: Client, id: Id)
    requires CanStep(s, w, step) && !ToRemove(w, c, id) && ToRemove(Apply(s, w, step), c, id)
    ensures step == ReadDueRow(c, id) && !EnabledSchedule(w.db, id) && Apply(s, w, step).db == w.db
  {
  }

  lemma {:induction false} ReadJustNow(s: Settings, steps: seq<Step>, n: nat, c: Client, id: Id)
    requires ValidRun(s, Start, steps) && n < |steps|
    requires !ToRemoveAt(s, steps, n, c, id) && ToRemoveAt(s, steps, n + 1, c, id)
    ensures steps[n] == ReadDueRow(c, id) && !EnabledAt(s, steps, n, id) && !EnabledAt(s, steps, n + 1, id)
  {
    NextWorld(s, steps, n);
    BecomesToRemove(s, WorldAt(s, steps, n), steps[n], c, id);
  }

  lemma {:induction false} ResumedJustNow(s: Settings, steps: seq<Step>, n: nat, c: Client, id: Id)
    requires ValidRun(s, Start, steps) && n < |steps| && ToRemoveAt(s, steps, n, c, id)
    requires !EnabledAt(s, steps, n, id) && EnabledAt(s, steps, n + 1, id)
    ensures ResumesAt(s, steps, n, id)
  {
    NextWorld(s, steps, n);
    var w, step := WorldAt(s, steps, n), steps[n];
    StepIsSerial(s, w, step);
    assert TxnOk(w.db, w.txns[c]);
    OnlyEditsEnable(s, w.db, Committed(s, w, step), id);
  }

  lemma {:induction false} NothingAtFirst(s: Settings, steps: seq<Step>, c: Client, id: Id)
    requires ValidRun(s, Start, steps)
    ensures !ToRemoveAt(s, steps, 0, c, id)
  {
  }

  lemma {:induction false} LastChange(p: nat -> bool, lo: nat, hi: nat) returns (k: nat)
    requires lo <= hi && !p(lo) && p(hi)
    ensures lo <= k < hi && !p(k) && forall i | k < i <= hi :: p(i)
    decreases hi
  {
    if p(hi - 1) {
      k := LastChange(p, lo, hi - 1);
    } else {
      k := hi - 1;
    }
  }

  lemma {:induction false} FindRead(s: Settings, steps: seq<Step>, n: nat, c: Client, id: Id) returns (j: nat)
    requires ValidRun(s, Start, steps) && n <= |steps| && ToRemoveAt(s, steps, n, c, id)
    ensures j < n && ReadAt(s, steps, j, n, c, id) && !EnabledAt(s, steps, j + 1, id)
  {
    NothingAtFirst(s, steps, c, id);
    var p := (i: nat) => i <= n && ToRemoveAt(s, steps, i, c, id);
    j := LastChange(p, 0, n);
    forall i | j < i <= n ensures ToRemoveAt(s, steps, i, c, id) {
      assert p(i);
    }
    ReadJustNow(s, steps, j, c, id);
  }

  /** If the record is enabled by then, an edit enabled it after the row was read, and it stayed so. */
  lemma {:induction false} FindResume(s: Settings, steps: seq<Step>, n: nat, c: Client, id: Id) returns (j: nat, k: nat)
    requires ValidRun(s, Start, steps) && n <= |steps| && ToRemoveAt(s, steps, n, c, id) && EnabledAt(s, steps, n, id)
    ensures j < k < n && ReadAt(s, steps, j, n, c, id) && ResumesAt(s, steps, k, id)
    ensures forall i | k < i <= n :: EnabledAt(s, steps, i, id)
  {
    j := FindRead(s, steps, n, c, id);
    var p := (i: nat) => i <= n && EnabledAt(s, steps, i, id);
    k := LastChange(p, j + 1, n);
    forall i | k < i <= n ensures EnabledAt(s, steps, i, id) {
      assert p(i);
    }
    ResumedJustNow(s, steps, k, c, id);
  }

  lemma {:induction false} RightUnlessResumed(s: Settings, steps: seq<Step>, n: nat, id: Id)
    requires ValidRun(s, Start, steps) && n <= |steps|
    requires forall j: nat, k: nat, m: nat :: !ResumedMeanwhile(s, steps, j, k, m, id)
    ensures DueRightAt(s, steps, n, id)
  {
    if n > 0 {
      RightUnlessResumed(s, steps, n - 1, id);
      NextWorld(s, steps, n - 1);
      var w, step := WorldAt(s, steps, n - 1), steps[n-1];
      StepIsSerial(s, w, step);
      SerialDue(s, w.db, Committed(s, w, step), id);
      if Committed(s, w, step) == Drop(id) && EnabledSchedule(w.db, id) {
        var j, k := FindResume(s, steps, n - 1, step.client, id);
        assert ResumedMeanwhile(s, steps, j, k, n - 1, id);
      }
    }
  }

  /**
   The due set stays right about a record throughout a run exactly when no poller removes it after an edit that came
   between the reading of its row and the removal enabled it for good.
   */
  lemma {:induction false} DueStaysRightIff(s: Settings, steps: seq<Step>, id: Id)
    requires ValidRun(s, Start, steps)
    ensures (forall n: nat | n <= |steps| :: DueRightAt(s, steps, n, id))
            <==> (forall j: nat, k: nat, n: nat :: !ResumedMeanwhile(s, steps, j, k, n, id))
  {
    if j: nat, k: nat, n: nat :| ResumedMeanwhile(s, steps, j, k, n, id) {
      NextWorld(s, steps, n);
      assert ToRemoveAt(s, steps, n, steps[n].client, id) && EnabledAt(s, steps, n, id);
      assert !DueRightAt(s, steps, n + 1, id);
    } else {
      forall n: nat | n <= |steps| ensures DueRightAt(s, steps, n, id) {
        RightUnlessResumed(s, steps, n, id);
      }
    }
  }

  // ---- a run in which it does not ------------------------------------------------------------------------------

  function SetStatus(status: Status): Changes { Changes(Some(status), None, None, None, None, None) }

  function EditSteps(d: Client, id: Id, actor: int, revision: nat, status: Status, now: int): seq<Step> {
    [WatchRecord(d, id, Edit(actor, revision, SetStatus(status))), ReadRecord(d), ExecChange(d, now)]
  }

  lemma {:induction false} RunConcat(s: Settings, w: World, a: seq<Step>, b: seq<Step>)
    requires ValidRun(s, w, a) && ValidRun(s, Run(s, w, a), b)
    ensures ValidRun(s, w, a + b) && Run(s, w, a + b) == Run(s, Run(s, w, a), b)
    decreases |b|
  {
    if b == [] {
      assert a + b == a;
    } else {
      RunConcat(s, w, a, b[..|b|-1]);
      assert (a + b)[..|a + b|-1] == a + b[..|b|-1];
    }
  }

  lemma {:induction false} OneStep(s: Settings, w: World, step: Step)
    requires CanStep(s, w, step)
    ensures ValidRun(s, w, [step]) && Run(s, w, [step]) == Apply(s, w, step)
  {
    var steps := [step];
    assert steps[..|steps|-1] == [];
    assert ValidRun(s, w, []) && Run(s, w, []) == w;
  }

  lemma {:induction false} ThreeSteps(s: Settings, w: World, a: Step, b: Step, c: Step)
    requires CanStep(s, w, a) && CanStep(s, Apply(s, w, a), b) && CanStep(s, Apply(s, Apply(s, w, a), b), c)
    ensures ValidRun(s, w, [a, b, c]) && Run(s, w, [a, b, c]) == Apply(s, Apply(s, Apply(s, w, a), b), c)
  {
    OneStep(s, w, a);
    OneStep(s, Apply(s, w, a), b);
    OneStep(s, Apply(s, Apply(s, w, a), b), c);
    RunConcat(s, w, [a], [b]);
    RunConcat(s, w, [a] + [b], [c]);
    assert [a] + [b] + [c] == [a, b, c];
  }

  /** An edit that nobody disturbs changes the store as its transaction does, and nothing else. */
  lemma {:induction false} EditAlone(s: Settings, w: World, d: Client, id: Id, actor: int, revision: nat, status: Status, now: int)
    requires d !in w.txns && id in w.db.entries
    ensures var steps := EditSteps(d, id, actor, revision, status, now);
            && ValidRun(s, w, steps)
            && Run(s, w, steps) == w.(db := Serial(s, w.db, Update(id, actor, revision, SetStatus(status), now)))
  {
    var a, b, c := WatchRecord(d, id, Edit(actor, revision, SetStatus(status))), ReadRecord(d), ExecChange(d, now);
    ThreeSteps(s, w, a, b, c);
    var w2 := Apply(s, Apply(s, w, a), b);
    assert w2.txns - {d} == w.txns;
  }

  /** An interval schedule that may be enabled: its step is no shorter than the minimum. */
  predicate Repeats(s: Settings, r: Record) {
    && r.body.ScheduleBody? && GoodText(r) && !r.body.followup
    && r.body.timing.Interval? && r.body.timing.start.Some? && r.body.timing.hours >= 1 && r.body.timing.hours >= s.minHours
  }

  predicate RepeatsIn(s: Settings, db: Db, id: Id, status: Status, revision: nat) {
    && id in db.entries && Repeats(s, db.entries[id].record)
    && db.entries[id].record.status == status && db.entries[id].record.revision == revision
  }

  lemma {:induction false} IntervalIsValid(cal: Calendar, hours: int, start: int, minHours: nat, now: int)
    requires hours >= 1 && hours >= minHours
    ensures var next := ValidateSchedule(cal, Interval(hours, Some(start)), minHours, now); next.At? && next.t > now
  {
    var timing := Interval(hours, Some(start));
    IntervalIsFirstGridPoint(cal, hours, start, now, 0);
    var value := NextRun(cal, timing, now).t;
    IntervalIsFirstGridPoint(cal, hours, start, value, 0);
    GridGap(start, hours * HOUR, value, NextRun(cal, timing, value).t);
  }

  predicate EnabledAfter(db: Db, id: Id, t: int) { EnabledSchedule(db, id) && db.entries[id].record.body.nextRun > t }

  lemma {:induction false} Pausing(s: Settings, db: Db, id: Id, actor: int, revision: nat, now: int)
    requires RepeatsIn(s, db, id, Enabled, revision)
    ensures RepeatsIn(s, Serial(s, db, Update(id, actor, revision, SetStatus(Paused), now)), id, Paused, revision + 1)
  {
  }

  lemma {:induction false} Resuming(s: Settings, db: Db, id: Id, actor: int, revision: nat, now: int)
    requires RepeatsIn(s, db, id, Paused, revision)
    ensures EnabledAfter(Serial(s, db, Update(id, actor, revision, SetStatus(Enabled), now)), id, now)
  {
    var r := db.entries[id].record;
    IntervalIsValid(s.calendar(r.body.zone), r.body.timing.hours, r.body.timing.start.value, s.minHours, now);
  }

  function ListAndPause(c: Client, d: Client, id: Id, actor: int, revision: nat, polled: int, paused: int): seq<Step> {
    [ReadDue(c, polled)] + EditSteps(d, id, actor, revision, Paused, paused)
  }

  function ReadAndResume(c: Client, d: Client, id: Id, actor: int, revision: nat, resumed: int): seq<Step> {
    [ReadDueRow(c, id)] + EditSteps(d, id, actor, revision, Enabled, resumed)
  }

  /** The poller lists the member and somebody pauses it; its row is read and somebody resumes it; and it is removed. */
  function Race(c: Client, d: Client, id: Id, actor: int, revision: nat, polled: int, paused: int, resumed: int): seq<Step> {
    ListAndPause(c, d, id, actor, revision, polled, paused) + ReadAndResume(c, d, id, actor, revision + 1, resumed)
    + [RemoveDue(c)]
  }

  /** The poller has listed the member, which is paused by now. */
  predicate ListedPaused(s: Settings, w: World, c: Client, d: Client, id: Id, revision: nat) {
    && IsPolling(w, c) && w.txns[c].gone.None? && id in w.txns[c].listed && d !in w.txns
    && RepeatsIn(s, w.db, id, Paused, revision)
  }

  lemma {:induction false} ListedThenPaused(
      s: Settings, w: World, c: Client, d: Client, id: Id, actor: int, revision: nat, polled: int, paused: int)
    requires c != d && c !in w.txns && d !in w.txns && RepeatsIn(s, w.db, id, Enabled, revision)
    requires id in w.db.due && w.db.due[id] <= polled
    ensures var steps := ListAndPause(c, d, id, actor, revision, polled, paused);
            ValidRun(s, w, steps) && ListedPaused(s, Run(s, w, steps), c, d, id, revision + 1)
  {
    OneStep(s, w, ReadDue(c, polled));
    EditAlone(s, Apply(s, w, ReadDue(c, polled)), d, id, actor, revision, Paused, paused);
    RunConcat(s, w, [ReadDue(c, polled)], EditSteps(d, id, actor, revision, Paused, paused));
    Pausing(s, w.db, id, actor, revision, paused);
  }

  lemma {:induction false} ReadThenResumed(s: Settings, w: World, c: Client, d: Client, id: Id, actor: int, revision: nat, resumed: int)
    requires c != d && ListedPaused(s, w, c, d, id, revision)
    ensures var steps := ReadAndResume(c, d, id, actor, revision, resumed);
            ValidRun(s, w, steps) && ToRemove(Run(s, w, steps), c, id) && EnabledAfter(Run(s, w, steps).db, id, resumed)
  {
    OneStep(s, w, ReadDueRow(c, id));
    EditAlone(s, Apply(s, w, ReadDueRow(c, id)), d, id, actor, revision, Enabled, resumed);
    RunConcat(s, w, [ReadDueRow(c, id)], EditSteps(d, id, actor, revision, Enabled, resumed));
    Resuming(s, w.db, id, actor, revision, resumed);
  }

  lemma {:induction false} ThenRemoved(s: Settings, w: World, steps: seq<Step>, c: Client, id: Id)
    requires ValidRun(s, w, steps) && ToRemove(Run(s, w, steps), c, id)
    ensures ValidRun(s, w, steps + [RemoveDue(c)]) && Run(s, w, steps + [RemoveDue(c)]).db == DropDue(Run(s, w, steps).db, id)
  {
    OneStep(s, Run(s, w, steps), RemoveDue(c));
    RunConcat(s, w, steps, [RemoveDue(c)]);
  }

  /** Whenever a repeating schedule is due, that can happen: it ends up enabled, its next run ahead, and never due. */
  lemma {:induction false} ResumeLosesToPoller(
      s: Settings, w: World, c: Client, d: Client, id: Id, actor: int, revision: nat, polled: int, paused: int, resumed: int)
    requires c != d && c !in w.txns && d !in w.txns && RepeatsIn(s, w.db, id, Enabled, revision)
    requires id in w.db.due && w.db.due[id] <= polled
    ensures var steps := Race(c, d, id, actor, revision, polled, paused, resumed);
            && ValidRun(s, w, steps)
            && EnabledAfter(Run(s, w, steps).db, id, resumed) && id !in Run(s, w, steps).db.due
  {
    var a, b := ListAndPause(c, d, id, actor, revision, polled, paused), ReadAndResume(c, d, id, actor, revision + 1, resumed);
    ListedThenPaused(s, w, c, d, id, actor, revision, polled, paused);
    ReadThenResumed(s, Run(s, w, a), c, d, id, actor, revision + 1, resumed);
    RunConcat(s, w, a, b);
    ThenRemoved(s, w, a + b, c, id);
  }

  function CreateSteps(q: Request): seq<Step> { [WatchIndex(0, 0, q), ReadIndex(0), ExecCreate(0)] }

  predicate AsksForInterval(s: Settings, q: Request) {
    && q.body.ScheduleBody? && q.body.timing.Interval? && !q.body.followup
    && q.body.timing.hours >= 1 && q.body.timing.hours >= s.minHours
    && Strip(q.action) != "" && |q.action| <= MAX_ACTION_CHARS
  }

  lemma {:induction false} IntervalIsDrafted(s: Settings, q: Request)
    requires AsksForInterval(s, q)
    ensures Draft(s, q).Some? && var r := Draft(s, q).value; Repeats(s, r) && r.status.Enabled? && r.revision == 1
  {
    var anchored := AnchorTiming(q.body.timing, q.now);
    IntervalIsValid(s.calendar(q.body.zone), anchored.hours, anchored.start.value, s.minHours, q.now);
    StripIsStable(q.action);
  }

  lemma {:induction false} FirstCreated(s: Settings, q: Request)
    requires AsksForInterval(s, q) && s.scheduleLimit > 0
    ensures ValidRun(s, Start, CreateSteps(q)) && Draft(s, q).Some? && Draft(s, q).value.body.ScheduleBody?
    ensures var w := Run(s, Start, CreateSteps(q));
            && w.txns == map[] && RepeatsIn(s, w.db, 0, Enabled, 1)
            && w.db.entries[0].record == Draft(s, q).value && 0 in w.db.used
            && 0 in w.db.due && w.db.due[0] == Draft(s, q).value.body.nextRun
  {
    IntervalIsDrafted(s, q);
    ThreeSteps(s, Start, WatchIndex(0, 0, q), ReadIndex(0), ExecCreate(0));
    assert ActiveIn(map[], Schedules) == {};
    assert Found(map[]) == map[];
  }

  /** And it does come about, from the empty store on. */
  lemma {:induction false} LostScheduleIsReachable(s: Settings, q: Request, polled: int, paused: int, resumed: int) returns (steps: seq<Step>)
    requires AsksForInterval(s, q) && s.scheduleLimit > 0 
    requires Draft(s, q).Some? && Draft(s, q).value.body.ScheduleBody? && polled >= Draft(s, q).value.body.nextRun
    ensures ValidRun(s, Start, steps)
    ensures EnabledAfter(Run(s, Start, steps).db, 0, resumed) && 0 !in Run(s, Start, steps).db.due
  {
    IntervalIsDrafted(s, q);
    FirstCreated(s, q);
    var w := Run(s, Start, CreateSteps(q));
    ResumeLosesToPoller(s, w, 1, 2, 0, q.creator, 1, polled, paused, resumed);
    RunConcat(s, Start, CreateSteps(q), Race(1, 2, 0, q.creator, 1, polled, paused, resumed));
    steps := CreateSteps(q) + Race(1, 2, 0, q.creator, 1, polled, paused, resumed);
  }
}
