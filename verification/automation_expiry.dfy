/** Which ended records are kept for good: an outcome written after the end takes the time to live away. */
module AutomationExpiry {
  import opened Sequences
  import opened Text
  import opened AutomationPolicy
  import opened AutomationStore
  import opened AutomationInvariant
  import opened AutomationClients
  import opened AutomationRuns
  import opened AutomationTheorems
  import opened AutomationPoller

  predicate Ended(db: Db, id: Id) { id in db.entries && !Active(db.entries[id].record) }

  predicate HasExpiry(db: Db, id: Id) { id in db.entries && db.entries[id].expires }

  /** An outcome for a record that has ended already. */
  predicate LateOutcome(db: Db, tx: Transaction, id: Id) { tx.Conclude? && tx.id == id && Ended(db, id) }

  /** An edit of a record that has ended, which can only be its deletion. */
  predicate Redeletes(s: Settings, db: Db, tx: Transaction, id: Id) {
    && tx.Update? && tx.id == id && Ended(db, id)
    && Updated(s, db.entries[id].record, tx.actor, tx.revision, tx.changes, tx.now).Some?
  }

  lemma {:induction false} UpdateExpiry(s: Settings, db: Db, tx: Transaction, id: Id)
    requires EntriesOk(db) && tx.Update? && Ended(Serial(s, db, tx), id)
    ensures !HasExpiry(Serial(s, db, tx), id) <==> Ended(db, id) && !HasExpiry(db, id) && !Redeletes(s, db, tx, id)
  {
    if tx.id in db.entries && Updated(s, db.entries[tx.id].record, tx.actor, tx.revision, tx.changes, tx.now).Some? {
      assert EntryOk(db, tx.id);
      UpdatedDescends(s, db.entries[tx.id].record, tx.actor, tx.revision, tx.changes, tx.now);
    }
  }

  lemma {:induction false} ConcludeExpiry(s: Settings, db: Db, tx: Transaction, id: Id)
    requires EntriesOk(db) && tx.Conclude? && TransactionOk(db, tx) && Ended(Serial(s, db, tx), id)
    ensures !HasExpiry(Serial(s, db, tx), id) <==> Ended(db, id) && (LateOutcome(db, tx, id) || !HasExpiry(db, id))
  {
    if tx.id in db.entries && Finished(s, db.entries[tx.id].record, tx.finish).Some? {
      assert EntryOk(db, tx.id);
      FinishedDescends(s, db.entries[tx.id].record, tx.finish);
    }
  }

  lemma {:induction false} ExpiryStep(s: Settings, db: Db, tx: Transaction, id: Id)
    requires DbOk(db, s) && TransactionOk(db, tx) && Ended(Serial(s, db, tx), id)
    ensures !HasExpiry(Serial(s, db, tx), id) <==>
            Ended(db, id) && (LateOutcome(db, tx, id) || (!HasExpiry(db, id) && !Redeletes(s, db, tx, id)))
  {
    match tx
    case Create(key, request) =>
      if Draft(s, request).Some? { DraftFixed(s, request); }
      if Ended(db, id) { assert EntryOk(db, id); }
    case Update(key, actor, revision, changes, now) => UpdateExpiry(s, db, tx, id);
    case Conclude(key, f) => ConcludeExpiry(s, db, tx, id);
    case _ =>
  }

  predicate LateAt(s: Settings, steps: seq<Step>, k: nat, id: Id)
    requires ValidRun(s, Start, steps) && k < |steps|
  {
    NextWorld(s, steps, k);
    LateOutcome(WorldAt(s, steps, k).db, Committed(s, WorldAt(s, steps, k), steps[k]), id)
  }

  predicate RedeletesAt(s: Settings, steps: seq<Step>, k: nat, id: Id)
    requires ValidRun(s, Start, steps) && k < |steps|
  {
    NextWorld(s, steps, k);
    Redeletes(s, WorldAt(s, steps, k).db, Committed(s, WorldAt(s, steps, k), steps[k]), id)
  }

  predicate EndedAt(s: Settings, steps: seq<Step>, n: nat, id: Id)
    requires ValidRun(s, Start, steps) && n <= |steps|
  {
    Ended(WorldAt(s, steps, n).db, id)
  }

  predicate ExpiresAt(s: Settings, steps: seq<Step>, n: nat, id: Id)
    requires ValidRun(s, Start, steps) && n <= |steps|
  {
    HasExpiry(WorldAt(s, steps, n).db, id)
  }

  /** Step `k` wrote an outcome after the end, and nobody has deleted the record again by step `n`. */
  predicate OutcomeLast(s: Settings, steps: seq<Step>, k: nat, n: nat, id: Id)
    requires ValidRun(s, Start, steps) && n <= |steps|
  {
    k < n && LateAt(s, steps, k, id) && forall i | k < i < n :: !RedeletesAt(s, steps, i, id)
  }

  lemma {:induction false} ExpiryAt(s: Settings, steps: seq<Step>, n: nat, id: Id)
    requires ValidRun(s, Start, steps) && n < |steps| && EndedAt(s, steps, n + 1, id)
    ensures !ExpiresAt(s, steps, n + 1, id) <==>
            && EndedAt(s, steps, n, id)
            && (LateAt(s, steps, n, id) || (!ExpiresAt(s, steps, n, id) && !RedeletesAt(s, steps, n, id)))
  {
    NextWorld(s, steps, n);
    var w, step := WorldAt(s, steps, n), steps[n];
    StepIsSerial(s, w, step);
    ExpiryStep(s, w.db, Committed(s, w, step), id);
  }

  /** What has ended stays so for as long as its record is there. */
  lemma {:induction false} EndedStays(s: Settings, steps: seq<Step>, k: nat, n: nat, id: Id)
    requires ValidRun(s, Start, steps) && k <= n <= |steps| && EndedAt(s, steps, k, id) && id in WorldAt(s, steps, n).db.entries
    ensures EndedAt(s, steps, n, id)
    decreases n
  {
    if k < n {
      EndedJustBefore(s, steps, k, n - 1, id);
      EndedStays(s, steps, k, n - 1, id);
      EndedNext(s, steps, n - 1, id);
    }
  }

  lemma {:induction false} KnownNow(s: Settings, steps: seq<Step>, n: nat, id: Id)
    requires ValidRun(s, Start, steps) && n <= |steps| && id in WorldAt(s, steps, n).db.entries
    ensures id in WorldAt(s, steps, n).db.used
  {
    PrefixValid(s, steps, n);
    RunsAreSerial(s, steps[..n]);
  }

  lemma {:induction false} KnownNext(s: Settings, steps: seq<Step>, n: nat, id: Id)
    requires ValidRun(s, Start, steps) && n < |steps| && id in WorldAt(s, steps, n).db.used
    ensures id in WorldAt(s, steps, n + 1).db.used
  {
    DescendsAt(s, steps, n, id);
  }

  lemma {:induction false} Known(s: Settings, steps: seq<Step>, k: nat, n: nat, id: Id)
    requires ValidRun(s, Start, steps) && k <= n <= |steps| && id in WorldAt(s, steps, k).db.used
    ensures id in WorldAt(s, steps, n).db.used
    decreases n
  {
    if k < n {
      Known(s, steps, k, n - 1, id);
      KnownNext(s, steps, n - 1, id);
    }
  }

  lemma {:induction false} DescendsAt(s: Settings, steps: seq<Step>, n: nat, id: Id)
    requires ValidRun(s, Start, steps) && n < |steps|
    ensures IdDescends(WorldAt(s, steps, n).db, WorldAt(s, steps, n + 1).db, id)
  {
    NextWorld(s, steps, n);
    var w, step := WorldAt(s, steps, n), steps[n];
    StepIsSerial(s, w, step);
    SerialDescends(s, w.db, Committed(s, w, step), id);
  }

  lemma {:induction false} EndedJustBefore(s: Settings, steps: seq<Step>, k: nat, n: nat, id: Id)
    requires ValidRun(s, Start, steps) && k <= n < |steps| && EndedAt(s, steps, k, id) && id in WorldAt(s, steps, n + 1).db.entries
    ensures id in WorldAt(s, steps, n).db.entries
  {
    KnownNow(s, steps, k, id);
    Known(s, steps, k, n, id);
    DescendsAt(s, steps, n, id);
  }

  lemma {:induction false} EndedNext(s: Settings, steps: seq<Step>, n: nat, id: Id)
    requires ValidRun(s, Start, steps) && n < |steps| && EndedAt(s, steps, n, id) && id in WorldAt(s, steps, n + 1).db.entries
    ensures EndedAt(s, steps, n + 1, id)
  {
    KnownNow(s, steps, n, id);
    DescendsAt(s, steps, n, id);
  }

  lemma {:induction false} NothingEndedAtFirst(s: Settings, steps: seq<Step>, id: Id)
    requires ValidRun(s, Start, steps)
    ensures !EndedAt(s, steps, 0, id)
  {
  }

  lemma {:induction false} StillLast(s: Settings, steps: seq<Step>, k: nat, n: nat, id: Id)
    requires ValidRun(s, Start, steps) && n < |steps| && OutcomeLast(s, steps, k, n, id) && !RedeletesAt(s, steps, n, id)
    ensures OutcomeLast(s, steps, k, n + 1, id)
  {
  }

  lemma {:induction false} FindOutcome(s: Settings, steps: seq<Step>, n: nat, id: Id) returns (k: nat)
    requires ValidRun(s, Start, steps) && n <= |steps| && EndedAt(s, steps, n, id) && !ExpiresAt(s, steps, n, id)
    ensures OutcomeLast(s, steps, k, n, id)
    decreases n
  {
    NothingEndedAtFirst(s, steps, id);
    ExpiryAt(s, steps, n - 1, id);
    if LateAt(s, steps, n - 1, id) {
      k := n - 1;
    } else {
      k := FindOutcome(s, steps, n - 1, id);
      StillLast(s, steps, k, n - 1, id);
    }
  }

  lemma {:induction false} OutcomeTakesExpiry(s: Settings, steps: seq<Step>, k: nat, n: nat, id: Id)
    requires ValidRun(s, Start, steps) && n <= |steps| && EndedAt(s, steps, n, id) && OutcomeLast(s, steps, k, n, id)
    ensures !ExpiresAt(s, steps, n, id)
    decreases n
  {
    ExpiryAt(s, steps, n - 1, id);
    if k < n - 1 {
      EndedJustBefore(s, steps, k, n - 1, id);
      EndedStays(s, steps, k, n - 1, id);
      OutcomeTakesExpiry(s, steps, k, n - 1, id);
    }
  }

  /**
   Over any run, a record that has ended is kept without a time to live exactly when an outcome was written for it
   after it had ended or been deleted, and it has not been deleted again since.
   */
  lemma {:induction false} KeptForGoodIff(s: Settings, steps: seq<Step>, n: nat, id: Id)
    requires ValidRun(s, Start, steps) && n <= |steps| && EndedAt(s, steps, n, id)
    ensures !ExpiresAt(s, steps, n, id) <==> exists k: nat :: OutcomeLast(s, steps, k, n, id)
  {
    if !ExpiresAt(s, steps, n, id) {
      var k := FindOutcome(s, steps, n, id);
    }
    if k: nat :| OutcomeLast(s, steps, k, n, id) {
      OutcomeTakesExpiry(s, steps, k, n, id);
    }
  }

  // ---- a run in which one is ---------------------------------------------------------------------------------

  function OutcomeSteps(d: Client, id: Id, job: Record, outcome: string, started: Option<int>, now: int): seq<Step> {
    [WatchRecord(d, id, Outcome(job, outcome, started)), ReadRecord(d), ExecChange(d, now)]
  }

  /** An outcome that nobody disturbs. */
  lemma {:induction false} OutcomeAlone(
      s: Settings, w: World, d: Client, id: Id, job: Record, outcome: string, started: Option<int>, now: int)
    requires d !in w.txns && id in w.db.entries && (id, job) in w.held
    ensures var steps := OutcomeSteps(d, id, job, outcome, started, now);
            && ValidRun(s, w, steps)
            && Run(s, w, steps) == w.(db := Serial(s, w.db, Conclude(id, Finish(job, outcome, started, now))))
  {
    var a, b, c := WatchRecord(d, id, Outcome(job, outcome, started)), ReadRecord(d), ExecChange(d, now);
    ThreeSteps(s, w, a, b, c);
    var w2 := Apply(s, Apply(s, w, a), b);
    assert w2.txns - {d} == w.txns;
  }

  /** A job holds a row; its schedule is deleted; the job ends and its outcome is recorded. */
  function LateRun(q: Request, job: Record, outcome: string, deleted: int, finished: int): seq<Step> {
    CreateSteps(q) + [Hold(0)] + EditSteps(1, 0, q.creator, 1, Deleted, deleted) + OutcomeSteps(2, 0, job, outcome, None, finished)
  }

  lemma {:induction false} Deleting(s: Settings, db: Db, id: Id, actor: int, now: int)
    requires RepeatsIn(s, db, id, Enabled, 1)
    ensures var after := Serial(s, db, Update(id, actor, 1, SetStatus(Deleted), now));
            id in after.entries && after.entries[id].record.status.Deleted? && after.used == db.used
  {
  }

  lemma {:induction false} LateLingers(s: Settings, db: Db, id: Id, f: Finish)
    requires id in db.used && id in db.entries && db.entries[id].record.status.Deleted?
    ensures Lingers(Serial(s, db, Conclude(id, f)), id)
  {
  }

  /** And so a deleted schedule is kept for good. */
  lemma {:induction false} DeletedIsKept(s: Settings, q: Request, outcome: string, deleted: int, finished: int)
    requires AsksForInterval(s, q) && s.scheduleLimit > 0
    ensures Draft(s, q).Some?
    ensures var steps := LateRun(q, Draft(s, q).value, outcome, deleted, finished);
            ValidRun(s, Start, steps) && Lingers(Run(s, Start, steps).db, 0)
  {
    FirstCreated(s, q);
    var job, w := Draft(s, q).value, Run(s, Start, CreateSteps(q));
    OneStep(s, w, Hold(0));
    RunConcat(s, Start, CreateSteps(q), [Hold(0)]);
    var held := Apply(s, w, Hold(0));
    EditAlone(s, held, 1, 0, q.creator, 1, Deleted, deleted);
    RunConcat(s, Start, CreateSteps(q) + [Hold(0)], EditSteps(1, 0, q.creator, 1, Deleted, deleted));
    Deleting(s, held.db, 0, q.creator, deleted);
    var gone := Run(s, held, EditSteps(1, 0, q.creator, 1, Deleted, deleted));
    OutcomeAlone(s, gone, 2, 0, job, outcome, None, finished);
    LateLingers(s, gone.db, 0, Finish(job, outcome, None, finished));
    RunConcat(s, Start, CreateSteps(q) + [Hold(0)] + EditSteps(1, 0, q.creator, 1, Deleted, deleted),
              OutcomeSteps(2, 0, job, outcome, None, finished));
  }
}
