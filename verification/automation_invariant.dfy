/** Every store transaction keeps the due set, the quotas, the spacing of follow-ups and the revision log right. */
module AutomationInvariant {
  import opened Sequences
  import opened AutomationPolicy
  import opened AutomationStore

  /** `b` is a later state of the record `a`: its identity and a follow-up's time stay, and nothing comes back to life. */
  predicate Descends(a: Record, b: Record) {
    && a.creator == b.creator && QuotaOf(a) == QuotaOf(b)
    && (IsFollowUp(a) ==> a.body.nextRun == b.body.nextRun)
    && (Active(b) ==> Active(a)) && (a.status.Deleted? ==> b.status.Deleted?)
    && a.revision <= b.revision
    && (a.revision == b.revision && a.body.ScheduleBody? ==> a.body.timing == b.body.timing && a.body.zone == b.body.zone)
  }

  predicate IdDescends(db: Db, after: Db, id: Id) {
    && (id in db.used ==> id in after.used)
    && (id in after.entries && id in db.used ==>
          id in db.entries && Descends(db.entries[id].record, after.entries[id].record))
  }

  predicate FixedTime(r: Record) { IsFollowUp(r) ==> r.body.timing == Once(Some(r.body.nextRun)) }

  /** The row a job carries is an earlier state of the record it belongs to. */
  predicate Earlier(db: Db, id: Id, row: Record) {
    id in db.used && (id in db.entries ==> Descends(row, db.entries[id].record))
  }

  ghost predicate TransactionOk(db: Db, tx: Transaction) {
    match tx
    case Conclude(id, finish) => Earlier(db, id, finish.job)
    case Purge(ids) => forall id <- ids :: id in db.used && (id in db.entries ==> !Active(db.entries[id].record))
    case _ => true
  }

  // ---- one record ------------------------------------------------------------------------------

  lemma {:induction false} UpdatedDescends(s: Settings, r: Record, actor: int, revision: nat, c: Changes, now: int)
    requires FixedTime(r) && Updated(s, r, actor, revision, c, now).Some?
    ensures var u := Updated(s, r, actor, revision, c, now).value;
            && Descends(r, u) && FixedTime(u) && r.revision == revision && u.revision == revision + 1
            && !r.status.Deleted? && !u.status.Completed? && !u.status.Failed?
  {
  }

  lemma {:induction false} FinishedDescends(s: Settings, r: Record, f: Finish)
    requires FixedTime(r) && Descends(f.job, r) && Finished(s, r, f).Some?
    ensures var u := Finished(s, r, f).value;
            && Descends(r, u) && FixedTime(u) && u.revision == r.revision
            && u == r.(lastResult := u.lastResult, status := u.status, body := u.body)
            && (!Advances(r, f) ==> u.status == r.status && u.body == r.body)
            && (Ends(r, f) ==> !Active(u) && !u.status.Deleted? && u.body == r.body)
            && (Advances(r, f) && !Ends(r, f) ==> u.status.Enabled? && u.body.ScheduleBody?)
  {
  }

  // ---- the due set ---------------------------------------------------------------------------------

  lemma {:induction false} CreateDue(db: Db, id: Id, r: Record, key: Id)
    requires r.status.Enabled? && id !in db.entries && DueSound(db, key)
    ensures DueSound(CommitCreate(db, id, r), key)
    ensures DueOk(db, key) ==> DueOk(CommitCreate(db, id, r), key)
  {
  }

  lemma {:induction false} UpdateDue(db: Db, id: Id, revision: nat, u: Record, key: Id)
    requires id in db.entries && QuotaOf(db.entries[id].record) == QuotaOf(u) && DueSound(db, key)
    ensures DueSound(CommitUpdate(db, id, revision, u), key)
    ensures DueOk(db, key) ==> DueOk(CommitUpdate(db, id, revision, u), key)
  {
  }

  lemma {:induction false} FinishDue(db: Db, id: Id, u: Record, f: Finish, key: Id)
    requires id in db.entries && DueSound(db, key) && QuotaOf(db.entries[id].record) == QuotaOf(u) == QuotaOf(f.job)
    requires var r := db.entries[id].record;
             if Ends(r, f) then !Active(u)
             else if Advances(r, f) then u.status.Enabled? && u.body.ScheduleBody?
             else u.status == r.status && u.body == r.body
    ensures var after := CommitFinish(db, id, u, f, Advances(db.entries[id].record, f));
            DueSound(after, key) && (DueOk(db, key) ==> DueOk(after, key))
  {
  }

  // ---- each record's entry, and the log of updates ---------------------------------------------------

  ghost predicate EntriesOk(db: Db) { forall id <- db.entries :: EntryOk(db, id) }

  ghost predicate NamesOk(db: Db) {
    && db.scheduleIndex <= db.used && db.ruleIndex <= db.used && db.terminal.Keys <= db.used
    && db.entries.Keys <= db.used && (forall i | 0 <= i < |db.log| :: db.log[i].0 in db.used)
  }

  lemma {:induction false} UpdatesSnoc(log: seq<(Id, nat)>, e: (Id, nat), id: Id)
    ensures Updates(log + [e], id) == Updates(log, id) + (if e.0 == id then 1 else 0)
  {
    assert (log + [e])[..|log|] == log;
  }

  lemma {:induction false} NoUpdates(log: seq<(Id, nat)>, id: Id)
    requires forall i | 0 <= i < |log| :: log[i].0 != id
    ensures Updates(log, id) == 0
  {
    if log != [] {
      NoUpdates(log[..|log|-1], id);
    }
  }

  lemma {:induction false} CreateEntry(db: Db, id: Id, r: Record, key: Id)
    requires NamesOk(db) && id !in db.used && Active(r) && FixedTime(r)
    requires key == id || (key in db.entries && EntryOk(db, key))
    ensures EntryOk(CommitCreate(db, id, r), key)
  {
  }

  lemma {:induction false} UpdateEntry(db: Db, id: Id, revision: nat, u: Record, key: Id)
    requires id in db.entries && key in db.entries && EntryOk(db, key)
    requires Descends(db.entries[id].record, u) && FixedTime(u)
    ensures EntryOk(CommitUpdate(db, id, revision, u), key)
  {
  }

  lemma {:induction false} FinishEntry(db: Db, id: Id, u: Record, f: Finish, key: Id)
    requires id in db.entries && key in db.entries && EntryOk(db, key)
    requires Descends(db.entries[id].record, u) && FixedTime(u)
    requires Ends(db.entries[id].record, f) ==> !Active(u)
    requires u.status.Deleted? ==> db.entries[id].record.status.Deleted?
    ensures EntryOk(CommitFinish(db, id, u, f, Advances(db.entries[id].record, f)), key)
  {
  }

  lemma {:induction false} PurgeEntry(db: Db, ids: set<Id>, key: Id)
    requires key in db.entries && EntryOk(db, key) && (key in ids ==> !Active(db.entries[key].record))
    ensures EntryOk(CommitPurge(db, ids), key)
  {
  }

  // ---- revisions and the log of updates --------------------------------------------------------------

  lemma {:induction false} CreateRevision(db: Db, id: Id, r: Record, key: Id)
    requires NamesOk(db) && id !in db.used && r.revision == 1 && (key == id || (key in db.entries && RevisionOk(db, key)))
    ensures RevisionOk(CommitCreate(db, id, r), key)
  {
    if key == id {
      NoUpdates(db.log, id);
    }
  }

  lemma {:induction false} UpdateRevision(db: Db, id: Id, revision: nat, u: Record, key: Id)
    requires id in db.entries && key in db.entries && RevisionOk(db, key)
    requires u.revision == db.entries[id].record.revision + 1
    ensures RevisionOk(CommitUpdate(db, id, revision, u), key)
  {
    UpdatesSnoc(db.log, (id, revision), key);
  }

  lemma {:induction false} UpdateLog(db: Db, id: Id, u: Record)
    requires LogOk(db) && NamesOk(db) && id in db.entries && u.revision == db.entries[id].record.revision + 1
    ensures LogOk(CommitUpdate(db, id, db.entries[id].record.revision, u))
  {
  }

  // ---- quotas and spacing ---------------------------------------------------------------------------

  /** No record of `after` is newly active, newly listed or a follow-up at a new time. */
  ghost predicate Shrinks(db: Db, after: Db) {
    && (forall id <- after.entries :: id in db.entries && Descends(db.entries[id].record, after.entries[id].record))
    && after.scheduleIndex <= db.scheduleIndex
  }

  lemma {:induction false} ShrunkQuota(s: Settings, db: Db, after: Db)
    requires QuotaOk(db, s) && Shrinks(db, after)
    ensures QuotaOk(after, s)
  {
    forall q: Quota
      ensures |ActiveIds(after, q)| <= Limit(s, q)
    {
      SubsetSize(ActiveIds(after, q), ActiveIds(db, q));
    }
  }

  lemma {:induction false} ShrunkSpacing(s: Settings, db: Db, after: Db)
    requires SpacingOk(db, s) && Shrinks(db, after)
    ensures SpacingOk(after, s)
  {
  }

  lemma {:induction false} CreateQuota(s: Settings, db: Db, id: Id, r: Record)
    requires EntriesOk(db) && QuotaOk(db, s) && id !in db.entries && Admitted(s, r, LiveRows(db, KindOf(r)))
    ensures QuotaOk(CommitCreate(db, id, r), s)
  {
    var after := CommitCreate(db, id, r);
    forall q: Quota
      ensures |ActiveIds(after, q)| <= Limit(s, q)
    {
      if q == QuotaOf(r) {
        AllRead(db, KindOf(r), q);
        SubsetSize(ActiveIds(after, q), ActiveIn(LiveRows(db, KindOf(r)), q) + {id});
      } else {
        SubsetSize(ActiveIds(after, q), ActiveIds(db, q));
      }
    }
  }

  /** Every active record is in its index, so the rows read for a quota show it. */
  lemma {:induction false} AllRead(db: Db, kind: Kind, q: Quota)
    requires EntriesOk(db) && (kind.Rule? <==> q.Rules?)
    ensures ActiveIds(db, q) <= ActiveIn(LiveRows(db, kind), q)
  {
  }

  lemma {:induction false} CreateSpacing(s: Settings, db: Db, id: Id, r: Record)
    requires NamesOk(db) && SpacingOk(db, s) && id !in db.used && Admitted(s, r, LiveRows(db, KindOf(r)))
    ensures SpacingOk(CommitCreate(db, id, r), s)
  {
    var after := CommitCreate(db, id, r);
    forall a, b | a in after.scheduleIndex && b in after.scheduleIndex && a != b && Get(after, a).Some? && Get(after, b).Some?
      ensures !Clashes(s, Get(after, a).value, Get(after, b).value)
    {
      if a != id && b != id {
        assert Get(db, a) == Get(after, a) && Get(db, b) == Get(after, b);
      } else {
        var other := if a == id then b else a;
        assert Get(db, other) == Get(after, other);
        if r.body.ScheduleBody? {
          assert other in LiveRows(db, Schedule);
        }
      }
    }
  }

  // ---- every transaction ------------------------------------------------------------------------------

  ghost predicate DuesSound(db: Db) { forall id :: DueSound(db, id) }

  ghost predicate RevisionsOk(db: Db) { forall id <- db.entries :: RevisionOk(db, id) }

  ghost predicate DbOk(db: Db, s: Settings) {
    DuesSound(db) && EntriesOk(db) && RevisionsOk(db) && NamesOk(db) && LogOk(db) && QuotaOk(db, s) && SpacingOk(db, s)
  }

  lemma {:induction false} CreateKeeps(s: Settings, db: Db, id: Id, r: Record)
    requires DbOk(db, s) && id !in db.used && Admitted(s, r, LiveRows(db, KindOf(r)))
    requires r.status.Enabled? && r.revision == 1 && FixedTime(r)
    ensures DbOk(CommitCreate(db, id, r), s)
  {
    var after := CommitCreate(db, id, r);
    assert DuesSound(after) by {
      forall key { CreateDue(db, id, r, key); }
    }
    assert EntriesOk(after) by {
      forall key | key in after.entries { CreateEntry(db, id, r, key); }
    }
    assert RevisionsOk(after) by {
      forall key | key in after.entries { CreateRevision(db, id, r, key); }
    }
    CreateQuota(s, db, id, r);
    CreateSpacing(s, db, id, r);
  }

  lemma {:induction false} UpdateKeeps(s: Settings, db: Db, id: Id, u: Record)
    requires DbOk(db, s) && id in db.entries
    requires Descends(db.entries[id].record, u) && FixedTime(u) && u.revision == db.entries[id].record.revision + 1
    ensures DbOk(CommitUpdate(db, id, db.entries[id].record.revision, u), s)
  {
    var revision := db.entries[id].record.revision;
    var after := CommitUpdate(db, id, revision, u);
    assert DuesSound(after) by {
      forall key { UpdateDue(db, id, revision, u, key); }
    }
    assert EntriesOk(after) by {
      forall key | key in after.entries { UpdateEntry(db, id, revision, u, key); }
    }
    assert RevisionsOk(after) by {
      forall key | key in after.entries { UpdateRevision(db, id, revision, u, key); }
    }
    UpdateLog(db, id, u);
    ShrunkQuota(s, db, after);
    ShrunkSpacing(s, db, after);
  }

  lemma {:induction false} FinishKeeps(s: Settings, db: Db, id: Id, f: Finish)
    requires DbOk(db, s) && id in db.entries && Descends(f.job, db.entries[id].record)
    requires Finished(s, db.entries[id].record, f).Some?
    ensures var r := db.entries[id].record;
            DbOk(CommitFinish(db, id, Finished(s, r, f).value, f, Advances(r, f)), s)
  {
    var r := db.entries[id].record;
    var u, advances := Finished(s, r, f).value, Advances(r, f);
    FinishedDescends(s, r, f);
    var after := CommitFinish(db, id, u, f, advances);
    assert DuesSound(after) by {
      forall key { FinishDue(db, id, u, f, key); }
    }
    assert EntriesOk(after) by {
      forall key | key in after.entries { FinishEntry(db, id, u, f, key); }
    }
    assert RevisionsOk(after);
    ShrunkQuota(s, db, after);
    ShrunkSpacing(s, db, after);
  }

  /** What is due stays right when only records that are not enabled lose their entry. */
  lemma {:induction false} DueUnchanged(db: Db, after: Db, key: Id)
    requires after.due == db.due && DueSound(db, key)
    requires key in after.entries ==> key in db.entries && after.entries[key] == db.entries[key]
    requires EnabledSchedule(db, key) ==> key in after.entries
    ensures DueSound(after, key) && (DueOk(db, key) ==> DueOk(after, key))
  {
  }

  lemma {:induction false} PurgeKeeps(s: Settings, db: Db, ids: set<Id>)
    requires DbOk(db, s) && TransactionOk(db, Purge(ids))
    ensures DbOk(CommitPurge(db, ids), s)
  {
    var after := CommitPurge(db, ids);
    assert EntriesOk(after) by {
      forall key | key in after.entries { PurgeEntry(db, ids, key); }
    }
    assert DuesSound(after) by {
      forall key { DueUnchanged(db, after, key); }
    }
    ShrunkQuota(s, db, after);
    ShrunkSpacing(s, db, after);
  }

  lemma {:induction false} ExpireKeeps(s: Settings, db: Db, id: Id)
    requires DbOk(db, s) && id in db.entries && db.entries[id].expires
    ensures DbOk(ExpireEntry(db, id), s)
  {
    var after := ExpireEntry(db, id);
    assert EntryOk(db, id);
    assert DuesSound(after) by {
      forall key { DueUnchanged(db, after, key); }
    }
    assert EntriesOk(after) by {
      forall key | key in after.entries
        ensures EntryOk(after, key)
      {
        assert EntryOk(db, key);
      }
    }
    ShrunkQuota(s, db, after);
    ShrunkSpacing(s, db, after);
  }

  lemma {:induction false} DraftFixed(s: Settings, q: Request)
    requires Draft(s, q).Some?
    ensures var r := Draft(s, q).value; r.status.Enabled? && r.revision == 1 && FixedTime(r)
  {
  }

  lemma {:induction false} SerialKeeps(s: Settings, db: Db, tx: Transaction)
    requires DbOk(db, s) && TransactionOk(db, tx)
    ensures DbOk(Serial(s, db, tx), s)
  {
    match tx
    case Create(id, request) =>
      if id !in db.used && Draft(s, request).Some? && Admitted(s, Draft(s, request).value, LiveRows(db, KindOf(Draft(s, request).value))) {
        DraftFixed(s, request);
        CreateKeeps(s, db, id, Draft(s, request).value);
      }
    case Update(id, actor, revision, changes, now) =>
      if id in db.entries && Updated(s, db.entries[id].record, actor, revision, changes, now).Some? {
        assert EntryOk(db, id);
        UpdatedDescends(s, db.entries[id].record, actor, revision, changes, now);
        UpdateKeeps(s, db, id, Updated(s, db.entries[id].record, actor, revision, changes, now).value);
      }
    case Conclude(id, f) =>
      if id in db.entries && Finished(s, db.entries[id].record, f).Some? {
        assert EntryOk(db, id);
        FinishKeeps(s, db, id, f);
      }
    case Purge(ids) => PurgeKeeps(s, db, ids);
    case Expire(id) => if id in db.entries && db.entries[id].expires { ExpireKeeps(s, db, id); }
    case ForgetLast(person) => SameRecords(s, db, Serial(s, db, tx));
    case Drop(id) => SameRecords(s, db, DropDue(db, id));
    case Nothing =>
  }

  /** The last follow-up times are not part of the invariant, and the due set only needs to be sound. */
  lemma {:induction false} SameRecords(s: Settings, db: Db, after: Db)
    requires DbOk(db, s) && after == db.(followupLast := after.followupLast, due := after.due)
    requires forall id <- after.due :: id in db.due && after.due[id] == db.due[id]
    ensures DbOk(after, s)
  {
    assert DuesSound(after) by {
      forall key ensures DueSound(after, key) { assert DueSound(db, key); }
    }
    assert EntriesOk(after) by {
      forall key | key in db.entries ensures EntryOk(after, key) { assert EntryOk(db, key); }
    }
    assert RevisionsOk(after) by {
      forall key | key in db.entries ensures RevisionOk(after, key) { assert RevisionOk(db, key); }
    }
    ShrunkQuota(s, db, after);
    ShrunkSpacing(s, db, after);
  }

  /** Only a removal of an enabled schedule can make a due set that was right wrong. */
  lemma {:induction false} SerialDue(s: Settings, db: Db, tx: Transaction, key: Id)
    requires DbOk(db, s) && TransactionOk(db, tx) && DueOk(db, key)
    ensures DueOk(Serial(s, db, tx), key) <==> !(tx == Drop(key) && EnabledSchedule(db, key))
  {
    match tx
    case Create(id, request) =>
      if id !in db.used && Draft(s, request).Some? {
        DraftFixed(s, request);
        CreateDue(db, id, Draft(s, request).value, key);
      }
    case Update(id, actor, revision, changes, now) =>
      if id in db.entries && Updated(s, db.entries[id].record, actor, revision, changes, now).Some? {
        assert EntryOk(db, id);
        UpdatedDescends(s, db.entries[id].record, actor, revision, changes, now);
        UpdateDue(db, id, revision, Updated(s, db.entries[id].record, actor, revision, changes, now).value, key);
      }
    case Conclude(id, f) =>
      if id in db.entries && Finished(s, db.entries[id].record, f).Some? {
        assert EntryOk(db, id);
        FinishedDescends(s, db.entries[id].record, f);
        FinishDue(db, id, Finished(s, db.entries[id].record, f).value, f, key);
      }
    case Expire(id) => if id in db.entries && db.entries[id].expires { assert EntryOk(db, id); }
    case _ =>
  }

  /** Only an edit that resumes it makes a record enabled that was not. */
  lemma {:induction false} OnlyEditsEnable(s: Settings, db: Db, tx: Transaction, id: Id)
    requires DbOk(db, s) && TransactionOk(db, tx) && id in db.used
    requires !EnabledSchedule(db, id) && EnabledSchedule(Serial(s, db, tx), id)
    ensures tx.Update? && tx.id == id && tx.changes.status == Some(Enabled)
  {
    match tx
    case Update(key, actor, revision, changes, now) =>
      if key in db.entries && Updated(s, db.entries[key].record, actor, revision, changes, now).Some? {
        assert EntryOk(db, key);
        UpdatedDescends(s, db.entries[key].record, actor, revision, changes, now);
      }
    case _ =>
  }

  lemma {:induction false} UpdateDescends(db: Db, key: Id, revision: nat, u: Record, id: Id)
    requires key in db.entries && Descends(db.entries[key].record, u)
    ensures IdDescends(db, CommitUpdate(db, key, revision, u), id)
  {
  }

  lemma {:induction false} FinishDescends(db: Db, key: Id, u: Record, f: Finish, advances: bool, id: Id)
    requires key in db.entries && Descends(db.entries[key].record, u)
    ensures IdDescends(db, CommitFinish(db, key, u, f, advances), id)
  {
  }

  /** Every transaction only moves each record forward. */
  lemma {:induction false} SerialDescends(s: Settings, db: Db, tx: Transaction, id: Id)
    requires EntriesOk(db) && NamesOk(db) && TransactionOk(db, tx)
    ensures IdDescends(db, Serial(s, db, tx), id)
  {
    match tx
    case Update(key, actor, revision, changes, now) =>
      if key in db.entries && Updated(s, db.entries[key].record, actor, revision, changes, now).Some? {
        assert EntryOk(db, key);
        UpdatedDescends(s, db.entries[key].record, actor, revision, changes, now);
        UpdateDescends(db, key, revision, Updated(s, db.entries[key].record, actor, revision, changes, now).value, id);
      }
    case Conclude(key, f) =>
      if key in db.entries && Finished(s, db.entries[key].record, f).Some? {
        var r := db.entries[key].record;
        assert EntryOk(db, key);
        FinishedDescends(s, r, f);
        FinishDescends(db, key, Finished(s, r, f).value, f, Advances(r, f), id);
      }
    case _ =>
  }
}
