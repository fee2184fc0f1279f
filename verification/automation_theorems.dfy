/** What holds of the automations over every interleaving of their clients, and where the code promises less. */
module AutomationTheorems {
  import opened Sequences
  import opened Text
  import opened AutomationPolicy
  import opened AutomationStore
  import opened AutomationInvariant
  import opened AutomationClients
  import opened AutomationRuns

  /** Serializability: any run leaves the store as its committed transactions do, one after another. */
  lemma {:induction false} RunsAreSerial(s: Settings, steps: seq<Step>)
    requires ValidRun(s, Start, steps)
    ensures WorldOk(s, Run(s, Start, steps))
    ensures Run(s, Start, steps).db == SerialRun(s, EmptyDb, History(s, Start, steps))
    decreases |steps|
  {
    if steps == [] {
      EmptyOk(s);
    } else {
      var front, step := steps[..|steps|-1], steps[|steps|-1];
      RunsAreSerial(s, front);
      var w := Run(s, Start, front);
      StepIsSerial(s, w, step);
      StepKeeps(s, w, step);
      var txs := History(s, Start, front);
      assert (txs + [Committed(s, w, step)])[..|txs|] == txs;
    }
  }

  lemma {:induction false} EmptyOk(s: Settings)
    ensures WorldOk(s, Start)
  {
    forall q: Quota ensures ActiveIds(EmptyDb, q) == {} {}
  }

  /** With any number of clients, no quota is exceeded and one person's listed follow-ups keep their distance. */
  lemma {:induction false} LimitsHold(s: Settings, steps: seq<Step>, q: Quota, a: Id, b: Id)
    requires ValidRun(s, Start, steps)
    ensures var db := Run(s, Start, steps).db;
            && |set id <- db.entries | Active(db.entries[id].record) && QuotaOf(db.entries[id].record) == q| <= Limit(s, q)
            && (a != b && a in db.scheduleIndex && b in db.scheduleIndex && Get(db, a).Some? && Get(db, b).Some?
                && IsFollowUp(Get(db, a).value) && IsFollowUp(Get(db, b).value)
                && Get(db, a).value.creator == Get(db, b).value.creator ==>
                  var t, u := Get(db, a).value.body.nextRun, Get(db, b).value.body.nextRun;
                  t - u >= s.minHours * HOUR || u - t >= s.minHours * HOUR)
  {
    RunsAreSerial(s, steps);
    var db := Run(s, Start, steps).db;
    assert ActiveIds(db, q) == set id <- db.entries | Active(db.entries[id].record) && QuotaOf(db.entries[id].record) == q;
    if a != b && a in db.scheduleIndex && b in db.scheduleIndex && Get(db, a).Some? && Get(db, b).Some? {
      assert !Clashes(s, Get(db, a).value, Get(db, b).value);
    }
  }

  /**
   Whatever is due is an enabled schedule, due at its next run; a revision counts the edits that committed; and of all
   edits that named one revision, at most one did. `AutomationPoller` says when every enabled schedule is due.
   */
  lemma {:induction false} DueAndRevisions(s: Settings, steps: seq<Step>, id: Id, i: nat, j: nat)
    requires ValidRun(s, Start, steps)
    ensures var db := Run(s, Start, steps).db;
            && (id in db.due ==> id in db.entries && db.entries[id].record.body.ScheduleBody? && db.entries[id].record.status.Enabled?)
            && (id in db.due ==> db.due[id] == db.entries[id].record.body.nextRun)
            && (id in db.entries ==> db.entries[id].record.revision == 1 + Updates(db.log, id))
            && (i < j < |db.log| ==> db.log[i] != db.log[j])
  {
    RunsAreSerial(s, steps);
    var db := Run(s, Start, steps).db;
    assert DueSound(db, id);
    if id in db.entries {
      assert RevisionOk(db, id);
    }
  }

  /** A row anybody has read is, at any later time, an earlier state of the record it names. */
  lemma {:induction false} HeldRowsAreEarlier(s: Settings, steps: seq<Step>, id: Id, row: Record)
    requires ValidRun(s, Start, steps) && (id, row) in Run(s, Start, steps).held
    ensures Earlier(Run(s, Start, steps).db, id, row)
  {
    RunsAreSerial(s, steps);
    assert ((id, row)).0 == id;
  }

  // ---- recording an outcome -----------------------------------------------------------------------------

  lemma {:induction false} FollowingIsLater(cal: Calendar, timing: Timing, occurrence: int, started: int, now: int, minHours: nat)
    requires FollowingRun(cal, timing, occurrence, started, now, minHours).At?
    ensures FollowingRun(cal, timing, occurrence, started, now, minHours).t > occurrence
    ensures FollowingRun(cal, timing, occurrence, started, now, minHours).t > now
  {
    NextIsLater(cal, timing, Max(occurrence, Max(started + minHours * HOUR - ON_TIME_GRACE - 1, now)));
  }

  /**
   An outcome never overwrites an edit: only the result is written, unless the record is still enabled at the revision
   the job was made from. Then a one-off leaves the due set for good, and any other schedule moves strictly past both
   the occurrence that ran and the present.
   */
  lemma {:induction false} FinishAdvances(s: Settings, db: Db, id: Id, f: Finish)
    requires DbOk(db, s) && id in db.entries && Earlier(db, id, f.job) && f.job.body.ScheduleBody?
    requires Finished(s, db.entries[id].record, f).Some?
    ensures var r, after := db.entries[id].record, Serial(s, db, Conclude(id, f));
            var u := after.entries[id].record;
            && u.action == r.action && u.editor == r.editor && u.revision == r.revision && u.lastResult == f.outcome
            && (r.revision != f.job.revision || !r.status.Enabled? ==> u == r.(lastResult := f.outcome) && after.due == db.due)
            && (r.revision == f.job.revision && r.status.Enabled? ==>
                  if f.job.body.timing.Once? then
                    id !in after.due && !Active(u)
                  else
                    id in after.due && after.due[id] == u.body.nextRun > f.job.body.nextRun && u.body.nextRun > f.now)
  {
    var r := db.entries[id].record;
    assert EntryOk(db, id);
    FinishedDescends(s, r, f);
    var job := f.job.body;
    if Advances(r, f) && !job.timing.Once? {
      FollowingIsLater(s.calendar(job.zone), job.timing, job.nextRun, Or(f.started, f.now), f.now, s.minHours);
    }
  }

  /** Writing an outcome gives the record a time to live exactly when it ends a one-off, whatever it had before. */
  lemma {:induction false} FinishSetsExpiryIff(s: Settings, db: Db, id: Id, f: Finish)
    requires id in db.entries && Finished(s, db.entries[id].record, f).Some?
    ensures Serial(s, db, Conclude(id, f)).entries[id].expires <==> Ends(db.entries[id].record, f)
  {
  }

  predicate Lingers(db: Db, id: Id) {
    id in db.used && id in db.entries && db.entries[id].record.status.Deleted? && !db.entries[id].expires
  }

  /** So an outcome that arrives after a deletion takes away its time to live, and then nothing ever removes the record. */
  lemma {:induction false} OutcomeAfterDeletionLingers(s: Settings, db: Db, id: Id, f: Finish, tx: Transaction)
    requires DbOk(db, s) && id in db.entries && db.entries[id].record.status.Deleted?
    ensures Lingers(Serial(s, db, Conclude(id, f)), id)
    ensures Lingers(db, id) ==> Lingers(Serial(s, db, tx), id)
  {
    assert EntryOk(db, id);
    if Lingers(db, id) {
      LingersOn(s, db, id, tx);
    }
  }

  lemma {:induction false} LingersOn(s: Settings, db: Db, id: Id, tx: Transaction)
    requires Lingers(db, id)
    ensures Lingers(Serial(s, db, tx), id)
  {
  }
}
