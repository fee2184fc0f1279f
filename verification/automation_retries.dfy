/**
 The store's read-modify-write loops as they run in one process, with whatever other clients do while they await:
 `others` gives, for each attempt, the transactions that commit between its read and its commit.
 */
module AutomationRetries {
  import opened Sequences
  import opened AutomationPolicy
  import opened AutomationStore
  import opened AutomationClients

  const ATTEMPTS := 8

  function Report(job: Record, outcome: string, started: Option<int>, now: int): Finish {
    AutomationStore.Finish.Finish(job, outcome, started, now)
  }

  /** How a loop ends; for one attempt, `GaveUp` says another client wrote the record meanwhile. */
  datatype Ending = Committed(record: Record) | Refused | GaveUp

  /** The store after `tries` attempts that did not commit: the others' transactions, and nothing else. */
  function Waited(s: Settings, before: Db, others: seq<seq<Transaction>>, tries: nat): Db
    requires tries <= |others|
  {
    if tries == 0 then before else SerialRun(s, Waited(s, before, others, tries - 1), others[tries-1])
  }

  /** A key that was not written meanwhile still has its value. */
  lemma {:induction false} Unwritten(s: Settings, db: Db, txs: seq<Transaction>, key: Key)
    ensures Stamped(db, SerialRun(s, db, txs), key)
    decreases |txs|
  {
    if txs != [] {
      Unwritten(s, db, txs[..|txs|-1], key);
      SerialStamps(s, SerialRun(s, db, txs[..|txs|-1]), txs[|txs|-1], key);
    }
  }

  /** So an edit computed from what was read before is the edit of what is there now. */
  lemma {:induction false} UpdateStillRight(s: Settings, db: Db, now: Db, id: Id, actor: int, revision: nat, c: Changes, at: int)
    requires Stamped(db, now, RecordKey(id)) && Stamp(db, RecordKey(id)) == Stamp(now, RecordKey(id))
    requires id in db.entries && Updated(s, db.entries[id].record, actor, revision, c, at).Some?
    ensures var r := Updated(s, db.entries[id].record, actor, revision, c, at).value;
            Serial(s, now, Transaction.Update(id, actor, revision, c, at)) == CommitUpdate(now, id, revision, r)
  {
  }

  lemma {:induction false} FinishStillRight(s: Settings, db: Db, now: Db, id: Id, f: Finish)
    requires Stamped(db, now, RecordKey(id)) && Stamp(db, RecordKey(id)) == Stamp(now, RecordKey(id))
    requires id in db.entries && Finished(s, db.entries[id].record, f).Some?
    ensures var r := db.entries[id].record;
            Serial(s, now, Conclude(id, f)) == CommitFinish(now, id, Finished(s, r, f).value, f, Advances(r, f))
  {
  }

  /** The changes with their timing pinned to `now`, as the first attempt leaves them for those that follow. */
  function Pinned(c: Changes, now: int): Changes {
    if c.timing.Some? then c.(timing := Some(AnchorTiming(c.timing.value, now))) else c
  }

  /** Pinning changes no edit of that moment, and once pinned no later moment pins anew. */
  lemma {:induction false} PinnedOnce(s: Settings, r: Record, actor: int, revision: nat, c: Changes, now: int, later: int)
    ensures Updated(s, r, actor, revision, Pinned(c, now), now) == Updated(s, r, actor, revision, c, now)
    ensures Pinned(Pinned(c, now), later) == Pinned(c, now)
  {
  }

  class Store {
    const settings: Settings
    var db: Db

    constructor (settings: Settings, db: Db)
      ensures this.settings == settings && this.db == db
    {
      this.settings, this.db := settings, db;
    }

    /** Other clients' transactions, while this one awaits. */
    method Meanwhile(txs: seq<Transaction>)
      modifies this`db
      ensures db == SerialRun(settings, old(db), txs)
    {
      for i := 0 to |txs|
        invariant db == SerialRun(settings, old(db), txs[..i])
      {
        assert txs[..i+1][..i] == txs[..i];
        db := Serial(settings, db, txs[i]);
      }
      assert txs[..|txs|] == txs;
    }

    /** One attempt: watch, read, compute, let the others act, and commit if nobody wrote the record. */
    method TryUpdate(id: Id, actor: int, revision: nat, changes: Changes, now: int, others: seq<Transaction>)
      returns (ending: Ending)
      modifies this`db
      ensures ending.Refused? ==> db == old(db)
      ensures ending.GaveUp? ==> db == SerialRun(settings, old(db), others)
      ensures ending.Committed? ==> id in db.entries && db.entries[id].record == ending.record
      ensures ending.Committed? ==>
                db == Serial(settings, SerialRun(settings, old(db), others), Transaction.Update(id, actor, revision, changes, now))
    {
      var stamp := Stamp(db, RecordKey(id));
      var row := if id in db.entries then Updated(settings, db.entries[id].record, actor, revision, changes, now) else None;
      if row.None? {
        return Refused;
      }
      Meanwhile(others);
      if Stamp(db, RecordKey(id)) != stamp {
        return GaveUp;
      }
      Unwritten(settings, old(db), others, RecordKey(id));
      UpdateStillRight(settings, old(db), db, id, actor, revision, changes, now);
      db := CommitUpdate(db, id, revision, row.value);
      return Committed(row.value);
    }

    method Update(id: Id, actor: int, revision: nat, changes: Changes, nows: seq<int>, others: seq<seq<Transaction>>)
      returns (ending: Ending, tries: nat)
      requires |nows| == ATTEMPTS == |others|
      modifies this`db
      ensures tries <= ATTEMPTS && (ending.GaveUp? ==> tries == ATTEMPTS) && (ending.Committed? ==> tries > 0)
      ensures !ending.Committed? ==> db == Waited(settings, old(db), others, tries)
      ensures ending.Committed? ==>
                db == Serial(settings, Waited(settings, old(db), others, tries),
                             Transaction.Update(id, actor, revision, Pinned(changes, nows[0]), nows[tries-1]))
    {
      ghost var before := db;
      var edit := changes;
      for k := 0 to ATTEMPTS
        invariant db == Waited(settings, before, others, k)
        invariant edit == if k == 0 then changes else Pinned(changes, nows[0])
      {
        edit := Pinned(edit, nows[k]);
        ending := TryUpdate(id, actor, revision, edit, nows[k], others[k]);
        if !ending.GaveUp? {
          return ending, if ending.Committed? then k + 1 else k;
        }
      }
      return GaveUp, ATTEMPTS;
    }

    method TryFinish(id: Id, f: Finish, others: seq<Transaction>) returns (ending: Ending)
      modifies this`db
      ensures ending.Refused? ==> db == old(db)
      ensures ending.GaveUp? ==> db == SerialRun(settings, old(db), others)
      ensures ending.Committed? ==> id in db.entries && db.entries[id].record == ending.record
      ensures ending.Committed? ==>
                db == Serial(settings, SerialRun(settings, old(db), others), Conclude(id, f))
    {
      var stamp := Stamp(db, RecordKey(id));
      if id !in db.entries {
        return Refused;
      }
      var current := db.entries[id].record;
      var row := Finished(settings, current, f);
      if row.None? {
        return Refused;
      }
      Meanwhile(others);
      if Stamp(db, RecordKey(id)) != stamp {
        return GaveUp;
      }
      Unwritten(settings, old(db), others, RecordKey(id));
      FinishStillRight(settings, old(db), db, id, f);
      db := CommitFinish(db, id, row.value, f, Advances(current, f));
      return Committed(row.value);
    }

    method Finish(id: Id, job: Record, outcome: string, started: Option<int>, nows: seq<int>, others: seq<seq<Transaction>>)
      returns (ending: Ending, tries: nat)
      requires |nows| == ATTEMPTS == |others|
      modifies this`db
      ensures tries <= ATTEMPTS && (ending.GaveUp? ==> tries == ATTEMPTS) && (ending.Committed? ==> tries > 0)
      ensures !ending.Committed? ==> db == Waited(settings, old(db), others, tries)
      ensures ending.Committed? ==>
                db == Serial(settings, Waited(settings, old(db), others, tries), Conclude(id, Report(job, outcome, started, nows[tries-1])))
    {
      ghost var before := db;
      for k := 0 to ATTEMPTS
        invariant db == Waited(settings, before, others, k)
      {
        ending := TryFinish(id, Report(job, outcome, started, nows[k]), others[k]);
        if !ending.GaveUp? {
          return ending, if ending.Committed? then k + 1 else k;
        }
      }
      return GaveUp, ATTEMPTS;
    }
  }
}
