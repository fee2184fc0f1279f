/** Runs of the automation clients: each step is one serial transaction, and the store's invariant holds throughout. */
module AutomationRuns {
  import opened Sequences
  import opened AutomationPolicy
  import opened AutomationStore
  import opened AutomationInvariant
  import opened AutomationClients

  /** What every serial transaction does to the store, as seen from a transaction still under way. */
  ghost predicate MovesOn(db: Db, after: Db) {
    && (forall id: Id :: IdDescends(db, after, id)) && (forall key: Key :: Stamped(db, after, key))
    && db.used <= after.used && after.entries.Keys <= after.used
  }

  lemma {:induction false} SerialMovesOn(s: Settings, db: Db, tx: Transaction)
    requires DbOk(db, s) && TransactionOk(db, tx)
    ensures MovesOn(db, Serial(s, db, tx))
  {
    var after := Serial(s, db, tx);
    forall id: Id { SerialDescends(s, db, tx, id); }
    forall key: Key { SerialStamps(s, db, tx, key); }
    forall id <- db.used ensures id in after.used { assert IdDescends(db, after, id); }
    SerialKeeps(s, db, tx);
  }

  lemma {:induction false} EarlierKept(db: Db, after: Db, id: Id, row: Record)
    requires IdDescends(db, after, id) && Earlier(db, id, row)
    ensures Earlier(after, id, row)
  {
  }

  lemma {:induction false} RowKept(db: Db, after: Db, id: Id, row: Option<Record>)
    requires IdDescends(db, after, id) && RowOk(db, id, row)
    ensures RowOk(after, id, row)
  {
  }

  lemma {:induction false} TxnKept(db: Db, after: Db, t: Txn)
    requires MovesOn(db, after) && TxnOk(db, t)
    ensures TxnOk(after, t)
  {
    match t
    case Creating(_, request, stamp, ids, rows, _) =>
      assert Stamped(db, after, IndexKey(RequestKind(request)));
      forall id | id in rows
        ensures RowOk(after, id, rows[id])
      {
        assert IdDescends(db, after, id);
        RowKept(db, after, id, rows[id]);
      }
    case Changing(id, goal, stamp, seen) =>
      assert Stamped(db, after, RecordKey(id)) && IdDescends(db, after, id);
      if goal.Outcome? {
        EarlierKept(db, after, id, goal.job);
      }
    case Purging(ids) =>
      forall id | id in ids
        ensures id in after.used && (id in after.entries ==> !Active(after.entries[id].record))
      {
        assert IdDescends(db, after, id);
      }
    case Polling(_, _) =>
  }

  /** Rows read one at a time, none of them watched, still decide an admission rightly while the index is unchanged. */
  lemma {:induction false} AdmittedNow(s: Settings, db: Db, r: Record, rows: map<Id, Option<Record>>)
    requires forall id <- rows :: RowOk(db, id, rows[id])
    requires rows.Keys == Index(db, KindOf(r)) && Admitted(s, r, Found(rows))
    ensures Admitted(s, r, LiveRows(db, KindOf(r)))
  {
    var live, q := LiveRows(db, KindOf(r)), QuotaOf(r);
    forall id <- ActiveIn(live, q)
      ensures id in ActiveIn(Found(rows), q)
    {
      assert RowOk(db, id, rows[id]);
    }
    SubsetSize(ActiveIn(live, q), ActiveIn(Found(rows), q));
    forall id <- live
      ensures !Clashes(s, r, live[id])
    {
      assert RowOk(db, id, rows[id]);
      assert !Clashes(s, r, Found(rows)[id]);
    }
  }

  lemma {:induction false} DraftKind(s: Settings, q: Request)
    requires Draft(s, q).Some?
    ensures KindOf(Draft(s, q).value) == RequestKind(q)
  {
  }

  /** Refinement: what a step does to the store is what its transaction does alone. */
  lemma {:induction false} StepIsSerial(s: Settings, w: World, step: Step)
    requires WorldOk(s, w) && CanStep(s, w, step)
    ensures TransactionOk(w.db, Committed(s, w, step))
    ensures Apply(s, w, step).db == Serial(s, w.db, Committed(s, w, step))
  {
    match step
    case ExecCreate(c) =>
      var t := w.txns[c];
      assert TxnOk(w.db, t);
      if Admits(s, t) && Stamp(w.db, IndexKey(RequestKind(t.request))) == t.stamp {
        DraftKind(s, t.request);
        AdmittedNow(s, w.db, Draft(s, t.request).value, t.rows);
      }
    case ExecChange(c, now) => assert TxnOk(w.db, w.txns[c]);
    case ExecPurge(c) => assert TxnOk(w.db, w.txns[c]);
    case _ =>
  }

  // ---- what is known stays known -------------------------------------------------------------------------

  /** What a step adds to the transactions under way and the rows held, before any commit. */
  lemma {:induction false} ReadsOk(s: Settings, w: World, step: Step)
    requires WorldOk(s, w) && CanStep(s, w, step)
    ensures forall c <- Apply(s, w, step).txns :: TxnOk(w.db, Apply(s, w, step).txns[c])
    ensures forall h <- Apply(s, w, step).held :: Earlier(w.db, h.0, h.1)
  {
    forall c <- Apply(s, w, step).txns ensures TxnOk(w.db, Apply(s, w, step).txns[c]) { ReadOk(s, w, step, c); }
  }

  lemma {:induction false} ReadOk(s: Settings, w: World, step: Step, c: Client)
    requires WorldOk(s, w) && CanStep(s, w, step) && c in Apply(s, w, step).txns
    ensures TxnOk(w.db, Apply(s, w, step).txns[c])
  {
    if c in w.txns {
      assert TxnOk(w.db, w.txns[c]);
    }
    if step.ReadTerminal? && step.client == c {
      RipeAreDone(s, w.db, step.now);
    }
    if step.ReadDue? && step.client == c {
      DueAreKnown(w.db, step.now);
    }
  }

  lemma {:induction false} RipeAreDone(s: Settings, db: Db, now: int)
    requires EntriesOk(db) && NamesOk(db)
    ensures TransactionOk(db, Purge(RipeTerminal(db, now)))
  {
  }

  lemma {:induction false} DueAreKnown(db: Db, now: int)
    requires DuesSound(db) && NamesOk(db)
    ensures DueBy(db, now) <= db.used
  {
    forall id <- DueBy(db, now) ensures id in db.used { assert DueSound(db, id); }
  }

  lemma {:induction false} StepKeeps(s: Settings, w: World, step: Step)
    requires WorldOk(s, w) && CanStep(s, w, step)
    ensures WorldOk(s, Apply(s, w, step))
  {
    var next, tx := Apply(s, w, step), Committed(s, w, step);
    StepIsSerial(s, w, step);
    SerialMovesOn(s, w.db, tx);
    SerialKeeps(s, w.db, tx);
    ReadsOk(s, w, step);
    forall c <- next.txns
      ensures TxnOk(next.db, next.txns[c])
    {
      TxnKept(w.db, next.db, next.txns[c]);
    }
    forall h <- next.held
      ensures Earlier(next.db, h.0, h.1)
    {
      assert IdDescends(w.db, next.db, h.0);
      EarlierKept(w.db, next.db, h.0, h.1);
    }
  }
}
