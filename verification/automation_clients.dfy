/**
 Many clients of one store, each between two of its awaits at any moment. A client watches a key, reads rows one
 at a time without watching them, and commits only if the watched key was not written since; otherwise it tries
 again as a new transaction. Every interleaving is a serial execution of the transactions that committed.
 */
module AutomationClients {
  import opened Sequences
  import opened AutomationPolicy
  import opened AutomationStore
  import opened AutomationInvariant

  type Client = nat

  datatype Goal =
    | Edit(actor: int, revision: nat, changes: Changes)
    | Outcome(job: Record, outcome: string, started: Option<int>)

  /**
   A transaction under way: what was watched and at which write count, and what has been read so far; `last` is the
   time of the person's last follow-up, if there was one, once it has been read. A poller has
   the members it still goes through, and one whose row it found gone or not enabled and will take out of the due set.
   */
  datatype Txn =
    | Creating(id: Id, request: Request, stamp: nat, ids: Option<set<Id>>, rows: map<Id, Option<Record>>, last: Option<Option<int>>)
    | Changing(id: Id, goal: Goal, stamp: nat, seen: Option<Record>)
    | Purging(done: set<Id>)
    | Polling(listed: set<Id>, gone: Option<Id>)

  /** `held` are all rows anybody read and may still act on, as the jobs in a queue do. */
  datatype World = World(db: Db, held: set<(Id, Record)>, txns: map<Client, Txn>)

  const Start := World(EmptyDb, {}, map[])

  datatype Step =
    | Hold(id: Id)
    | WatchIndex(client: Client, id: Id, request: Request)
    | ReadIndex(client: Client)
    | ReadRow(client: Client, id: Id)
    | ReadLast(client: Client)
    | ExecCreate(client: Client)
    | WatchRecord(client: Client, id: Id, goal: Goal)
    | ReadRecord(client: Client)
    | ExecChange(client: Client, now: int)
    | ReadTerminal(client: Client, now: int)
    | ExecPurge(client: Client)
    | ReadDue(client: Client, now: int)
    | ReadDueRow(client: Client, id: Id)
    | RemoveDue(client: Client)
    | ExpireRecord(id: Id)
    | ExpireLast(person: int)
    | Crash(client: Client)

  function RequestKind(q: Request): Kind { if q.body.ScheduleBody? then Schedule else Rule }

  predicate IsCreating(w: World, c: Client) { c in w.txns && w.txns[c].Creating? }
  predicate IsChanging(w: World, c: Client) { c in w.txns && w.txns[c].Changing? }
  predicate IsPurging(w: World, c: Client) { c in w.txns && w.txns[c].Purging? }
  predicate IsPolling(w: World, c: Client) { c in w.txns && w.txns[c].Polling? }

  predicate AsksFollowUp(q: Request) { q.body.ScheduleBody? && q.body.followup }

  predicate AllRowsRead(w: World, c: Client) {
    IsCreating(w, c) && w.txns[c].ids.Some? && w.txns[c].rows.Keys == w.txns[c].ids.value
  }

  /** When a step may happen. New ids are random; the model assumes they never repeat. */
  predicate CanStep(s: Settings, w: World, step: Step) {
    match step
    case WatchIndex(c, id, request) => c !in w.txns && Draft(s, request).Some?
    case ReadIndex(c) => IsCreating(w, c) && w.txns[c].ids.None?
    case ReadRow(c, id) => IsCreating(w, c) && w.txns[c].ids.Some? && id in w.txns[c].ids.value && id !in w.txns[c].rows
    case ReadLast(c) => AllRowsRead(w, c) && w.txns[c].last.None?
    case ExecCreate(c) =>
      && AllRowsRead(w, c) && w.txns[c].id !in w.db.used
      && (AsksFollowUp(w.txns[c].request) ==> w.txns[c].last.Some?)
    case WatchRecord(c, id, goal) => c !in w.txns && (goal.Outcome? ==> (id, goal.job) in w.held)
    case ReadRecord(c) => IsChanging(w, c) && w.txns[c].seen.None?
    case ExecChange(c, _) => IsChanging(w, c) && w.txns[c].seen.Some?
    case ReadTerminal(c, _) => c !in w.txns
    case ExecPurge(c) => IsPurging(w, c)
    case ReadDue(c, _) => c !in w.txns
    case ReadDueRow(c, id) => IsPolling(w, c) && w.txns[c].gone.None? && id in w.txns[c].listed
    case RemoveDue(c) => IsPolling(w, c) && w.txns[c].gone.Some?
    case _ => true
  }

  function Found(rows: map<Id, Option<Record>>): map<Id, Record> { map id <- rows | rows[id].Some? :: rows[id].value }

  /** A refusal of the last follow-up's time, read separately because that follow-up may have left the index. */
  predicate ClashesWithLast(s: Settings, r: Record, last: Option<Option<int>>) {
    IsFollowUp(r) && last.Some? && last.value.Some? && TooClose(last.value.value, r.body.nextRun, s.minHours)
  }

  predicate Admits(s: Settings, t: Txn)
    requires t.Creating?
  {
    var draft := Draft(s, t.request);
    draft.Some? && Admitted(s, draft.value, Found(t.rows)) && !ClashesWithLast(s, draft.value, t.last)
  }

  function DueBy(db: Db, now: int): set<Id> { set id <- db.due | db.due[id] <= now }

  /** A member that is enabled goes on to a job, which holds its row; any other is to be removed. */
  function PollRow(w: World, c: Client, id: Id): World
    requires IsPolling(w, c)
  {
    var row, rest := Get(w.db, id), w.txns[c].listed - {id};
    if row.None? || !row.value.status.Enabled? then w.(txns := w.txns[c := Polling(rest, Some(id))])
    else w.(held := w.held + {(id, row.value)}, txns := w.txns[c := Polling(rest, None)])
  }

  function Commit(s: Settings, db: Db, t: Txn, now: int): Db
    requires t.Changing? && t.seen.Some?
  {
    match t.goal
    case Edit(actor, revision, changes) =>
      var r := Updated(s, t.seen.value, actor, revision, changes, now);
      if r.None? then db else CommitUpdate(db, t.id, revision, r.value)
    case Outcome(job, outcome, started) =>
      var f := Finish(job, outcome, started, now);
      var r := Finished(s, t.seen.value, f);
      if r.None? then db else CommitFinish(db, t.id, r.value, f, Advances(t.seen.value, f))
  }

  function Apply(s: Settings, w: World, step: Step): World
    requires CanStep(s, w, step)
  {
    match step
    case Hold(id) =>
      var row := Get(w.db, id);
      if row.None? then w else w.(held := w.held + {(id, row.value)})
    case WatchIndex(c, id, request) =>
      var t := Creating(id, request, Stamp(w.db, IndexKey(RequestKind(request))), None, map[], None);
      w.(txns := w.txns[c := t])
    case ReadIndex(c) =>
      w.(txns := w.txns[c := w.txns[c].(ids := Some(Index(w.db, RequestKind(w.txns[c].request))))])
    case ReadRow(c, id) => w.(txns := w.txns[c := w.txns[c].(rows := w.txns[c].rows[id := Get(w.db, id)])])
    case ReadLast(c) =>
      var person := w.txns[c].request.creator;
      var last := if person in w.db.followupLast then Some(w.db.followupLast[person]) else None;
      w.(txns := w.txns[c := w.txns[c].(last := Some(last))])
    case ExecCreate(c) =>
      var t := w.txns[c];
      var idle := w.(txns := w.txns - {c});
      if !Admits(s, t) || Stamp(w.db, IndexKey(RequestKind(t.request))) != t.stamp then idle
      else idle.(db := CommitCreate(w.db, t.id, Draft(s, t.request).value))
    case WatchRecord(c, id, goal) =>
      w.(txns := w.txns[c := Changing(id, goal, Stamp(w.db, RecordKey(id)), None)])
    case ReadRecord(c) =>
      var id := w.txns[c].id;
      if id !in w.db.entries then w.(txns := w.txns - {c})
      else w.(txns := w.txns[c := w.txns[c].(seen := Some(w.db.entries[id].record))])
    case ExecChange(c, now) =>
      var t := w.txns[c];
      var idle := w.(txns := w.txns - {c});
      if Stamp(w.db, RecordKey(t.id)) != t.stamp then idle else idle.(db := Commit(s, w.db, t, now))
    case ReadTerminal(c, now) => w.(txns := w.txns[c := Purging(RipeTerminal(w.db, now))])
    case ExecPurge(c) => w.(txns := w.txns - {c}, db := CommitPurge(w.db, w.txns[c].done))
    case ReadDue(c, now) => w.(txns := w.txns[c := Polling(DueBy(w.db, now), None)])
    case ReadDueRow(c, id) => PollRow(w, c, id)
    case RemoveDue(c) => w.(txns := w.txns[c := w.txns[c].(gone := None)], db := DropDue(w.db, w.txns[c].gone.value))
    case ExpireRecord(id) =>
      if id in w.db.entries && w.db.entries[id].expires then w.(db := ExpireEntry(w.db, id)) else w
    case ExpireLast(person) => w.(db := w.db.(followupLast := w.db.followupLast - {person}))
    case Crash(c) => w.(txns := w.txns - {c})
  }

  predicate ValidRun(s: Settings, w: World, steps: seq<Step>)
    decreases |steps|, 0
  {
    steps == [] || (ValidRun(s, w, steps[..|steps|-1]) && CanStep(s, Run(s, w, steps[..|steps|-1]), steps[|steps|-1]))
  }

  function Run(s: Settings, w: World, steps: seq<Step>): World
    requires ValidRun(s, w, steps)
    decreases |steps|, 1
  {
    if steps == [] then w else Apply(s, Run(s, w, steps[..|steps|-1]), steps[|steps|-1])
  }

  /** The transaction a step commits. */
  function Committed(s: Settings, w: World, step: Step): Transaction
    requires CanStep(s, w, step)
  {
    match step
    case ExecCreate(c) =>
      var t := w.txns[c];
      if Admits(s, t) && Stamp(w.db, IndexKey(RequestKind(t.request))) == t.stamp then Create(t.id, t.request) else Nothing
    case ExecChange(c, now) =>
      var t := w.txns[c];
      if Stamp(w.db, RecordKey(t.id)) != t.stamp then Nothing
      else if t.goal.Edit? then Update(t.id, t.goal.actor, t.goal.revision, t.goal.changes, now)
      else Conclude(t.id, Finish(t.goal.job, t.goal.outcome, t.goal.started, now))
    case ExecPurge(c) => Purge(w.txns[c].done)
    case RemoveDue(c) => Drop(w.txns[c].gone.value)
    case ExpireRecord(id) => Expire(id)
    case ExpireLast(person) => ForgetLast(person)
    case _ => Nothing
  }

  function History(s: Settings, w: World, steps: seq<Step>): seq<Transaction>
    requires ValidRun(s, w, steps)
    decreases |steps|
  {
    if steps == [] then []
    else
      var front := steps[..|steps|-1];
      History(s, w, front) + [Committed(s, Run(s, w, front), steps[|steps|-1])]
  }

  function SerialRun(s: Settings, db: Db, txs: seq<Transaction>): Db {
    if txs == [] then db else Serial(s, SerialRun(s, db, txs[..|txs|-1]), txs[|txs|-1])
  }

  // ---- what is known of a transaction under way -----------------------------------------------------------

  /** What a row read earlier says about the record now: one that still lives was read, in an earlier state. */
  predicate RowOk(db: Db, id: Id, row: Option<Record>) {
    id in db.used && (Get(db, id).Some? ==> row.Some? && Descends(row.value, Get(db, id).value))
  }

  ghost predicate TxnOk(db: Db, t: Txn) {
    match t
    case Creating(_, request, stamp, ids, rows, _) =>
      var key := IndexKey(RequestKind(request));
      && stamp <= Stamp(db, key)
      && (ids.Some? && stamp == Stamp(db, key) ==> ids.value == Index(db, RequestKind(request)))
      && (ids.Some? ==> ids.value <= db.used)
      && (forall id <- rows :: RowOk(db, id, rows[id]))
    case Changing(id, goal, stamp, seen) =>
      && stamp <= Stamp(db, RecordKey(id))
      && (seen.Some? && stamp == Stamp(db, RecordKey(id)) ==> id in db.entries && db.entries[id].record == seen.value)
      && (goal.Outcome? ==> Earlier(db, id, goal.job))
    case Purging(ids) => TransactionOk(db, Purge(ids))
    case Polling(listed, gone) => listed <= db.used && (gone.Some? ==> gone.value in db.used)
  }

  ghost predicate TxnsOk(w: World) { forall c <- w.txns :: TxnOk(w.db, w.txns[c]) }

  ghost predicate HeldOk(w: World) { forall h <- w.held :: Earlier(w.db, h.0, h.1) }

  ghost predicate WorldOk(s: Settings, w: World) { DbOk(w.db, s) && TxnsOk(w) && HeldOk(w) }

  // ---- a watched key that was not written still has its value ------------------------------------------------

  predicate SameUnder(db: Db, after: Db, key: Key) {
    match key
    case IndexKey(kind) => Index(db, kind) == Index(after, kind)
    case RecordKey(id) =>
      (id in db.entries <==> id in after.entries) && (id in db.entries ==> db.entries[id] == after.entries[id])
  }

  predicate Stamped(db: Db, after: Db, key: Key) {
    Stamp(db, key) <= Stamp(after, key) && (Stamp(db, key) == Stamp(after, key) ==> SameUnder(db, after, key))
  }

  lemma {:induction false} TouchStamps(db: Db, after: Db, id: Id, kind: Option<Kind>, key: Key)
    requires after.stamps == Touch(db, id, kind) && after.entries - {id} == db.entries - {id}
    requires kind != Some(Schedule) ==> after.scheduleIndex == db.scheduleIndex
    requires kind != Some(Rule) ==> after.ruleIndex == db.ruleIndex
    ensures Stamped(db, after, key)
  {
    if key.RecordKey? && key.id != id {
      assert key.id in db.entries <==> key.id in db.entries - {id};
      assert key.id in after.entries <==> key.id in after.entries - {id};
      assert key.id in after.entries ==> (after.entries - {id})[key.id] == after.entries[key.id];
    }
  }

  lemma {:induction false} CreateStamps(db: Db, id: Id, r: Record, key: Key)
    ensures Stamped(db, CommitCreate(db, id, r), key)
  {
    TouchStamps(db, CommitCreate(db, id, r), id, Some(KindOf(r)), key);
  }

  lemma {:induction false} UpdateStamps(db: Db, id: Id, revision: nat, r: Record, key: Key)
    ensures Stamped(db, CommitUpdate(db, id, revision, r), key)
  {
    TouchStamps(db, CommitUpdate(db, id, revision, r), id,
                if r.status.Deleted? && id in Index(db, KindOf(r)) then Some(KindOf(r)) else None, key);
  }

  lemma {:induction false} FinishStamps(db: Db, id: Id, r: Record, f: Finish, advances: bool, key: Key)
    ensures Stamped(db, CommitFinish(db, id, r, f, advances), key)
  {
    TouchStamps(db, CommitFinish(db, id, r, f, advances), id, None, key);
  }

  lemma {:induction false} SerialStamps(s: Settings, db: Db, tx: Transaction, key: Key)
    ensures Stamped(db, Serial(s, db, tx), key)
  {
    match tx
    case Create(id, q) =>
      if Draft(s, q).Some? { CreateStamps(db, id, Draft(s, q).value, key); }
    case Update(id, actor, revision, c, now) =>
      if id in db.entries && Updated(s, db.entries[id].record, actor, revision, c, now).Some? {
        UpdateStamps(db, id, revision, Updated(s, db.entries[id].record, actor, revision, c, now).value, key);
      }
    case Conclude(id, f) =>
      if id in db.entries && Finished(s, db.entries[id].record, f).Some? {
        FinishStamps(db, id, Finished(s, db.entries[id].record, f).value, f, Advances(db.entries[id].record, f), key);
      }
    case Purge(ids) => assert ids !! db.scheduleIndex ==> db.scheduleIndex - ids == db.scheduleIndex;
    case Expire(id) => TouchStamps(db, ExpireEntry(db, id), id, None, key);
    case _ =>
  }
}
