/**
 One server's automations in Redis. Each transaction of the store is a pure computation of what to
 write followed by one atomic commit; `AutomationClients` interleaves the reads and commits of many clients.
 */
module AutomationStore {
  import opened Sequences
  import opened Text
  import opened AutomationPolicy

  const MAX_ACTION_CHARS := 1500
  const MAX_PATTERN_CHARS := 200

  type Id = nat

  datatype Kind = Schedule | Rule
  datatype Status = Enabled | Paused | Suspended | Completed | Failed | Deleted
  datatype Quota = Schedules | FollowUps | Rules

  datatype Body =
    | ScheduleBody(timing: Timing, zone: nat, nextRun: int, followup: bool)
    | RuleBody(pattern: string, wholeWords: bool)

  datatype Record = Record(
    creator: int, editor: int, status: Status, revision: nat, action: string, body: Body, lastResult: string)

  datatype Settings = Settings(
    calendar: nat -> Calendar, minHours: nat, scheduleLimit: nat, followupLimit: nat, ruleLimit: nat)

  datatype Key = RecordKey(id: Id) | IndexKey(kind: Kind)

  /** A stored record; `expires` says its key carries a time to live. */
  datatype Entry = Entry(record: Record, expires: bool)

  /**
   `stamps` counts the writes of each watched key, `used` remembers every id ever taken, and `log` the
   updates that committed, each with the revision it named.
   */
  datatype Db = Db(
    entries: map<Id, Entry>, scheduleIndex: set<Id>, ruleIndex: set<Id>, due: map<Id, int>, terminal: map<Id, int>,
    followupLast: map<int, int>, stamps: map<Key, nat>, used: set<Id>, log: seq<(Id, nat)>)

  const EmptyDb := Db(map[], {}, {}, map[], map[], map[], map[], {}, [])

  predicate Active(r: Record) { !r.status.Completed? && !r.status.Failed? && !r.status.Deleted? }

  function KindOf(r: Record): Kind { if r.body.ScheduleBody? then Schedule else Rule }

  predicate IsFollowUp(r: Record) { r.body.ScheduleBody? && r.body.followup }

  function QuotaOf(r: Record): Quota {
    if r.body.RuleBody? then Rules else if r.body.followup then FollowUps else Schedules
  }

  function Limit(s: Settings, q: Quota): nat {
    match q
    case Schedules => s.scheduleLimit
    case FollowUps => s.followupLimit
    case Rules => s.ruleLimit
  }

  function Index(db: Db, kind: Kind): set<Id> { if kind.Schedule? then db.scheduleIndex else db.ruleIndex }

  function Stamp(db: Db, key: Key): nat { if key in db.stamps then db.stamps[key] else 0 }

  /** The write counters after writing one record and, if `kind` is given, changing that kind's index. */
  function Touch(db: Db, id: Id, kind: Option<Kind>): map<Key, nat> {
    var record := db.stamps[RecordKey(id) := Stamp(db, RecordKey(id)) + 1];
    if kind.None? then record else record[IndexKey(kind.value) := Stamp(db, IndexKey(kind.value)) + 1]
  }

  /** What a plain read of a record sees: deleted ones are hidden. */
  function Get(db: Db, id: Id): Option<Record> {
    if id in db.entries && !db.entries[id].record.status.Deleted? then Some(db.entries[id].record) else None
  }

  // ---- create -------------------------------------------------------------------------------

  datatype Request = Request(creator: int, action: string, body: Body, now: int)

  /** The record a request asks for, with its timing anchored and its first run chosen; none when it is refused. */
  function Draft(s: Settings, q: Request): Option<Record> {
    if Strip(q.action) == "" || |q.action| > MAX_ACTION_CHARS then None
    else
      match q.body
      case ScheduleBody(timing, zone, _, followup) =>
        var anchored := AnchorTiming(timing, q.now);
        var next := ValidateSchedule(s.calendar(zone), anchored, s.minHours, q.now);
        if (followup && !timing.Once?) || !next.At? then None
        else Some(Record(q.creator, q.creator, Enabled, 1, Strip(q.action), ScheduleBody(anchored, zone, next.t, followup), ""))
      case RuleBody(pattern, words) =>
        if Strip(pattern) == "" || |Strip(pattern)| > MAX_PATTERN_CHARS then None
        else Some(Record(q.creator, q.creator, Enabled, 1, Strip(q.action), RuleBody(Strip(pattern), words), ""))
  }

  function ActiveIn(rows: map<Id, Record>, q: Quota): set<Id> {
    set id <- rows | Active(rows[id]) && QuotaOf(rows[id]) == q
  }

  predicate Clashes(s: Settings, a: Record, b: Record) {
    IsFollowUp(a) && IsFollowUp(b) && a.creator == b.creator && TooClose(a.body.nextRun, b.body.nextRun, s.minHours)
  }

  /** Room under the quota, and no follow-up of the same person too close, judged by the rows that were read. */
  predicate Admitted(s: Settings, r: Record, rows: map<Id, Record>) {
    && |ActiveIn(rows, QuotaOf(r))| < Limit(s, QuotaOf(r))
    && forall id <- rows :: !Clashes(s, r, rows[id])
  }

  function LiveRows(db: Db, kind: Kind): map<Id, Record> {
    map id | id in Index(db, kind) && Get(db, id).Some? :: Get(db, id).value
  }

  function CommitCreate(db: Db, id: Id, r: Record): Db {
    db.(entries := db.entries[id := Entry(r, false)],
        scheduleIndex := if r.body.ScheduleBody? then db.scheduleIndex + {id} else db.scheduleIndex,
        ruleIndex := if r.body.RuleBody? then db.ruleIndex + {id} else db.ruleIndex,
        stamps := Touch(db, id, Some(KindOf(r))),
        used := db.used + {id},
        due := if r.body.ScheduleBody? then db.due[id := r.body.nextRun] else db.due)
  }

  // ---- update --------------------------------------------------------------------------------

  datatype Changes = Changes(
    status: Option<Status>, action: Option<string>, timing: Option<Timing>, zone: Option<nat>,
    pattern: Option<string>, wholeWords: Option<bool>)

  const DeleteOnly := Changes(Some(Deleted), None, None, None, None, None)

  function Or<T>(o: Option<T>, d: T): T { if o.Some? then o.value else d }

  function ChangedBody(b: Body, c: Changes, now: int): Body {
    match b
    case ScheduleBody(timing, zone, next, followup) =>
      ScheduleBody(if c.timing.Some? then AnchorTiming(c.timing.value, now) else timing, Or(c.zone, zone), next, followup)
    case RuleBody(pattern, words) => RuleBody(Or(c.pattern, pattern), Or(c.wholeWords, words))
  }

  predicate Allows(b: Body, c: Changes) {
    if b.ScheduleBody? then c.pattern.None? && c.wholeWords.None? && (b.followup ==> c.timing.None? && c.zone.None?)
    else c.timing.None? && c.zone.None?
  }

  predicate GoodText(r: Record) {
    && Strip(r.action) != "" && |r.action| <= MAX_ACTION_CHARS
    && (r.body.RuleBody? ==> Strip(r.body.pattern) != "" && |r.body.pattern| <= MAX_PATTERN_CHARS)
  }

  /** The record after an edit, or none when the edit is refused. */
  function Updated(s: Settings, r: Record, actor: int, revision: nat, c: Changes, now: int): Option<Record> {
    if r.revision != revision || r.status.Deleted? then None
    else if (r.status.Completed? || r.status.Failed?) && c != DeleteOnly then None
    else if !Allows(r.body, c) then None
    else
      var edited := r.(status := Or(c.status, r.status), action := Or(c.action, r.action), body := ChangedBody(r.body, c, now));
      if edited.status.Completed? || edited.status.Failed? || !GoodText(edited) then None
      else
        var final := edited.(revision := r.revision + 1, editor := actor);
        if edited.body.ScheduleBody? && edited.status.Enabled? then
          var next := ValidateSchedule(s.calendar(edited.body.zone), edited.body.timing, s.minHours, now);
          if !next.At? then None else Some(final.(body := final.body.(nextRun := next.t)))
        else Some(final)
  }

  function CommitUpdate(db: Db, id: Id, revision: nat, r: Record): Db {
    var deleted := r.status.Deleted?;
    db.(entries := db.entries[id := Entry(r, deleted)],
        scheduleIndex := if deleted && r.body.ScheduleBody? then db.scheduleIndex - {id} else db.scheduleIndex,
        ruleIndex := if deleted && r.body.RuleBody? then db.ruleIndex - {id} else db.ruleIndex,
        stamps := Touch(db, id, if deleted && id in Index(db, KindOf(r)) then Some(KindOf(r)) else None),
        log := db.log + [(id, revision)],
        due := if r.body.RuleBody? then db.due
               else if r.status.Enabled? then db.due[id := r.body.nextRun] else db.due - {id})
  }

  // ---- finish ----------------------------------------------------------------------------------

  datatype Finish = Finish(job: Record, outcome: string, started: Option<int>, now: int)

  /** Whether an outcome may also decide the next run: the record is still the one the job was made from. */
  predicate Advances(current: Record, f: Finish) {
    current.revision == f.job.revision && current.status.Enabled? && f.job.body.ScheduleBody?
  }

  predicate Ends(current: Record, f: Finish) { Advances(current, f) && f.job.body.timing.Once? }

  /** The record with its outcome; none when the next run cannot be computed, which records nothing. */
  function Finished(s: Settings, current: Record, f: Finish): Option<Record> {
    var noted := current.(lastResult := f.outcome);
    if !Advances(current, f) then Some(noted)
    else if f.job.body.timing.Once? then
      Some(noted.(status := if f.outcome == "completed" then Completed else Failed))
    else
      var job := f.job.body;
      var next := FollowingRun(s.calendar(job.zone), job.timing, job.nextRun, Or(f.started, f.now), f.now, s.minHours);
      if !next.At? || !noted.body.ScheduleBody? then None else Some(noted.(body := noted.body.(nextRun := next.t)))
  }

  function CommitFinish(db: Db, id: Id, r: Record, f: Finish, advances: bool): Db {
    var ends := advances && f.job.body.ScheduleBody? && f.job.body.timing.Once?;
    db.(entries := db.entries[id := Entry(r, ends)],
        stamps := Touch(db, id, None),
        due := if ends then db.due - {id}
               else if advances && r.body.ScheduleBody? then db.due[id := r.body.nextRun] else db.due,
        terminal := if ends then db.terminal[id := f.now + 7 * 24 * HOUR] else db.terminal,
        followupLast := if ends && f.job.body.followup then db.followupLast[f.job.creator := f.job.body.nextRun]
                        else db.followupLast)
  }

  // ---- cleaning up -------------------------------------------------------------------------------

  function RipeTerminal(db: Db, now: int): set<Id> { set id <- db.terminal | db.terminal[id] <= now }

  function CommitPurge(db: Db, ids: set<Id>): Db {
    db.(scheduleIndex := db.scheduleIndex - ids, terminal := db.terminal - ids,
        stamps := if ids !! db.scheduleIndex then db.stamps
                  else db.stamps[IndexKey(Schedule) := Stamp(db, IndexKey(Schedule)) + 1])
  }

  function ExpireEntry(db: Db, id: Id): Db {
    db.(entries := db.entries - {id}, stamps := Touch(db, id, None))
  }

  /** The poller's own removal from the due set, outside any transaction. */
  function DropDue(db: Db, id: Id): Db { db.(due := db.due - {id}) }

  // ---- whole transactions, one at a time --------------------------------------------------------------

  datatype Transaction =
    | Create(id: Id, request: Request)
    | Update(id: Id, actor: int, revision: nat, changes: Changes, now: int)
    | Conclude(id: Id, finish: Finish)
    | Purge(ids: set<Id>)
    | Expire(id: Id)
    | ForgetLast(person: int)
    | Drop(id: Id)
    | Nothing

  /** What a transaction does when nothing else happens meanwhile. */
  function Serial(s: Settings, db: Db, tx: Transaction): Db {
    match tx
    case Create(id, request) =>
      var draft := Draft(s, request);
      if id in db.used || draft.None? || !Admitted(s, draft.value, LiveRows(db, KindOf(draft.value))) then db
      else CommitCreate(db, id, draft.value)
    case Update(id, actor, revision, changes, now) =>
      if id !in db.entries then db
      else
        var r := Updated(s, db.entries[id].record, actor, revision, changes, now);
        if r.None? then db else CommitUpdate(db, id, revision, r.value)
    case Conclude(id, finish) =>
      if id !in db.entries then db
      else
        var r := Finished(s, db.entries[id].record, finish);
        if r.None? then db else CommitFinish(db, id, r.value, finish, Advances(db.entries[id].record, finish))
    case Purge(ids) => CommitPurge(db, ids)
    case Expire(id) => if id in db.entries && db.entries[id].expires then ExpireEntry(db, id) else db
    case ForgetLast(person) => db.(followupLast := db.followupLast - {person})
    case Drop(id) => DropDue(db, id)
    case Nothing => db
  }

  // ---- what every transaction keeps ------------------------------------------------------------------

  function Updates(log: seq<(Id, nat)>, id: Id): nat {
    if log == [] then 0 else Updates(log[..|log|-1], id) + (if log[|log|-1].0 == id then 1 else 0)
  }

  predicate EnabledSchedule(db: Db, id: Id) {
    id in db.entries && db.entries[id].record.body.ScheduleBody? && db.entries[id].record.status.Enabled?
  }

  /** Whatever is due is enabled, and due at exactly its next run. */
  predicate DueSound(db: Db, id: Id) {
    id in db.due ==> EnabledSchedule(db, id) && db.due[id] == db.entries[id].record.body.nextRun
  }

  /** Due exactly when enabled, at exactly its next run. */
  predicate DueOk(db: Db, id: Id) { DueSound(db, id) && (EnabledSchedule(db, id) ==> id in db.due) }

  predicate EntryOk(db: Db, id: Id)
    requires id in db.entries
  {
    var e := db.entries[id];
    && id in db.used
    && (Active(e.record) ==> id in Index(db, KindOf(e.record)) && !e.expires)
    && (e.record.status.Deleted? ==> id !in Index(db, KindOf(e.record)))
    && id !in Index(db, if KindOf(e.record).Schedule? then Rule else Schedule)
    && (IsFollowUp(e.record) ==> e.record.body.timing == Once(Some(e.record.body.nextRun)))
    && (id in db.terminal ==> !Active(e.record))
  }

  /** A record's revision counts its edits. */
  predicate RevisionOk(db: Db, id: Id)
    requires id in db.entries
  {
    db.entries[id].record.revision == 1 + Updates(db.log, id)
  }

  predicate LogOk(db: Db) {
    && (forall i, j | 0 <= i < j < |db.log| :: db.log[i] != db.log[j])
    && (forall i | 0 <= i < |db.log| ::
          db.log[i].0 in db.used && (db.log[i].0 in db.entries ==> db.log[i].1 < db.entries[db.log[i].0].record.revision))
  }

  function ActiveIds(db: Db, q: Quota): set<Id> {
    set id <- db.entries | Active(db.entries[id].record) && QuotaOf(db.entries[id].record) == q
  }

  predicate QuotaOk(db: Db, s: Settings) {
    forall q: Quota :: |ActiveIds(db, q)| <= Limit(s, q)
  }

  /** Live follow-ups in the index, two of one person's never too close. */
  predicate SpacingOk(db: Db, s: Settings) {
    forall a, b | a in db.scheduleIndex && b in db.scheduleIndex && a != b && Get(db, a).Some? && Get(db, b).Some? ::
      !Clashes(s, Get(db, a).value, Get(db, b).value)
  }
}
