/** What a committed creation, edit or outcome leaves in the store, and exactly when each is refused. */
module AutomationEffects {
  import opened Sequences
  import opened Text
  import opened AutomationPolicy
  import opened AutomationStore
  import opened AutomationInvariant

  // ---- an edit ---------------------------------------------------------------------------------------------

  predicate Asked<T(==)>(asked: Option<T>, before: T, after: T) { after == if asked.Some? then asked.value else before }

  /** A timing asked for, an interval without a start beginning at `now`. */
  predicate TimingAsked(asked: Option<Timing>, before: Timing, after: Timing, now: int) {
    if asked.None? then after == before
    else if asked.value.Interval? && asked.value.start.None? then after == Interval(asked.value.hours, Some(now))
    else after == asked.value
  }

  /** The record `u` is `r` with every field asked for as it was asked, and every other as it was. */
  predicate Edited(s: Settings, r: Record, u: Record, actor: int, c: Changes, now: int) {
    && u.creator == r.creator && u.lastResult == r.lastResult && u.revision == r.revision + 1 && u.editor == actor
    && Asked(c.status, r.status, u.status) && Asked(c.action, r.action, u.action)
    && (u.body.RuleBody? <==> r.body.RuleBody?)
    && (u.body.RuleBody? ==> Asked(c.pattern, r.body.pattern, u.body.pattern) && Asked(c.wholeWords, r.body.wholeWords, u.body.wholeWords))
    && (u.body.ScheduleBody? ==>
          && u.body.followup == r.body.followup && Asked(c.zone, r.body.zone, u.body.zone)
          && TimingAsked(c.timing, r.body.timing, u.body.timing, now)
          && (if u.status.Enabled? then ValidateSchedule(s.calendar(u.body.zone), u.body.timing, s.minHours, now) == At(u.body.nextRun)
              else u.body.nextRun == r.body.nextRun))
  }

  predicate IsCommitted(db: Db, after: Db) { |after.log| > |db.log| }

  /**
   A committed edit named the record's revision, and leaves it with what was asked for; its next run, if it is an
   enabled schedule, is the one that was found for it. No other record changes.
   */
  lemma {:induction false} EditDoes(s: Settings, db: Db, id: Id, actor: int, revision: nat, c: Changes, now: int)
    ensures var after := Serial(s, db, Update(id, actor, revision, c, now));
            if IsCommitted(db, after) then
              && id in db.entries && id in after.entries && db.entries[id].record.revision == revision
              && Edited(s, db.entries[id].record, after.entries[id].record, actor, c, now)
              && after.entries - {id} == db.entries - {id} && after.log == db.log + [(id, revision)]
              && after.terminal == db.terminal && after.followupLast == db.followupLast && after.used == db.used
            else after == db
    ensures var after := Serial(s, db, Update(id, actor, revision, c, now));
            IsCommitted(db, after) && after.entries[id].record.status.Deleted? ==>
              id !in (if db.entries[id].record.body.RuleBody? then after.ruleIndex else after.scheduleIndex) && after.entries[id].expires
  {
  }

  predicate Blank(text: string) { Strip(text) == "" }

  /** Nothing but a deletion is asked for. */
  predicate OnlyDeletes(c: Changes) {
    c.status == Some(Deleted) && c.action.None? && c.timing.None? && c.zone.None? && c.pattern.None? && c.wholeWords.None?
  }

  predicate TimingOk(s: Settings, b: Body, c: Changes, now: int)
    requires b.ScheduleBody?
  {
    var zone := if c.zone.Some? then c.zone.value else b.zone;
    var timing := if c.timing.None? then b.timing
                  else if c.timing.value.Interval? && c.timing.value.start.None? then Interval(c.timing.value.hours, Some(now))
                  else c.timing.value;
    ValidateSchedule(s.calendar(zone), timing, s.minHours, now).At?
  }

  /** What may be asked of a record: of a schedule no pattern, of a rule no time, of a follow-up no other time. */
  predicate MayAsk(s: Settings, r: Record, c: Changes, now: int) {
    var status := if c.status.Some? then c.status.value else r.status;
    var action := if c.action.Some? then c.action.value else r.action;
    && !r.status.Deleted? && (r.status.Completed? || r.status.Failed? ==> OnlyDeletes(c))
    && !status.Completed? && !status.Failed? && !Blank(action) && |action| <= 1500
    && match r.body
       case RuleBody(pattern, _) =>
         var p := if c.pattern.Some? then c.pattern.value else pattern;
         c.timing.None? && c.zone.None? && !Blank(p) && |p| <= 200
       case ScheduleBody(_, _, _, followup) =>
         && c.pattern.None? && c.wholeWords.None? && (followup ==> c.timing.None? && c.zone.None?)
         && (status.Enabled? ==> TimingOk(s, r.body, c, now))
  }

  /** An edit is committed exactly when the record is there at the revision it names and what it asks is allowed. */
  lemma {:induction false} EditRefusedIff(s: Settings, db: Db, id: Id, actor: int, revision: nat, c: Changes, now: int)
    ensures IsCommitted(db, Serial(s, db, Update(id, actor, revision, c, now))) <==>
            id in db.entries && db.entries[id].record.revision == revision && MayAsk(s, db.entries[id].record, c, now)
  {
  }

  // ---- a creation --------------------------------------------------------------------------------------------

  /** Records of the store that count against a quota: not finished, and rules, follow-ups or other schedules alike. */
  function Alike(db: Db, b: Body): set<Id> {
    set id <- db.entries | var r := db.entries[id].record;
      && !r.status.Completed? && !r.status.Failed? && !r.status.Deleted?
      && r.body.RuleBody? == b.RuleBody? && (b.ScheduleBody? ==> r.body.followup == b.followup)
  }

  function MostAlike(s: Settings, b: Body): nat {
    if b.RuleBody? then s.ruleLimit else if b.followup then s.followupLimit else s.scheduleLimit
  }

  lemma {:induction false} AlikeAreRead(s: Settings, db: Db, r: Record)
    requires EntriesOk(db)
    ensures ActiveIn(LiveRows(db, KindOf(r)), QuotaOf(r)) == Alike(db, r.body) && Limit(s, QuotaOf(r)) == MostAlike(s, r.body)
  {
    forall id | id in Alike(db, r.body) ensures id in ActiveIn(LiveRows(db, KindOf(r)), QuotaOf(r)) {
      assert EntryOk(db, id);
    }
    forall id | id in ActiveIn(LiveRows(db, KindOf(r)), QuotaOf(r)) ensures id in Alike(db, r.body) {
      assert EntryOk(db, id);
    }
  }

  /** Another listed follow-up of the same person is less than the minimum from `t`. */
  predicate TooNear(s: Settings, db: Db, person: int, t: int) {
    exists id <- db.scheduleIndex ::
      && id in db.entries && !db.entries[id].record.status.Deleted?
      && db.entries[id].record.body.ScheduleBody? && db.entries[id].record.body.followup
      && db.entries[id].record.creator == person
      && -(s.minHours * HOUR) < db.entries[id].record.body.nextRun - t < s.minHours * HOUR
  }

  function Began(timing: Timing, now: int): Timing {
    if timing.Interval? && timing.start.None? then Interval(timing.hours, Some(now)) else timing
  }

  /** What a request must be like by itself. */
  predicate WellAsked(s: Settings, q: Request) {
    && !Blank(q.action) && |q.action| <= 1500
    && match q.body
       case RuleBody(pattern, _) => !Blank(pattern) && |Strip(pattern)| <= 200
       case ScheduleBody(timing, zone, _, followup) =>
         (followup ==> timing.Once?) && ValidateSchedule(s.calendar(zone), Began(timing, q.now), s.minHours, q.now).At?
  }

  predicate FindsRoom(s: Settings, db: Db, q: Request) {
    && |Alike(db, q.body)| < MostAlike(s, q.body)
    && (q.body.ScheduleBody? && q.body.followup ==>
          var next := ValidateSchedule(s.calendar(q.body.zone), Began(q.body.timing, q.now), s.minHours, q.now);
          next.At? && !TooNear(s, db, q.creator, next.t))
  }

  /** What the record of a request is. */
  predicate Made(s: Settings, q: Request, r: Record) {
    && r.creator == q.creator && r.editor == q.creator && r.status.Enabled? && r.revision == 1 && r.lastResult == ""
    && r.action == Strip(q.action) && (r.body.RuleBody? <==> q.body.RuleBody?)
    && (r.body.RuleBody? ==> r.body.pattern == Strip(q.body.pattern) && r.body.wholeWords == q.body.wholeWords)
    && (r.body.ScheduleBody? ==>
          && r.body.timing == Began(q.body.timing, q.now) && r.body.zone == q.body.zone && r.body.followup == q.body.followup
          && ValidateSchedule(s.calendar(r.body.zone), r.body.timing, s.minHours, q.now) == At(r.body.nextRun))
  }

  lemma {:induction false} DraftIff(s: Settings, q: Request)
    ensures Draft(s, q).Some? <==> WellAsked(s, q)
    ensures Draft(s, q).Some? ==> Made(s, q, Draft(s, q).value)
  {
  }

  lemma {:induction false} NearIff(s: Settings, db: Db, r: Record)
    requires EntriesOk(db)
    ensures (forall id <- LiveRows(db, KindOf(r)) :: !Clashes(s, r, LiveRows(db, KindOf(r))[id])) <==>
            !(r.body.ScheduleBody? && r.body.followup && TooNear(s, db, r.creator, r.body.nextRun))
  {
    var live := LiveRows(db, KindOf(r));
    if r.body.ScheduleBody? && r.body.followup {
      if TooNear(s, db, r.creator, r.body.nextRun) {
        var id :| id in db.scheduleIndex && id in db.entries && !db.entries[id].record.status.Deleted?
                  && db.entries[id].record.body.ScheduleBody? && db.entries[id].record.body.followup
                  && db.entries[id].record.creator == r.creator
                  && -(s.minHours * HOUR) < db.entries[id].record.body.nextRun - r.body.nextRun < s.minHours * HOUR;
        assert id in live && Clashes(s, r, live[id]);
      }
    }
  }

  lemma {:induction false} AdmittedIff(s: Settings, db: Db, q: Request, r: Record)
    requires EntriesOk(db) && Made(s, q, r)
    ensures Admitted(s, r, LiveRows(db, KindOf(r))) <==> FindsRoom(s, db, q)
  {
    AlikeAreRead(s, db, r);
    NearIff(s, db, r);
    SameAlike(db, r.body, q.body);
  }

  /** The store with one record more, listed, and due if it is a schedule. */
  predicate Added(db: Db, after: Db, id: Id, r: Record) {
    && after.used == db.used + {id} && id in after.entries && after.entries - {id} == db.entries
    && after.entries[id] == Entry(r, false)
    && after.scheduleIndex == db.scheduleIndex + (if r.body.ScheduleBody? then {id} else {})
    && after.ruleIndex == db.ruleIndex + (if r.body.RuleBody? then {id} else {})
    && after.due == (if r.body.ScheduleBody? then db.due[id := r.body.nextRun] else db.due)
  }

  lemma {:induction false} CommitAdds(db: Db, id: Id, r: Record)
    requires NamesOk(db) && id !in db.used
    ensures Added(db, CommitCreate(db, id, r), id, r)
  {
  }

  /** A request is granted exactly when it is well asked and finds room; then its record is there, listed and due. */
  lemma {:induction false} CreatedIff(s: Settings, db: Db, id: Id, q: Request)
    requires EntriesOk(db) && NamesOk(db) && id !in db.used
    ensures var after := Serial(s, db, Create(id, q));
            if WellAsked(s, q) && FindsRoom(s, db, q) then exists r :: Made(s, q, r) && Added(db, after, id, r) else after == db
  {
    DraftIff(s, q);
    if Draft(s, q).Some? {
      var r := Draft(s, q).value;
      AdmittedIff(s, db, q, r);
      CommitAdds(db, id, r);
    }
  }

  lemma {:induction false} SameAlike(db: Db, a: Body, b: Body)
    requires (a.RuleBody? <==> b.RuleBody?) && (a.ScheduleBody? ==> a.followup == b.followup)
    ensures Alike(db, a) == Alike(db, b)
  {
  }

  // ---- an outcome ----------------------------------------------------------------------------------------------

  const WEEK := 604_800_000_000

  /** The record is still enabled and as it was when the job was made. */
  predicate StillWanted(r: Record, f: Finish) { r.revision == f.job.revision && r.status.Enabled? && f.job.body.ScheduleBody? }

  /**
   An outcome is always noted; it ends a one-off that is still wanted, as completed or failed, to be cleaned up a week
   later, and a follow-up's time is remembered for its person; nothing else of the store changes but the due set.
   */
  lemma {:induction false} OutcomeDoes(s: Settings, db: Db, id: Id, f: Finish)
    requires id in db.entries && Finished(s, db.entries[id].record, f).Some?
    ensures var r, after := db.entries[id].record, Serial(s, db, Conclude(id, f));
            var ends := StillWanted(r, f) && f.job.body.timing.Once?;
            && id in after.entries && after.entries - {id} == db.entries - {id}
            && var u := after.entries[id].record;
            && u == r.(lastResult := f.outcome, status := u.status, body := u.body)
            && u.status == (if !ends then r.status else if f.outcome == "completed" then Completed else Failed)
            && after.terminal == (if ends then db.terminal[id := f.now + WEEK] else db.terminal)
            && after.followupLast == (if ends && f.job.body.followup then db.followupLast[f.job.creator := f.job.body.nextRun]
                                      else db.followupLast)
            && after.scheduleIndex == db.scheduleIndex && after.ruleIndex == db.ruleIndex && after.log == db.log
  {
  }

  /** A cleaning up after a one-off ended takes it off the list exactly from a week later on, and so any other one-off. */
  lemma {:induction false} CleanedAfterAWeek(s: Settings, db: Db, id: Id, f: Finish, now: int, other: Id)
    requires id in db.entries && StillWanted(db.entries[id].record, f) && f.job.body.timing.Once?
    ensures var ended := Serial(s, db, Conclude(id, f));
            var cleaned := Serial(s, ended, Purge(RipeTerminal(ended, now)));
            && (id in cleaned.scheduleIndex <==> id in db.scheduleIndex && now < f.now + WEEK)
            && (other in cleaned.scheduleIndex <==>
                other in ended.scheduleIndex && (other in ended.terminal ==> now < ended.terminal[other]))
            && (other in cleaned.terminal <==> other in ended.terminal && now < ended.terminal[other])
            && cleaned.entries == ended.entries && cleaned.due == ended.due && cleaned.ruleIndex == ended.ruleIndex
            && cleaned.followupLast == ended.followupLast
  {
  }
}
