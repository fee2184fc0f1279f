/** When a client's creation commits, and what a person's last follow-up has to do with the next one. */
module AutomationFollowUps {
  import opened Sequences
  import opened AutomationPolicy
  import opened AutomationStore
  import opened AutomationInvariant
  import opened AutomationClients
  import opened AutomationRuns
  import opened AutomationTheorems
  import opened AutomationPoller
  import opened AutomationEffects

  function LastOf(db: Db, person: int): Option<int> {
    if person in db.followupLast then Some(db.followupLast[person]) else None
  }

  /** Step `k` read what the client knows of the person's last follow-up. */
  predicate LastReadAt(s: Settings, steps: seq<Step>, k: nat, c: Client, person: int, last: Option<int>)
    requires ValidRun(s, Start, steps) && k < |steps|
  {
    steps[k] == ReadLast(c) && last == LastOf(WorldAt(s, steps, k).db, person)
  }

  predicate KnowsLast(w: World, c: Client, person: int, last: Option<int>) {
    IsCreating(w, c) && w.txns[c].request.creator == person && w.txns[c].last == Some(last)
  }

  lemma {:induction false} LearnsLast(s: Settings, w: World, step: Step, c: Client, person: int, last: Option<int>)
    requires CanStep(s, w, step) && KnowsLast(Apply(s, w, step), c, person, last)
    ensures KnowsLast(w, c, person, last) || (step == ReadLast(c) && last == LastOf(w.db, person))
  {
  }

  lemma {:induction false} NobodyAtStart(s: Settings, steps: seq<Step>, c: Client)
    requires ValidRun(s, Start, steps)
    ensures c !in WorldAt(s, steps, 0).txns
  {
  }

  lemma {:induction false} LastWasRead(s: Settings, steps: seq<Step>, n: nat, c: Client, person: int, last: Option<int>) returns (k: nat)
    requires ValidRun(s, Start, steps) && n <= |steps| && KnowsLast(WorldAt(s, steps, n), c, person, last)
    ensures k < n && LastReadAt(s, steps, k, c, person, last)
    decreases n
  {
    NobodyAtStart(s, steps, c);
    NextWorld(s, steps, n - 1);
    LearnsLast(s, WorldAt(s, steps, n - 1), steps[n-1], c, person, last);
    if KnowsLast(WorldAt(s, steps, n - 1), c, person, last) {
      k := LastWasRead(s, steps, n - 1, c, person, last);
    } else {
      k := n - 1;
    }
  }

  predicate FarFrom(s: Settings, last: Option<int>, t: int) {
    last.Some? ==> last.value - t >= s.minHours * HOUR || t - last.value >= s.minHours * HOUR
  }

  /** The follow-up a step creates, if it creates one. */
  predicate CreatesFollowUp(s: Settings, w: World, step: Step, id: Id)
    requires CanStep(s, w, step)
  {
    && step.ExecCreate? && id !in w.db.entries && id in Apply(s, w, step).db.entries
    && IsFollowUp(Apply(s, w, step).db.entries[id].record)
  }

  lemma {:induction false} CreatedIsClear(s: Settings, w: World, step: Step, id: Id)
    requires CanStep(s, w, step) && CreatesFollowUp(s, w, step, id)
    ensures var r := Apply(s, w, step).db.entries[id].record;
            && IsCreating(w, step.client) && w.txns[step.client].last.Some?
            && KnowsLast(w, step.client, r.creator, w.txns[step.client].last.value)
            && FarFrom(s, w.txns[step.client].last.value, r.body.nextRun)
  {
  }

  /**
   Every follow-up created, by any of the clients, runs at least the minimum before or after the last follow-up of its
   person that has run, as that was read at some moment of its creation.
   */
  lemma {:induction false} FollowUpsKeepClear(s: Settings, steps: seq<Step>, n: nat, id: Id) returns (k: nat)
    requires ValidRun(s, Start, steps) && n < |steps| && CanStep(s, WorldAt(s, steps, n), steps[n])
    requires CreatesFollowUp(s, WorldAt(s, steps, n), steps[n], id)
    ensures k < n && steps[k] == ReadLast(steps[n].client)
    ensures var r := Apply(s, WorldAt(s, steps, n), steps[n]).db.entries[id].record;
            FarFrom(s, LastOf(WorldAt(s, steps, k).db, r.creator), r.body.nextRun)
  {
    var w, step := WorldAt(s, steps, n), steps[n];
    CreatedIsClear(s, w, step, id);
    var last := w.txns[step.client].last.value;
    k := LastWasRead(s, steps, n, step.client, Apply(s, w, step).db.entries[id].record.creator, last);
  }

  /** What was read is still so. */
  predicate UpToDate(db: Db, t: Txn)
    requires t.Creating?
  {
    && Stamp(db, IndexKey(RequestKind(t.request))) == t.stamp && t.rows.Keys == Index(db, RequestKind(t.request))
    && forall id <- t.rows :: t.rows[id] == Get(db, id)
  }

  lemma {:induction false} RowsAreLive(db: Db, rows: map<Id, Option<Record>>, kind: Kind)
    requires rows.Keys == Index(db, kind) && forall id <- rows :: rows[id] == Get(db, id)
    ensures Found(rows) == LiveRows(db, kind)
  {
  }

  /** The time a request asks for. */
  function NextOf(s: Settings, q: Request): int
    requires WellAsked(s, q) && q.body.ScheduleBody?
  {
    ValidateSchedule(s.calendar(q.body.zone), Began(q.body.timing, q.now), s.minHours, q.now).t
  }

  lemma {:induction false} AdmitsIff(s: Settings, db: Db, t: Txn)
    requires EntriesOk(db) && t.Creating? && UpToDate(db, t) && WellAsked(s, t.request)
    requires AsksFollowUp(t.request) ==> t.last.Some?
    ensures Draft(s, t.request).Some? && Made(s, t.request, Draft(s, t.request).value)
    ensures Admits(s, t) <==>
            FindsRoom(s, db, t.request) && (AsksFollowUp(t.request) ==> FarFrom(s, t.last.value, NextOf(s, t.request)))
  {
    DraftIff(s, t.request);
    DraftKind(s, t.request);
    RowsAreLive(db, t.rows, RequestKind(t.request));
    AdmittedIff(s, db, t.request, Draft(s, t.request).value);
  }

  /**
   While what it read is still so, a creation commits exactly when the request finds room and, for a follow-up, its time
   is clear of the person's last one: nothing else refuses it.
   */
  lemma {:induction false} CommitsIff(s: Settings, steps: seq<Step>, c: Client)
    requires ValidRun(s, Start, steps) && CanStep(s, Run(s, Start, steps), ExecCreate(c))
    requires UpToDate(Run(s, Start, steps).db, Run(s, Start, steps).txns[c]) && WellAsked(s, Run(s, Start, steps).txns[c].request)
    ensures var w := Run(s, Start, steps);
            var t, after := w.txns[c], Apply(s, w, ExecCreate(c)).db;
            if FindsRoom(s, w.db, t.request) && (AsksFollowUp(t.request) ==> FarFrom(s, t.last.value, NextOf(s, t.request)))
            then exists r :: Made(s, t.request, r) && Added(w.db, after, t.id, r)
            else after == w.db
  {
    RunsAreSerial(s, steps);
    var w := Run(s, Start, steps);
    var t := w.txns[c];
    AdmitsIff(s, w.db, t);
    CommitAdds(w.db, t.id, Draft(s, t.request).value);
  }
}
