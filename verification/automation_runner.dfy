/**
 Claims, busy locks and start markers of scheduled jobs. Each Lua script is one atomic step; a claim may expire at
 any moment, a job may crash at any moment, and pollers of many processes may admit the same occurrence.
 */
module AutomationRunner {
  type Token = nat

  /** One run of one schedule: which schedule, and the time it was due. */
  type Occurrence = (nat, int)

  datatype Keys = Keys(claims: map<Occurrence, Token>, busy: map<nat, Token>, started: set<Occurrence>)

  predicate CanClaim(k: Keys, o: Occurrence) { o !in k.claims && o.0 !in k.busy }

  /** Claims the occurrence and locks its schedule, or does nothing when either is taken. */
  function Claim(k: Keys, o: Occurrence, token: Token): Keys {
    if CanClaim(k, o) then k.(claims := k.claims[o := token], busy := k.busy[o.0 := token]) else k
  }

  /** Unlocks the schedule if this token still holds it; the occurrence stays claimed. */
  function Release(k: Keys, o: Occurrence, token: Token): Keys {
    if o.0 in k.busy && k.busy[o.0] == token then k.(busy := k.busy - {o.0}) else k
  }

  /** Takes back both, as far as this token holds them. */
  function CancelClaim(k: Keys, o: Occurrence, token: Token): Keys {
    var unlocked := Release(k, o, token);
    if o in k.claims && k.claims[o] == token then unlocked.(claims := k.claims - {o}) else unlocked
  }

  /** A refused job found its occurrence already begun; like any other it unlocks its schedule when it ends. */
  datatype Phase = Queued | Running | Refused | Ended

  datatype Job = Job(occurrence: Occurrence, phase: Phase)

  /** `starts` lists the occurrences whose action was begun, in order; `lost` the tokens whose lock expired. */
  datatype World = World(keys: Keys, jobs: map<Token, Job>, starts: seq<Occurrence>, lost: set<Token>)

  const Idle := World(Keys(map[], map[], {}), map[], [], {})

  datatype Step =
    | Admit(token: Token, occurrence: Occurrence)
    | Start(token: Token)
    | End(token: Token)
    | Discard(token: Token)
    | Crash(token: Token)
    | ExpireClaim(occurrence: Occurrence)
    | ExpireBusy(id: nat)

  predicate In(w: World, token: Token, phase: Phase) { token in w.jobs && w.jobs[token].phase == phase }

  predicate Live(w: World, token: Token) { token in w.jobs && !w.jobs[token].phase.Ended? }

  /** Tokens are random; the model assumes they never repeat. */
  predicate CanStep(w: World, step: Step) {
    match step
    case Admit(token, _) => token !in w.jobs && token !in w.lost
    case Start(token) => In(w, token, Queued)
    case End(token) => Live(w, token)
    case Discard(token) => In(w, token, Queued)
    case Crash(token) => Live(w, token)
    case _ => true
  }

  function SetPhase(w: World, token: Token, phase: Phase): World
    requires token in w.jobs
  {
    w.(jobs := w.jobs[token := w.jobs[token].(phase := phase)])
  }

  function Apply(w: World, step: Step): World
    requires CanStep(w, step)
  {
    match step
    case Admit(token, o) =>
      if CanClaim(w.keys, o) then w.(keys := Claim(w.keys, o, token), jobs := w.jobs[token := Job(o, Queued)]) else w
    case Start(token) =>
      var o := w.jobs[token].occurrence;
      if o in w.keys.started then SetPhase(w, token, Refused)
      else SetPhase(w, token, Running).(keys := w.keys.(started := w.keys.started + {o}), starts := w.starts + [o])
    case End(token) => SetPhase(w, token, Ended).(keys := Release(w.keys, w.jobs[token].occurrence, token))
    case Discard(token) => SetPhase(w, token, Ended).(keys := CancelClaim(w.keys, w.jobs[token].occurrence, token))
    case Crash(token) => SetPhase(w, token, Ended)
    case ExpireClaim(o) => w.(keys := w.keys.(claims := w.keys.claims - {o}))
    case ExpireBusy(id) =>
      if id in w.keys.busy then w.(keys := w.keys.(busy := w.keys.busy - {id}), lost := w.lost + {w.keys.busy[id]}) else w
  }

  predicate ValidRun(steps: seq<Step>)
    decreases |steps|, 0
  {
    steps == [] || (ValidRun(steps[..|steps|-1]) && CanStep(Run(steps[..|steps|-1]), steps[|steps|-1]))
  }

  function Run(steps: seq<Step>): World
    requires ValidRun(steps)
    decreases |steps|, 1
  {
    if steps == [] then Idle else Apply(Run(steps[..|steps|-1]), steps[|steps|-1])
  }

  /** Starts are all different and all marked; a live job whose lock has not expired holds it. */
  predicate RunnerOk(w: World) {
    && (forall i, j | 0 <= i < j < |w.starts| :: w.starts[i] != w.starts[j])
    && (forall o <- w.starts :: o in w.keys.started)
    && (forall t <- w.jobs :: !w.jobs[t].phase.Ended? && t !in w.lost ==>
          w.jobs[t].occurrence.0 in w.keys.busy && w.keys.busy[w.jobs[t].occurrence.0] == t)
    && (forall id <- w.keys.busy :: w.keys.busy[id] in w.jobs && w.jobs[w.keys.busy[id]].occurrence.0 == id)
  }

  lemma {:induction false} StepRunnerOk(w: World, step: Step)
    requires RunnerOk(w) && CanStep(w, step)
    ensures RunnerOk(Apply(w, step))
  {
  }

  lemma {:induction false} RunsOk(steps: seq<Step>)
    requires ValidRun(steps)
    ensures RunnerOk(Run(steps))
    decreases |steps|
  {
    if steps != [] {
      RunsOk(steps[..|steps|-1]);
      StepRunnerOk(Run(steps[..|steps|-1]), steps[|steps|-1]);
    }
  }

  /** While markers last, no occurrence is ever begun twice, whatever pollers, expired claims and crashes do. */
  lemma {:induction false} StartedOnce(steps: seq<Step>, i: nat, j: nat)
    requires ValidRun(steps) && i < j < |Run(steps).starts|
    ensures Run(steps).starts[i] != Run(steps).starts[j]
  {
    RunsOk(steps);
  }

  /** Two live jobs of one schedule, neither of whose locks expired, are the same job. */
  lemma {:induction false} OneLiveJob(steps: seq<Step>, a: Token, b: Token)
    requires ValidRun(steps)
    requires var w := Run(steps);
             Live(w, a) && Live(w, b) && a !in w.lost && b !in w.lost && w.jobs[a].occurrence.0 == w.jobs[b].occurrence.0
    ensures a == b
  {
    RunsOk(steps);
  }

  /** Only its own job, or expiry, takes a live job's lock away; and without it nobody else can claim the schedule. */
  lemma {:induction false} LockIsKept(steps: seq<Step>, step: Step, a: Token, o: Occurrence)
    requires ValidRun(steps) && CanStep(Run(steps), step) && Live(Run(steps), a) && a !in Run(steps).lost
    requires Run(steps).jobs[a].occurrence.0 == o.0
    requires !(step.ExpireBusy? && step.id == o.0) && !((step.End? || step.Discard? || step.Crash?) && step.token == a)
    ensures var after := Apply(Run(steps), step);
            Live(after, a) && a !in after.lost && !CanClaim(after.keys, o)
  {
    RunsOk(steps);
    StepRunnerOk(Run(steps), step);
  }

  /**
   Giving back a job that will not run lets its occurrence be claimed again, exactly when nobody has claimed the
   occurrence or locked the schedule since this job's own expired; ending it does not while its claim lasts.
   */
  lemma {:induction false} GivenBackIff(steps: seq<Step>, a: Token)
    requires ValidRun(steps) && In(Run(steps), a, Queued)
    ensures var w := Run(steps);
            var o := w.jobs[a].occurrence;
            && (CanClaim(Apply(w, Discard(a)).keys, o) <==>
                (o in w.keys.claims ==> w.keys.claims[o] == a) && (o.0 in w.keys.busy ==> w.keys.busy[o.0] == a))
            && (o in w.keys.claims ==> !CanClaim(Apply(w, End(a)).keys, o))
  {
  }

  /** Whether this start is to run the action: exactly when the occurrence has never been begun, and then it is. */
  lemma {:induction false} RunsIff(steps: seq<Step>, token: Token)
    requires ValidRun(steps) && CanStep(Run(steps), Start(token))
    ensures var w, after := Run(steps), Apply(Run(steps), Start(token));
            var o := w.jobs[token].occurrence;
            && (In(after, token, Running) <==> o !in w.starts)
            && after.starts == (if o in w.starts then w.starts else w.starts + [o])
            && (o in w.starts ==> In(after, token, Refused))
  {
    RunsOk(steps);
    MarkersAreStarts(steps);
  }

  /** Every marker was set by a start. */
  lemma {:induction false} MarkersAreStarts(steps: seq<Step>)
    requires ValidRun(steps)
    ensures forall o <- Run(steps).keys.started :: o in Run(steps).starts
    decreases |steps|
  {
    if steps != [] {
      MarkersAreStarts(steps[..|steps|-1]);
    }
  }

  // ---- who holds a lock ---------------------------------------------------------------------------------------

  /** The job has neither ended nor been discarded; it may have crashed. */
  predicate NotGivenBack(steps: seq<Step>, t: Token) { End(t) !in steps && Discard(t) !in steps }

  predicate Holder(steps: seq<Step>, w: World, id: nat, t: Token) {
    t in w.jobs && w.jobs[t].occurrence.0 == id && t !in w.lost && NotGivenBack(steps, t)
  }

  ghost predicate HoldersOk(steps: seq<Step>, w: World) {
    && (forall t, id :: Holder(steps, w, id, t) ==> id in w.keys.busy && w.keys.busy[id] == t)
    && (forall id <- w.keys.busy :: Holder(steps, w, id, w.keys.busy[id]))
    && (forall t: Token :: !NotGivenBack(steps, t) ==> t in w.jobs)
  }

  lemma {:induction false} SameSteps(front: seq<Step>, step: Step, t: Token)
    ensures NotGivenBack(front + [step], t) <==> NotGivenBack(front, t) && step != End(t) && step != Discard(t)
  {
  }

  lemma {:induction false} StepHolders(front: seq<Step>, w: World, step: Step)
    requires HoldersOk(front, w) && CanStep(w, step)
    ensures HoldersOk(front + [step], Apply(w, step))
  {
    var steps, after := front + [step], Apply(w, step);
    forall t: Token | !NotGivenBack(steps, t)
      ensures t in after.jobs
    {
      SameSteps(front, step, t);
    }
    forall id | id in after.keys.busy
      ensures Holder(steps, after, id, after.keys.busy[id])
    {
      SameSteps(front, step, after.keys.busy[id]);
      assert id in w.keys.busy ==> Holder(front, w, id, w.keys.busy[id]);
    }
    forall t, id | Holder(steps, after, id, t)
      ensures id in after.keys.busy && after.keys.busy[id] == t
    {
      SameSteps(front, step, t);
      assert t in w.jobs ==> Holder(front, w, id, t);
    }
  }

  lemma {:induction false} HoldersAreOk(steps: seq<Step>)
    requires ValidRun(steps)
    ensures HoldersOk(steps, Run(steps))
    decreases |steps|
  {
    if steps != [] {
      HoldersAreOk(steps[..|steps|-1]);
      StepHolders(steps[..|steps|-1], Run(steps[..|steps|-1]), steps[|steps|-1]);
      assert steps == steps[..|steps|-1] + [steps[|steps|-1]];
    }
  }

  /**
   A schedule is locked exactly when some job of it was admitted that has not ended or been discarded since and whose
   lock has not expired: a job that crashed keeps it locked until then.
   */
  lemma {:induction false} LockedIff(steps: seq<Step>, id: nat)
    requires ValidRun(steps)
    ensures id in Run(steps).keys.busy <==> exists t :: Holder(steps, Run(steps), id, t)
  {
    HoldersAreOk(steps);
    if id in Run(steps).keys.busy {
      assert Holder(steps, Run(steps), id, Run(steps).keys.busy[id]);
    }
  }
}
