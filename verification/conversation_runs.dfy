/**
 Whole runs of a sandbox conversation: any interleaving of arriving messages,
 model calls (which may fail), the response's tools, questions and the finishing
 boundary. A `World` is the coordinator with the log its properties speak about.
 */
module ConversationRuns {
  import opened Sequences
  import opened Text
  import opened ThreadInbox
  import opened LedgerInvariant
  import opened Conversation
  import opened Weaving

  /** A model call: the SDK's input, what the filter made of it, and the numbers in the ledger then. */
  datatype Call = Call(base: seq<Item>, input: seq<Item>, retained: set<nat>)

  datatype Refusal = Refusal(call: nat, verdict: Verdict)

  /**
   `inFlight` is a call that went out and has not completed; `bound` the newest message when it did.
   `running` says a gated tool holds the tool lock.
   */
  datatype World = World(
    c: Conv, inFlight: Option<Call>, bound: nat, calls: seq<Call>, running: bool, refusals: seq<Refusal>)

  datatype Step =
    | Arrive(m: Message)
    | StartRunning
    | CallOut(items: seq<Item>)
    | CallDone(response: seq<seq<nat>>)
    | Decide(ids: seq<nat>, choice: Option<Decision>, reply: string)
    | GatedCall
    | GatedEnd
    | Ask(text: string, blocking: bool)
    | QuestionSent(qid: nat, messageId: nat)
    | QuestionDropped(qid: nat)
    | QuestionWaits(qid: nat, waiting: bool)
    | QuestionTimesOut(qid: nat)
    | Finish
    | Release

  function Start(requester: Option<int>): World {
    World(Conv(NewLedger(requester), None, {}, 0, 0, 0, false), None, 0, [], false, [])
  }

  function LastBase(w: World): seq<Item> {
    if w.calls == [] then [] else w.calls[|w.calls|-1].base
  }

  /**
   What the SDK does: each call's own input extends that of the last completed one, a response's tools run
   after its call completes and before the next goes out, and gated tools run one at a time under the lock. A run
   starts once, after its setup.
   */
  predicate Enabled(w: World, s: Step) {
    match s
    case CallOut(items) => AllBase(items) && LastBase(w) <= items && !w.running
    case CallDone(_) => w.inFlight.Some?
    case GatedCall => !w.running && w.inFlight.None?
    case GatedEnd => w.running
    case StartRunning => w.c.ledger.phase.Setup?
    case _ => true
  }

  function AskStep(l: Ledger, s: Step): Ledger {
    match s
    case Ask(text, blocking) => OpenQuestion(l, text, blocking)
    case QuestionSent(qid, id) => UpdateQuestion(l, qid, (q: Question) => Some(q.(messageId := id)))
    case QuestionDropped(qid) => UpdateQuestion(l, qid, (q: Question) => None)
    case QuestionWaits(qid, waiting) => UpdateQuestion(l, qid, (q: Question) => Some(q.(waiting := waiting)))
    case QuestionTimesOut(qid) => UpdateQuestion(l, qid, (q: Question) => Some(q.(timedOut := true)))
    case StartRunning => l.(phase := Running)
    case Finish => Finalize(l)
    case Release => l.(phase := Closed)
    case _ => l
  }

  function Apply(w: World, s: Step): World
    requires Enabled(w, s)
  {
    var l := w.c.ledger;
    match s
    case Arrive(m) => w.(c := w.c.(ledger := Deliver(l, m).0))
    case CallOut(items) =>
      w.(c := StageInput(w.c, items), bound := l.revision,
         inFlight := Some(Call(items, FilteredInput(l, items), Numbers(l.events))))
    case CallDone(response) =>
      w.(c := Complete(w.c, response), inFlight := None, calls := w.calls + [w.inFlight.value])
    case Decide(ids, choice, reply) => w.(c := Respond(w.c, ids, choice, reply))
    case GatedCall =>
      var (c, verdict) := Gate(w.c);
      w.(c := c, running := verdict.Allowed?,
         refusals := if verdict.Allowed? then w.refusals else w.refusals + [Refusal(c.modelCalls, verdict)])
    case GatedEnd => w.(running := false)
    case _ => w.(c := w.c.(ledger := AskStep(l, s)))
  }

  predicate ValidRun(w: World, steps: seq<Step>)
    decreases |steps|
  {
    steps == [] || (Enabled(w, steps[0]) && ValidRun(Apply(w, steps[0]), steps[1..]))
  }

  function Run(w: World, steps: seq<Step>): World
    requires ValidRun(w, steps)
    decreases |steps|
  {
    if steps == [] then w else Run(Apply(w, steps[0]), steps[1..])
  }

  // ---- the ledger's part ---------------------------------------------------------------

  predicate Anchored(events: seq<Event>, n: nat) {
    forall e <- events :: !e.stage.Received? ==> AnchorOf(e) <= n
  }

  /** What is staged is what was unseen when the call in flight went out. */
  predicate StagedOk(w: World) {
    && (w.inFlight.Some? <==> w.c.staged.Some?)
    && w.bound <= w.c.ledger.revision
    && (w.inFlight.Some? ==>
      && w.c.staged.value.anchor == |w.inFlight.value.base|
      && LastBase(w) <= w.inFlight.value.base
      && (forall n <- w.c.staged.value.nums :: n <= w.bound)
      && forall e <- w.c.ledger.events :: e.stage.Received? ==> (e.num in w.c.staged.value.nums <==> e.num <= w.bound))
  }

  predicate LedgerOk(w: World) {
    && Inv(w.c.ledger)
    && Anchored(w.c.ledger.events, |LastBase(w)|)
    && StagedOk(w)
  }

  /** The second ledger's events are the first's with only handling recorded on them. */
  predicate SameFace(s: seq<Event>, r: seq<Event>) {
    && |r| == |s|
    && forall i | 0 <= i < |s| ::
         && r[i].num == s[i].num && r[i].message == s[i].message && r[i].anchor == s[i].anchor
         && r[i].isRequester == s[i].isRequester && r[i].questionId == s[i].questionId
         && (r[i].stage.Received? <==> s[i].stage.Received?)
  }

  lemma {:induction false} SameFaceStaged(w: World, r: seq<Event>)
    requires LedgerOk(w) && SameFace(w.c.ledger.events, r)
    ensures Anchored(r, |LastBase(w)|)
    ensures w.inFlight.Some? ==>
      forall e <- r :: e.stage.Received? ==> (e.num in w.c.staged.value.nums <==> e.num <= w.bound)
  {
  }

  lemma {:induction false} SameFaceOk(s: seq<Event>, r: seq<Event>, revision: nat)
    requires EventsOk(s, revision) && SameFace(s, r)
    requires forall i | 0 <= i < |r| :: EventOk(r[i])
    ensures EventsOk(r, revision)
  {
  }

  lemma {:induction false} GateOneOk(e: Event, ack: set<nat>, call: nat)
    requires EventOk(e)
    ensures EventOk(GateOne(e, ack, call))
    ensures Pending(GateOne(e, ack, call)) ==> Pending(e)
  {
  }

  lemma {:induction false} GateFace(s: seq<Event>, ack: set<nat>, call: nat)
    ensures SameFace(s, GateAll(s, ack, call))
  {
  }

  lemma {:induction false} GateKeeps(l: Ledger, ack: set<nat>, call: nat)
    requires Inv(l)
    ensures Inv(l.(events := GateAll(l.events, ack, call)))
  {
    var s, r := l.events, GateAll(l.events, ack, call);
    forall i | 0 <= i < |r| ensures EventOk(r[i]) && (Pending(r[i]) ==> Pending(s[i])) {
      GateOneOk(s[i], ack, call);
    }
    GateFace(s, ack, call);
    SameFaceOk(s, r, l.revision);
    SettlesPending(s, r);
  }

  lemma {:induction false} SameFaceSelf(s: seq<Event>)
    ensures SameFace(s, s)
  {
  }

  lemma {:induction false} DecideFace(s: seq<Event>, nums: seq<nat>, d: Decision, reply: string)
    ensures SameFace(s, DecideAll(s, nums, d, reply))
  {
  }

  lemma {:induction false} RespondKeeps(c: Conv, ids: seq<nat>, choice: Option<Decision>, reply: string)
    requires Inv(c.ledger)
    ensures var l := Respond(c, ids, choice, reply).ledger;
            && Inv(l) && SameFace(c.ledger.events, l.events)
            && l.revision == c.ledger.revision && l.requester == c.ledger.requester
  {
    SameFaceSelf(c.ledger.events);
    if choice.Some? {
      var targets := if ids == [] then DefaultTargets(c.ledger.events, choice.value) else ids;
      if targets != [] {
        DecideKeeps(c.ledger, targets, choice.value, Strip(reply));
        DecideFace(c.ledger.events, targets, choice.value, Strip(reply));
      }
    }
  }

  /** The event an accepted message becomes. */
  function Arriving(l: Ledger, m: Message): Event {
    NewEvent(l, m).(num := l.revision + 1, questionId := CandidateFor(l.question, NewEvent(l, m)))
  }

  /** An accepted message is appended under the next number; no other delivery touches the events. */
  lemma {:induction false} DeliverIs(l: Ledger, m: Message)
    ensures var (l', d) := Deliver(l, m);
            if d.Accepted? then l' == Accept(l, NewEvent(l, m))
            else l'.events == l.events && l'.revision == l.revision && l'.requester == l.requester
  {
  }

  lemma {:induction false} AcceptIs(l: Ledger, m: Message)
    ensures var l' := Accept(l, NewEvent(l, m));
            && l'.events == DropResolved(l.events + [Arriving(l, m)], |l.events| + 1 - MAX_RETAINED_EVENTS)
            && l'.revision == l.revision + 1 && l'.requester == l.requester
  {
  }

  lemma {:induction false} ArriveEvents(l: Ledger, m: Message)
    ensures var l' := Deliver(l, m).0;
            && l'.requester == l.requester
            && (!Deliver(l, m).1.Accepted? ==> l'.events == l.events && l'.revision == l.revision)
            && (Deliver(l, m).1.Accepted? ==>
                  && l'.events == DropResolved(l.events + [Arriving(l, m)], |l.events| + 1 - MAX_RETAINED_EVENTS)
                  && l'.revision == l.revision + 1)
    ensures forall e <- Deliver(l, m).0.events :: e in l.events || e == Arriving(l, m)
  {
    DeliverIs(l, m);
    AcceptIs(l, m);
    DropResolvedMembers(l.events + [Arriving(l, m)], |l.events| + 1 - MAX_RETAINED_EVENTS);
  }

  lemma {:induction false} AddedStaged(w: World, r: seq<Event>, x: Event)
    requires LedgerOk(w) && x.stage.Received? && x.num > w.c.ledger.revision && forall e <- r :: e in w.c.ledger.events || e == x
    ensures Anchored(r, |LastBase(w)|)
    ensures w.inFlight.Some? ==>
      forall e <- r :: e.stage.Received? ==> (e.num in w.c.staged.value.nums <==> e.num <= w.bound)
  {
  }

  /** At most one more event, unseen and newer than any before. */
  lemma {:induction false} AddedOk(w: World, l: Ledger, x: Event)
    requires LedgerOk(w) && Inv(l) && l.revision >= w.c.ledger.revision
    requires x.stage.Received? && x.num > w.c.ledger.revision && forall e <- l.events :: e in w.c.ledger.events || e == x
    ensures LedgerOk(w.(c := w.c.(ledger := l)))
  {
    AddedStaged(w, l.events, x);
  }

  lemma {:induction false} ArriveOk(w: World, m: Message)
    requires LedgerOk(w)
    ensures LedgerOk(Apply(w, Arrive(m)))
  {
    DeliverKeeps(w.c.ledger, m);
    ArriveEvents(w.c.ledger, m);
    AddedOk(w, Deliver(w.c.ledger, m).0, Arriving(w.c.ledger, m));
  }

  lemma {:induction false} CallOutOk(w: World, items: seq<Item>)
    requires LedgerOk(w) && Enabled(w, CallOut(items))
    ensures LedgerOk(Apply(w, CallOut(items)))
  {
    var unseen := Unpresented(w.c.ledger.events);
    var nums := NumbersOf(unseen);
    forall n | n in nums ensures n <= w.c.ledger.revision {
      var i :| 0 <= i < |nums| && nums[i] == n;
      assert unseen[i] in unseen;
    }
    forall e | e in w.c.ledger.events && e.stage.Received? ensures e.num in nums {
      assert e in unseen;
      var i :| 0 <= i < |unseen| && unseen[i] == e;
      assert nums[i] == e.num;
    }
  }

  lemma {:induction false} PresentedAnchors(s: seq<Event>, nums: seq<nat>, anchor: nat)
    requires Anchored(s, anchor)
    ensures Anchored(PresentAll(s, nums, anchor), anchor)
  {
  }

  lemma {:induction false} CallDoneOk(w: World, response: seq<seq<nat>>)
    requires LedgerOk(w) && Enabled(w, CallDone(response))
    ensures LedgerOk(Apply(w, CallDone(response)))
  {
    var l, staged := w.c.ledger, w.c.staged.value;
    PresentKeeps(l, staged.nums, staged.anchor, w.bound);
    PresentedAnchors(l.events, staged.nums, staged.anchor);
    var w' := Apply(w, CallDone(response));
    assert LastBase(w') == w.inFlight.value.base;
  }

  /** All steps but an arrival and the two ends of a model call only record handling. */
  predicate RecordsOnly(s: Step) { !s.Arrive? && !s.CallOut? && !s.CallDone? }

  predicate SameLog(w: World, w': World) {
    && w'.calls == w.calls && w'.inFlight == w.inFlight && w'.c.staged == w.c.staged && w'.bound == w.bound
    && w'.c.modelCalls == w.c.modelCalls
    && w'.c.ledger.revision == w.c.ledger.revision && w'.c.ledger.requester == w.c.ledger.requester
    && SameFace(w.c.ledger.events, w'.c.ledger.events)
  }

  lemma {:induction false} DecideLog(w: World, ids: seq<nat>, choice: Option<Decision>, reply: string)
    requires Inv(w.c.ledger)
    ensures var w' := Apply(w, Decide(ids, choice, reply)); SameLog(w, w') && Inv(w'.c.ledger)
  {
    RespondKeeps(w.c, ids, choice, reply);
  }

  function Unseen(c: Conv): seq<Event> { Filter(IsReceived, Unaddressed(c.ledger.events)) }

  /** A gate check changes at most the refusal counts, the events it gives up on and its own counter. */
  lemma {:induction false} GateIs(c: Conv)
    ensures var (g, v) := Gate(c);
            var events := GateAll(c.ledger.events, c.batchAck, c.modelCalls);
            && g.staged == c.staged && g.modelCalls == c.modelCalls && g.batchAck == c.batchAck
            && (v.AwaitingAnswer? <==> Waiting(c.ledger)) && (v.UnseenInput? <==> !Waiting(c.ledger) && Unseen(c) != [])
            && (v.AwaitingAnswer? || v.UnseenInput? ==> g.ledger == c.ledger)
            && (v.Allowed? || v.Unanswered? ==> g.ledger == c.ledger.(events := events))
            && (v.Allowed? ==> StillOpen(events, c.batchAck) == [])
            && (v.Unanswered? ==> v.ignored == StillOpen(events, c.batchAck) != [])
  {
  }

  lemma {:induction false} GateLog(w: World)
    requires Inv(w.c.ledger) && Enabled(w, GatedCall)
    ensures SameLog(w, Apply(w, GatedCall)) && Inv(Apply(w, GatedCall).c.ledger)
  {
    GateIs(w.c);
    GateKeeps(w.c.ledger, w.c.batchAck, w.c.modelCalls);
    GateFace(w.c.ledger.events, w.c.batchAck, w.c.modelCalls);
  }

  /** Questions and phases leave the events alone. */
  lemma {:induction false} AskLedger(l: Ledger, s: Step)
    ensures var r := AskStep(l, s); r == l.(phase := r.phase, question := r.question, nextQid := r.nextQid)
  {
  }

  lemma {:induction false} AskLog(w: World, s: Step)
    requires Inv(w.c.ledger) && Enabled(w, s) && RecordsOnly(s) && !s.Decide? && !s.GatedCall?
    ensures SameLog(w, Apply(w, s)) && Inv(Apply(w, s).c.ledger)
  {
    AskLedger(w.c.ledger, s);
  }

  lemma {:induction false} RecordsOnlyKeeps(w: World, s: Step)
    requires Inv(w.c.ledger) && Enabled(w, s) && RecordsOnly(s)
    ensures SameLog(w, Apply(w, s)) && Inv(Apply(w, s).c.ledger)
  {
    match s
    case Decide(ids, choice, reply) => DecideLog(w, ids, choice, reply);
    case GatedCall => GateLog(w);
    case _ => AskLog(w, s);
  }

  lemma {:induction false} SameLogOk(w: World, w': World)
    requires LedgerOk(w) && SameLog(w, w') && Inv(w'.c.ledger)
    ensures LedgerOk(w')
  {
    SameFaceStaged(w, w'.c.ledger.events);
  }

  lemma {:induction false} StepLedgerOk(w: World, s: Step)
    requires LedgerOk(w) && Enabled(w, s)
    ensures LedgerOk(Apply(w, s))
  {
    match s
    case Arrive(m) => ArriveOk(w, m);
    case CallOut(items) => CallOutOk(w, items);
    case CallDone(response) => CallDoneOk(w, response);
    case _ =>
      RecordsOnlyKeeps(w, s);
      SameLogOk(w, Apply(w, s));
  }
}
