/**
 The ledger of what people say to a sandbox run while it happens.

 The ledger as a value, with one function per operation; the class in
 `RunLedgers` updates it in place and does what these functions say. No
 operation awaits, so each is one atomic step.
 */
module ThreadInbox {
  import opened Sequences
  import opened Text

  const MAX_PENDING_MESSAGES := 20
  const MAX_PENDING_CHARS := 4000
  const MAX_MESSAGE_CHARS := 1000
  const MAX_RETAINED_EVENTS := 60
  const MAX_FOLLOW_UPS := 10
  const MAX_GATE_REFUSALS := 2

  datatype Stage = Received | Presented | Addressed | Resolved
  datatype Decision = WillApply | Done | Answered | Noted | Declined | Superseded | Deferred
  datatype Outcome = Undecided | Decided(decision: Decision) | Unacknowledged
  datatype Delivery = Accepted | Duplicate | NoRun | Empty | AttachmentOnly | TooLong | Full | Finishing
  datatype Phase = Setup | Running | Finalizing | Closed
  datatype Status =
    | Told(decision: Decision)   // the model's own outcome; will_apply is reported as "accepted"
    | NotAcknowledged
    | Unseen
    | Late

  /** A message as Discord hands it over. An id or reply target of 0 is not a real one. */
  datatype Message = Message(
    id: nat, authorId: Option<int>, author: string, text: string, replyTo: nat, attachments: bool)

  datatype Event = Event(
    num: nat, message: Message, isRequester: bool, questionId: Option<nat>,
    stage: Stage, outcome: Outcome, reply: string, anchor: Option<nat>,
    gateRefusals: nat, lastRefusedCall: Option<nat>)

  datatype Question = Question(
    qid: nat, text: string, blocking: bool, afterNum: nat,
    messageId: nat, waiting: bool, timedOut: bool)

  datatype Row = Row(author: string, text: string, status: Status, reply: string)

  datatype Ledger = Ledger(
    requester: Option<int>, phase: Phase, events: seq<Event>, followUps: seq<Event>,
    question: Option<Question>, revision: nat, changeRevision: nat, compacted: nat, nextQid: nat)

  function NewLedger(requester: Option<int>): Ledger {
    Ledger(requester, Setup, [], [], None, 0, 0, 0, 1)
  }

  // ---- queries ---------------------------------------------------------------

  predicate IsReceived(e: Event) { e.stage.Received? }

  /** What still needs the model's attention before it may do more work. */
  predicate Pending(e: Event) {
    (e.stage.Received? || e.stage.Presented?) && !e.outcome.Unacknowledged?
  }

  function TextLength(e: Event): nat { |e.message.text| }

  function Unaddressed(events: seq<Event>): seq<Event> { Filter(Pending, events) }

  function Unpresented(events: seq<Event>): seq<Event> { Filter(IsReceived, events) }

  function PendingChars(events: seq<Event>): nat { Sum(TextLength, Unaddressed(events)) }

  predicate HasMessage(events: seq<Event>, id: nat) { exists e <- events :: e.message.id == id }

  /** Ids of 0 are not real and never take part in de-duplication. */
  predicate Seen(l: Ledger, id: nat) {
    id != 0 && (HasMessage(l.events, id) || HasMessage(l.followUps, id))
  }

  predicate NoneResolved(events: seq<Event>) { forall e <- events :: !e.stage.Resolved? }

  /** The numbers of a sequence of events. */
  function Numbers(events: seq<Event>): set<nat> {
    set e <- events :: e.num
  }

  // ---- intake ------------------------------------------------------------------

  function NewEvent(l: Ledger, m: Message): Event {
    var isRequester := m.authorId.Some? && l.requester.Some? && m.authorId == l.requester;
    Event(0, m.(text := Strip(m.text)), isRequester, None, Received, Undecided, "", None, 0, None)
  }

  /** The open question this event may be answering. */
  function CandidateFor(q: Option<Question>, e: Event): Option<nat> {
    if q.Some? && (e.isRequester || (q.value.messageId != 0 && e.message.replyTo == q.value.messageId))
    then Some(q.value.qid) else None
  }

  /** `events` without its oldest `excess` resolved events. */
  function DropResolved(events: seq<Event>, excess: int): seq<Event> {
    if events == [] || excess <= 0 then events
    else if events[0].stage.Resolved? then DropResolved(events[1..], excess - 1)
    else [events[0]] + DropResolved(events[1..], excess)
  }

  function Compacted(l: Ledger): Ledger {
    var kept := DropResolved(l.events, |l.events| - MAX_RETAINED_EVENTS);
    l.(events := kept, compacted := l.compacted + (if |kept| <= |l.events| then |l.events| - |kept| else 0))
  }

  function Accept(l: Ledger, e: Event): Ledger {
    var numbered := e.(num := l.revision + 1, questionId := CandidateFor(l.question, e));
    Compacted(l.(revision := l.revision + 1, events := l.events + [numbered]))
  }

  /** What happens to a message, checked in the order the ledger checks it. */
  function Deliver(l: Ledger, m: Message): (Ledger, Delivery) {
    var e := NewEvent(l, m);
    var text := e.message.text;
    if l.phase.Closed? then (l, NoRun)
    else if Seen(l, m.id) then (l, Duplicate)
    else if text == "" then (l, if m.attachments then AttachmentOnly else Empty)
    else if |text| > MAX_MESSAGE_CHARS then (l, TooLong)
    else if l.phase.Finalizing? then
      if |l.followUps| >= MAX_FOLLOW_UPS then (l, Full)
      else (l.(followUps := l.followUps + [e]), Finishing)
    else if |Unaddressed(l.events)| >= MAX_PENDING_MESSAGES then (l, Full)
    else if PendingChars(l.events) + |text| > MAX_PENDING_CHARS then (l, Full)
    else if |l.events| >= MAX_RETAINED_EVENTS && NoneResolved(l.events) then (l, Full)
    else (Accept(l, e), Accepted)
  }

  // ---- transitions --------------------------------------------------------------

  function PresentOne(e: Event, nums: seq<nat>, anchor: nat): Event {
    if e.stage.Received? && e.num in nums then e.(stage := Presented, anchor := Some(anchor)) else e
  }

  function PresentAll(events: seq<Event>, nums: seq<nat>, anchor: nat): (r: seq<Event>)
    ensures |r| == |events|
    ensures forall i | 0 <= i < |r| :: r[i] == PresentOne(events[i], nums, anchor)
  {
    seq(|events|, i requires 0 <= i < |events| => PresentOne(events[i], nums, anchor))
  }

  function StageFor(d: Decision): Stage {
    if d.WillApply? then Addressed else Resolved
  }

  function DecideOne(e: Event, nums: seq<nat>, d: Decision, reply: string): Event {
    if e.stage.Received? || e.num !in nums then e
    else e.(stage := StageFor(d), outcome := Decided(d), reply := if reply == "" then e.reply else reply)
  }

  function DecideAll(events: seq<Event>, nums: seq<nat>, d: Decision, reply: string): (r: seq<Event>)
    ensures |r| == |events|
    ensures forall i | 0 <= i < |r| :: r[i] == DecideOne(events[i], nums, d, reply)
  {
    seq(|events|, i requires 0 <= i < |events| => DecideOne(events[i], nums, d, reply))
  }

  /** Whether number `n` is an event the model has been shown. */
  predicate KnownTo(events: seq<Event>, n: nat) {
    exists e <- events :: e.num == n && !e.stage.Received?
  }

  predicate AnyKnown(events: seq<Event>, nums: seq<nat>) { exists n <- nums :: KnownTo(events, n) }

  /** Whether one of the shown events `nums` is a candidate answer to question `qid`. */
  predicate IsAnswered(events: seq<Event>, nums: seq<nat>, qid: nat) {
    exists e <- events :: !e.stage.Received? && e.num in nums && e.questionId == Some(qid)
  }

  function RecordDecision(l: Ledger, nums: seq<nat>, d: Decision, reply: string): Ledger {
    var touched := AnyKnown(l.events, nums);
    var answers := l.question.Some? && IsAnswered(l.events, nums, l.question.value.qid);
    l.(events := DecideAll(l.events, nums, d, reply),
       changeRevision := if touched && (d.WillApply? || d.Done?) then l.changeRevision + 1 else l.changeRevision,
       question := if answers then None else l.question)
  }

  function OpenQuestion(l: Ledger, text: string, blocking: bool): Ledger {
    l.(question := Some(Question(l.nextQid, text, blocking, l.revision, 0, false, false)), nextQid := l.nextQid + 1)
  }

  /** An update of the question object `qid`, which the ledger sees only while that question is its open one. */
  function UpdateQuestion(l: Ledger, qid: nat, f: Question -> Option<Question>): Ledger {
    if l.question.Some? && l.question.value.qid == qid then l.(question := f(l.question.value)) else l
  }

  function Finalize(l: Ledger): Ledger {
    if l.phase.Setup? || l.phase.Running? then l.(phase := Finalizing) else l
  }

  // ---- reporting ------------------------------------------------------------------

  function StatusOf(e: Event): Status {
    if e.outcome.Unacknowledged? then NotAcknowledged
    else if e.stage.Received? then Unseen
    else if e.stage.Presented? then NotAcknowledged
    else if e.outcome.Decided? then Told(e.outcome.decision)
    else Told(Noted)
  }

  function RowOf(e: Event): Row { Row(e.message.author, e.message.text, StatusOf(e), e.reply) }

  function LateRow(e: Event): Row { Row(e.message.author, e.message.text, Late, "") }

  function Outcomes(l: Ledger): (rows: seq<Row>)
    ensures |rows| == |l.events| + |l.followUps|
    ensures forall i | 0 <= i < |l.events| :: rows[i] == RowOf(l.events[i])
    ensures forall i | 0 <= i < |l.followUps| :: rows[|l.events| + i] == LateRow(l.followUps[i])
  {
    seq(|l.events|, i requires 0 <= i < |l.events| => RowOf(l.events[i]))
    + seq(|l.followUps|, i requires 0 <= i < |l.followUps| => LateRow(l.followUps[i]))
  }

  // ---- numbering --------------------------------------------------------------------

  /** Event numbers increase strictly: `get` finds at most one event. */
  predicate Increasing(events: seq<Event>) {
    forall i, j | 0 <= i < j < |events| :: events[i].num < events[j].num
  }
}
