/**
 The coordinator between a run's ledger and its model calls, as a value with one
 function per operation; `SandboxConversations` holds the object that updates it.
 */
module Conversation {
  import opened Sequences
  import opened Text
  import opened ThreadInbox

  // ---- input placement -----------------------------------------------------------

  datatype Who = Anyone | TheRequester | AnotherParticipant
  datatype Note = NoNote | MaybeYourAnswer | InReply

  /** One entry of a model call's input: the SDK's own, or a thread message shown to the model. */
  datatype Item =
    | Base(content: string)
    | Thread(num: nat, author: string, who: Who, note: Note, attachments: bool, text: string)

  function Render(e: Event, requester: Option<int>): Item {
    Thread(e.num, e.message.author,
           if requester.None? then Anyone else if e.isRequester then TheRequester else AnotherParticipant,
           if e.questionId.Some? then MaybeYourAnswer else if e.message.replyTo != 0 then InReply else NoNote,
           e.message.attachments, e.message.text)
  }

  function RenderAll(events: seq<Event>, requester: Option<int>): (r: seq<Item>)
    ensures |r| == |events|
    ensures forall i | 0 <= i < |r| :: r[i] == Render(events[i], requester)
  {
    seq(|events|, i requires 0 <= i < |events| => Render(events[i], requester))
  }

  function Insert(e: Event, s: seq<Event>): seq<Event> {
    if s == [] || s[|s|-1].num <= e.num then s + [e] else Insert(e, s[..|s|-1]) + [s[|s|-1]]
  }

  function SortByNumber(s: seq<Event>): seq<Event> {
    if s == [] then [] else Insert(s[|s|-1], SortByNumber(s[..|s|-1]))
  }

  /** Whether a shown event goes before item `i` of `n`. */
  predicate GoesAt(e: Event, i: nat, n: nat) {
    !e.stage.Received? && e.anchor.Some? && (if e.anchor.value < n then e.anchor.value else n) == i
  }

  function ShownAt(events: seq<Event>, i: nat, n: nat): seq<Event> {
    if events == [] then []
    else
      var rest, e := ShownAt(events[..|events|-1], i, n), events[|events|-1];
      if GoesAt(e, i, n) then rest + [e] else rest
  }

  /** What the filter puts before item `i`; unseen messages go at the end. */
  function Slot(events: seq<Event>, i: nat, n: nat): seq<Event> {
    ShownAt(events, i, n) + (if i == n then Unpresented(events) else [])
  }

  /** The first `k` slots, each followed by its item. */
  function Woven(events: seq<Event>, requester: Option<int>, items: seq<Item>, k: nat): seq<Item>
    requires k <= |items| + 1
  {
    if k == 0 then []
    else
      Woven(events, requester, items, k - 1)
      + RenderAll(SortByNumber(Slot(events, k - 1, |items|)), requester)
      + (if k - 1 < |items| then [items[k - 1]] else [])
  }

  /** The input a model call goes out with. */
  function FilteredInput(l: Ledger, items: seq<Item>): seq<Item> {
    Woven(l.events, l.requester, items, |items| + 1)
  }

  // ---- the coordinator's state ------------------------------------------------------

  datatype Staged = Staged(nums: seq<nat>, anchor: nat)

  datatype Conv = Conv(
    ledger: Ledger, staged: Option<Staged>, batchAck: set<nat>, modelCalls: nat,
    staleBlocked: nat, continuations: nat, nudgedFiles: bool)

  datatype Verdict = Allowed | AwaitingAnswer | UnseenInput(count: nat) | Unanswered(ignored: seq<nat>)

  function NumbersOf(events: seq<Event>): (r: seq<nat>)
    ensures |r| == |events|
    ensures forall i | 0 <= i < |r| :: r[i] == events[i].num
  {
    seq(|events|, i requires 0 <= i < |events| => events[i].num)
  }

  /** The filter shows unseen messages but commits nothing: the call may still fail. */
  function StageInput(c: Conv, items: seq<Item>): Conv {
    c.(staged := Some(Staged(NumbersOf(Unpresented(c.ledger.events)), |items|)))
  }

  predicate WaitingToBeAnswered(e: Event) { Pending(e) && e.stage.Presented? }

  /** What the respond calls of one response cover; a call naming nothing covers all that is shown and open. */
  function Acknowledged(response: seq<seq<nat>>, events: seq<Event>): set<nat> {
    if response == [] then {}
    else
      var last := response[|response|-1];
      Acknowledged(response[..|response|-1], events)
      + (if last == [] then Numbers(Filter(WaitingToBeAnswered, events)) else set n <- last)
  }

  /** A model call completed: what was staged was really seen. */
  function Complete(c: Conv, response: seq<seq<nat>>): Conv {
    var events :=
      if c.staged.Some? then PresentAll(c.ledger.events, c.staged.value.nums, c.staged.value.anchor)
      else c.ledger.events;
    c.(modelCalls := c.modelCalls + 1, staged := None,
       ledger := c.ledger.(events := events), batchAck := Acknowledged(response, events))
  }

  // ---- gating ---------------------------------------------------------------------------

  predicate Waiting(l: Ledger) {
    l.question.Some? && l.question.value.blocking && l.question.value.waiting
  }

  /** Presented, not given up on, and not covered by the current response. */
  predicate Open(e: Event, ack: set<nat>) {
    e.stage.Presented? && !e.outcome.Unacknowledged? && e.num !in ack
  }

  /** The refusal is counted once per response; past the cap the gate gives up on the event. */
  function GateOne(e: Event, ack: set<nat>, call: nat): Event {
    if !Open(e, ack) then e
    else
      var counted :=
        if e.lastRefusedCall == Some(call) then e
        else e.(lastRefusedCall := Some(call), gateRefusals := e.gateRefusals + 1);
      if counted.gateRefusals > MAX_GATE_REFUSALS then counted.(outcome := Unacknowledged) else counted
  }

  function GateAll(events: seq<Event>, ack: set<nat>, call: nat): (r: seq<Event>)
    ensures |r| == |events|
    ensures forall i | 0 <= i < |r| :: r[i] == GateOne(events[i], ack, call)
  {
    seq(|events|, i requires 0 <= i < |events| => GateOne(events[i], ack, call))
  }

  /** The events still open after the gate has counted (and given up). */
  function StillOpen(events: seq<Event>, ack: set<nat>): seq<nat> {
    if events == [] then []
    else
      var rest, e := StillOpen(events[..|events|-1], ack), events[|events|-1];
      if Open(e, ack) then rest + [e.num] else rest
  }

  function Gate(c: Conv): (Conv, Verdict) {
    if Waiting(c.ledger) then (c.(staleBlocked := c.staleBlocked + 1), AwaitingAnswer)
    else
      var unseen := Filter(IsReceived, Unaddressed(c.ledger.events));
      if unseen != [] then (c.(staleBlocked := c.staleBlocked + 1), UnseenInput(|unseen|))
      else
        var events := GateAll(c.ledger.events, c.batchAck, c.modelCalls);
        var ignored := StillOpen(events, c.batchAck);
        var gated := c.(ledger := c.ledger.(events := events));
        if ignored != [] then (gated.(staleBlocked := c.staleBlocked + 1), Unanswered(ignored))
        else (gated, Allowed)
  }

  // ---- acknowledgement --------------------------------------------------------------------

  /** What a respond call that names no message is about. */
  predicate DefaultTarget(e: Event, d: Decision) {
    (e.stage.Presented? || (d.Done? && e.stage.Addressed?)) && !e.outcome.Unacknowledged?
  }

  function DefaultTargets(events: seq<Event>, d: Decision): seq<nat> {
    if events == [] then []
    else
      var rest, e := DefaultTargets(events[..|events|-1], d), events[|events|-1];
      if DefaultTarget(e, d) then rest + [e.num] else rest
  }

  /** A decision that is not one of the known words records nothing. */
  function Respond(c: Conv, ids: seq<nat>, choice: Option<Decision>, reply: string): Conv {
    if choice.None? then c
    else
      var targets := if ids == [] then DefaultTargets(c.ledger.events, choice.value) else ids;
      if targets == [] then c
      else c.(ledger := RecordDecision(c.ledger, targets, choice.value, Strip(reply)))
  }

  // ---- finishing ----------------------------------------------------------------------------

  /** Whether the model is sent back: unanswered input, or (once) outdated files next to newer ones. */
  function Nudge(c: Conv, fileRevisions: seq<nat>): (Conv, bool) {
    var waiting := Unaddressed(c.ledger.events) != [];
    var rev := c.ledger.changeRevision;
    var mixed := !c.nudgedFiles && rev != 0
                 && (exists r <- fileRevisions :: r < rev) && (exists r <- fileRevisions :: r >= rev);
    (if mixed then c.(nudgedFiles := true) else c, waiting || mixed)
  }
}
