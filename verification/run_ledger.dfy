/** The ledger object: each method does in place what its `ThreadInbox` function says. */
module RunLedgers {
  import opened Sequences
  import opened Text
  import opened Inbox = ThreadInbox

  class RunLedger {
    const requester: Option<int>
    var phase: Phase
    var events: seq<Event>
    var followUps: seq<Event>
    var question: Option<Question>
    var revision: nat
    var changeRevision: nat
    var compacted: nat
    var nextQid: nat

    constructor (requester: Option<int>)
      ensures Value() == NewLedger(requester)
    {
      this.requester := requester;
      phase, events, followUps, question := Setup, [], [], None;
      revision, changeRevision, compacted, nextQid := 0, 0, 0, 1;
    }

    ghost function Value(): Ledger
      reads this
    {
      Ledger(requester, phase, events, followUps, question, revision, changeRevision, compacted, nextQid)
    }

    method Deliver(m: Message) returns (result: Delivery)
      modifies this
      ensures (Value(), result) == Inbox.Deliver(old(Value()), m)
    {
      if phase.Closed? {
        return NoRun;
      }
      if m.id != 0 && (HasMessage(events, m.id) || HasMessage(followUps, m.id)) {
        return Duplicate;
      }
      var text := Strip(m.text);
      if text == "" {
        return if m.attachments then AttachmentOnly else Empty;
      }
      if |text| > MAX_MESSAGE_CHARS {
        return TooLong;
      }
      var isRequester := m.authorId.Some? && requester.Some? && m.authorId == requester;
      var event := Event(0, m.(text := text), isRequester, None, Received, Undecided, "", None, 0, None);
      if phase.Finalizing? {
        if |followUps| >= MAX_FOLLOW_UPS {
          return Full;
        }
        followUps := followUps + [event];
        return Finishing;
      }
      var pending := Unaddressed(events);
      if |pending| >= MAX_PENDING_MESSAGES {
        return Full;
      }
      if Sum(TextLength, pending) + |text| > MAX_PENDING_CHARS {
        return Full;
      }
      if |events| >= MAX_RETAINED_EVENTS && NoneResolved(events) {
        return Full;
      }
      Accept(event);
      return Accepted;
    }

    /** The part of intake after every check has passed. */
    method Accept(e: Event)
      requires e.questionId.None?
      modifies this`revision, this`events, this`compacted
      ensures Value() == Inbox.Accept(old(Value()), e)
    {
      revision := revision + 1;
      var event := e.(num := revision);
      if question.Some? && (event.isRequester
         || (question.value.messageId != 0 && event.message.replyTo == question.value.messageId)) {
        event := event.(questionId := Some(question.value.qid));
      }
      events := events + [event];
      Compact();
    }

    method Compact()
      modifies this`events, this`compacted
      ensures Value() == Compacted(old(Value()))
    {
      var excess := |events| - MAX_RETAINED_EVENTS;
      if excess <= 0 {
        return;
      }
      var keep: seq<Event> := [];
      ghost var excess0 := excess;
      for i := 0 to |events|
        invariant events == old(events) && compacted == old(compacted) + (i - |keep|)
        invariant |keep| <= i
        invariant keep + DropResolved(events[i..], excess) == DropResolved(events, excess0)
      {
        var e := events[i];
        DropStep(keep, events, i, excess);
        if excess > 0 && e.stage.Resolved? {
          excess := excess - 1;
          compacted := compacted + 1;
        } else {
          keep := keep + [e];
        }
      }
      assert events[|events|..] == [];
      assert keep == DropResolved(events, excess0);
      events := keep;
    }

    method MarkPresented(nums: seq<nat>, anchor: nat) returns (shown: seq<nat>)
      requires Increasing(events)
      modifies this`events
      ensures events == PresentAll(old(events), nums, anchor)
      ensures forall n :: n in shown <==> n in nums && exists e <- old(events) :: e.num == n && e.stage.Received?
    {
      shown := [];
      var first := events;
      for k := 0 to |nums|
        invariant events == PresentAll(first, nums[..k], anchor)
        invariant forall n :: n in shown <==> n in nums[..k] && exists e <- first :: e.num == n && e.stage.Received?
      {
        var before := events;
        var i := Get(nums[k]);
        assert nums[..k+1] == nums[..k] + [nums[k]];
        if i < |events| && events[i].stage.Received? {
          events := events[i := events[i].(stage := Presented, anchor := Some(anchor))];
          shown := shown + [nums[k]];
          assert first[i].num == nums[k] && first[i].stage.Received? && first[i] in first;
        } else {
          assert forall e <- first :: e.num == nums[k] && e.stage.Received? ==> e.num in nums[..k];
        }
        assert events == PresentAll(first, nums[..k+1], anchor);
      }
      assert nums[..|nums|] == nums;
    }

    /** The position of event `num`, or the number of events when there is none. */
    method Get(num: nat) returns (i: nat)
      ensures i <= |events|
      ensures i < |events| ==> events[i].num == num
      ensures forall k | 0 <= k < i :: events[k].num != num
    {
      i := 0;
      while i < |events| && events[i].num != num
        invariant i <= |events|
        invariant forall k | 0 <= k < i :: events[k].num != num
      {
        i := i + 1;
      }
    }

    /** Records the decision on each of the numbers the model has been shown. */
    method DecideEach(nums: seq<nat>, d: Decision, reply: string) returns (updated: seq<nat>, unknown: seq<nat>)
      requires Increasing(events)
      modifies this`events
      ensures events == DecideAll(old(events), nums, d, reply)
      ensures forall n :: n in updated <==> n in nums && KnownTo(old(events), n)
      ensures forall n :: n in unknown <==> n in nums && !KnownTo(old(events), n)
    {
      updated, unknown := [], [];
      var first := events;
      for k := 0 to |nums|
        invariant events == DecideAll(first, nums[..k], d, reply)
        invariant forall n :: n in updated <==> n in nums[..k] && KnownTo(first, n)
        invariant forall n :: n in unknown <==> n in nums[..k] && !KnownTo(first, n)
      {
        var i := Get(nums[k]);
        DecideStep(first, events, nums, k, d, reply, i);
        if i == |events| || events[i].stage.Received? {
          unknown := unknown + [nums[k]];
        } else {
          events := events[i := events[i].(stage := StageFor(d), outcome := Decided(d),
                                           reply := if reply == "" then events[i].reply else reply)];
          updated := updated + [nums[k]];
        }
      }
      assert nums[..|nums|] == nums;
    }

    method RecordDecision(nums: seq<nat>, d: Decision, reply: string) returns (updated: seq<nat>, unknown: seq<nat>)
      requires Increasing(events)
      modifies this`events, this`changeRevision, this`question
      ensures Value() == Inbox.RecordDecision(old(Value()), nums, d, reply)
      ensures forall n :: n in updated <==> n in nums && KnownTo(old(events), n)
      ensures forall n :: n in unknown <==> n in nums && !KnownTo(old(events), n)
    {
      var first := events;
      updated, unknown := DecideEach(nums, d, reply);
      assert updated != [] <==> AnyKnown(first, nums) by {
        if updated != [] { assert updated[0] in updated; }
      }
      if updated != [] && (d.WillApply? || d.Done?) {
        changeRevision := changeRevision + 1;
      }
      CloseAnswered(first, nums, d, reply, updated);
    }

    /** Closes the open question if one of the decided events may answer it. */
    method CloseAnswered(ghost first: seq<Event>, ghost nums: seq<nat>, ghost d: Decision, ghost reply: string, updated: seq<nat>)
      requires Increasing(first) && events == DecideAll(first, nums, d, reply)
      requires forall n :: n in updated <==> n in nums && KnownTo(first, n)
      modifies this`question
      ensures question == if old(question).Some? && IsAnswered(first, nums, old(question).value.qid) then None else old(question)
    {
      if question.Some? {
        var answers := exists e <- events :: e.num in updated && e.questionId == Some(question.value.qid);
        AnswersAgree(first, events, nums, updated, d, reply, question.value.qid);
        if answers {
          question := None;
        }
      }
    }

    method OpenQuestion(text: string, blocking: bool) returns (qid: nat)
      modifies this`question, this`nextQid
      ensures Value() == Inbox.OpenQuestion(old(Value()), text, blocking) && qid == old(nextQid)
    {
      qid := nextQid;
      question := Some(Question(qid, text, blocking, revision, 0, false, false));
      nextQid := nextQid + 1;
    }

    /** The question objects the coordinator holds on to; one that is no longer open changes nothing here. */
    method NoteQuestionSent(qid: nat, messageId: nat)
      modifies this`question
      ensures Value() == UpdateQuestion(old(Value()), qid, (q: Question) => Some(q.(messageId := messageId)))
    {
      if question.Some? && question.value.qid == qid {
        question := Some(question.value.(messageId := messageId));
      }
    }

    method CloseQuestion(qid: nat)
      modifies this`question
      ensures Value() == UpdateQuestion(old(Value()), qid, (q: Question) => None)
    {
      if question.Some? && question.value.qid == qid {
        question := None;
      }
    }

    method SetWaiting(qid: nat, waiting: bool)
      modifies this`question
      ensures Value() == UpdateQuestion(old(Value()), qid, (q: Question) => Some(q.(waiting := waiting)))
    {
      if question.Some? && question.value.qid == qid {
        question := Some(question.value.(waiting := waiting));
      }
    }

    method NoteTimedOut(qid: nat)
      modifies this`question
      ensures Value() == UpdateQuestion(old(Value()), qid, (q: Question) => Some(q.(timedOut := true)))
    {
      if question.Some? && question.value.qid == qid {
        question := Some(question.value.(timedOut := true));
      }
    }

    method Finalize()
      modifies this`phase
      ensures Value() == Inbox.Finalize(old(Value()))
    {
      if phase.Setup? || phase.Running? {
        phase := Finalizing;
      }
    }

    method Outcomes() returns (rows: seq<Row>)
      ensures rows == Inbox.Outcomes(Value())
    {
      rows := [];
      for i := 0 to |events|
        invariant rows == Inbox.Outcomes(Value())[..i]
      {
        var e := events[i];
        var status;
        if e.outcome.Unacknowledged? {
          status := NotAcknowledged;
        } else if e.stage.Received? {
          status := Unseen;
        } else if e.stage.Presented? {
          status := NotAcknowledged;
        } else {
          status := Told(if e.outcome.Decided? then e.outcome.decision else Noted);
        }
        rows := rows + [Row(e.message.author, e.message.text, status, e.reply)];
      }
      for i := 0 to |followUps|
        invariant rows == Inbox.Outcomes(Value())[..|events| + i]
      {
        rows := rows + [Row(followUps[i].message.author, followUps[i].message.text, Late, "")];
      }
    }
  }

  /** One step of the compaction loop. */
  lemma {:induction false} DropStep(keep: seq<Event>, events: seq<Event>, i: nat, excess: int)
    requires i < |events|
    ensures keep + DropResolved(events[i..], excess) ==
            if excess > 0 && events[i].stage.Resolved? then keep + DropResolved(events[i+1..], excess - 1)
            else keep + [events[i]] + DropResolved(events[i+1..], excess)
  {
    assert events[i..][1..] == events[i+1..] && events[i..] == [events[i]] + events[i+1..];
  }

  /** With increasing numbers, the first position found is the only one, so looking there tells everything. */
  lemma {:induction false} KnownAt(events: seq<Event>, n: nat, i: nat)
    requires Increasing(events) && i <= |events| && (i < |events| ==> events[i].num == n)
    requires forall j | 0 <= j < i :: events[j].num != n
    ensures KnownTo(events, n) <==> i < |events| && !events[i].stage.Received?
    ensures forall j | 0 <= j < |events| && events[j].num == n :: j == i
  {
  }

  /** Deciding one more number after `done`. */
  lemma {:induction false} DecideMore(e: Event, done: seq<nat>, n: nat, d: Decision, reply: string)
    ensures DecideOne(e, done + [n], d, reply) == DecideOne(DecideOne(e, done, d, reply), [n], d, reply)
  {
  }

  /** One step of the decision loop: `i` is where `nums[k]` was found, if anywhere. */
  lemma {:induction false} DecideStep(first: seq<Event>, events: seq<Event>, nums: seq<nat>, k: nat, d: Decision, reply: string, i: nat)
    requires Increasing(first) && k < |nums| && events == DecideAll(first, nums[..k], d, reply)
    requires i <= |events| && (i < |events| ==> events[i].num == nums[k])
    requires forall j | 0 <= j < i :: events[j].num != nums[k]
    ensures nums[..k+1] == nums[..k] + [nums[k]]
    ensures KnownTo(first, nums[k]) <==> i < |events| && !events[i].stage.Received?
    ensures DecideAll(first, nums[..k+1], d, reply) ==
            if i < |events| then events[i := DecideOne(events[i], [nums[k]], d, reply)] else events
  {
    assert nums[..k+1] == nums[..k] + [nums[k]];
    forall j | 0 <= j < i ensures first[j].num != nums[k] { assert events[j].num == first[j].num; }
    KnownAt(first, nums[k], i);
    var all := DecideAll(first, nums[..k+1], d, reply);
    forall j | 0 <= j < |first|
      ensures all[j] == if j == i then DecideOne(events[j], [nums[k]], d, reply) else events[j]
    {
      DecideMore(first[j], nums[..k], nums[k], d, reply);
      assert all[j] == DecideOne(events[j], [nums[k]], d, reply);
      assert j != i ==> first[j].num != nums[k];
    }
  }

  /** The events a decision touched are the shown ones it names, so looking for a
      candidate answer among them is looking among those. */
  lemma {:induction false} AnswersAgree(first: seq<Event>, events: seq<Event>, nums: seq<nat>, updated: seq<nat>, d: Decision, reply: string,
                     qid: nat)
    requires Increasing(first) && events == DecideAll(first, nums, d, reply)
    requires forall n :: n in updated <==> n in nums && KnownTo(first, n)
    ensures (exists e <- events :: e.num in updated && e.questionId == Some(qid)) <==> IsAnswered(first, nums, qid)
  {
  }
}
