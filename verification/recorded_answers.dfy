/** What is kept of what the model says: decisions, what is reported of them, and what the next run is told. */
module RecordedAnswers {
  import opened Sequences
  import opened Text
  import opened ThreadInbox
  import opened LedgerInvariant
  import opened Conversation

  // ---- which messages are accepted ------------------------------------------------------------------------

  predicate NeedsAttention(e: Event) { (e.stage.Received? || e.stage.Presented?) && !e.outcome.Unacknowledged? }

  function PendingNumbers(events: seq<Event>): set<nat> { set e <- events | NeedsAttention(e) :: e.num }

  function PendingText(events: seq<Event>): nat {
    if events == [] then 0
    else PendingText(events[..|events|-1]) + (if NeedsAttention(events[|events|-1]) then |events[|events|-1].message.text| else 0)
  }

  lemma {:induction false} PendingTextIs(events: seq<Event>)
    ensures PendingChars(events) == PendingText(events)
    decreases |events|
  {
    if events != [] {
      var front, e := events[..|events|-1], events[|events|-1];
      PendingTextIs(front);
      assert events == front + [e];
      FilterSnoc(Pending, front, e);
      if Pending(e) {
        SumSnoc(TextLength, Unaddressed(front), e);
      }
    }
  }

  lemma {:induction false} FrontIsBefore(events: seq<Event>, revision: nat)
    requires EventsOk(events, revision) && events != []
    ensures EventsOk(events[..|events|-1], revision) && forall x <- events[..|events|-1] :: x.num < events[|events|-1].num
  {
    assert forall i | 0 <= i < |events| - 1 :: Before(events[i], events[|events|-1]);
  }

  lemma {:induction false} PendingNumbersSnoc(front: seq<Event>, e: Event)
    requires forall x <- front :: x.num < e.num
    ensures |PendingNumbers(front + [e])| == |PendingNumbers(front)| + (if NeedsAttention(e) then 1 else 0)
  {
    assert forall x <- front :: x in front + [e];
    if NeedsAttention(e) {
      assert PendingNumbers(front + [e]) == PendingNumbers(front) + {e.num};
    } else {
      assert PendingNumbers(front + [e]) == PendingNumbers(front);
    }
  }

  lemma {:induction false} PendingNumbersAre(events: seq<Event>, revision: nat)
    requires EventsOk(events, revision)
    ensures |PendingNumbers(events)| == |Unaddressed(events)|
    decreases |events|
  {
    if events != [] {
      var front, e := events[..|events|-1], events[|events|-1];
      FrontIsBefore(events, revision);
      PendingNumbersAre(front, revision);
      FilterSnoc(Pending, front, e);
      assert events == front + [e];
      PendingNumbersSnoc(front, e);
    }
  }

  /** A message of a real id that the ledger already has, accepted or for the next run. */
  predicate Repeated(l: Ledger, m: Message) {
    m.id != 0 && ((exists e <- l.events :: e.message.id == m.id) || (exists e <- l.followUps :: e.message.id == m.id))
  }

  /** A message that is neither a repetition nor without words nor too long, to a run that has not been closed. */
  predicate Sound(l: Ledger, m: Message) {
    !l.phase.Closed? && !Repeated(l, m) && 0 < |Strip(m.text)| <= 1000
  }

  /** How every delivery is answered. */
  lemma {:induction false} AnswerTo(l: Ledger, m: Message)
    requires Inv(l)
    ensures var d, text := Deliver(l, m).1, Strip(m.text);
            && (d.NoRun? <==> l.phase.Closed?)
            && (d.Duplicate? <==> !l.phase.Closed? && Repeated(l, m))
            && (d.AttachmentOnly? || d.Empty? <==> !l.phase.Closed? && !Repeated(l, m) && text == "")
            && (d.AttachmentOnly? ==> m.attachments) && (d.Empty? ==> !m.attachments)
            && (d.TooLong? <==> !l.phase.Closed? && !Repeated(l, m) && |text| > 1000)
            && (d.Finishing? <==> Sound(l, m) && l.phase.Finalizing? && |l.followUps| < 10)
            && (d.Accepted? <==> Sound(l, m) && !l.phase.Finalizing?
                                 && |PendingNumbers(l.events)| < 20 && PendingText(l.events) + |text| <= 4000
                                 && (|l.events| < 60 || exists e <- l.events :: e.stage.Resolved?))
            && (d.Full? <==> Sound(l, m) && !d.Accepted? && !d.Finishing?)
            && (!d.Accepted? && !d.Finishing? ==> Deliver(l, m).0 == l)
  {
    PendingTextIs(l.events);
    PendingNumbersAre(l.events, l.revision);
  }

  // ---- recording a decision -----------------------------------------------------------------------------------

  /** A respond call is about the shown messages it names; naming none, about those open, and for "done" also those accepted. */
  predicate IsAbout(e: Event, ids: seq<nat>, d: Decision) {
    && !e.stage.Received?
    && (if ids != [] then e.num in ids
        else !e.outcome.Unacknowledged? && (e.stage.Presented? || (d.Done? && e.stage.Addressed?)))
  }

  lemma {:induction false} DefaultIs(events: seq<Event>, d: Decision, n: nat)
    ensures n in DefaultTargets(events, d) <==> exists e <- events :: e.num == n && IsAbout(e, [], d)
    decreases |events|
  {
    if events != [] {
      var front, e := events[..|events|-1], events[|events|-1];
      assert events == front + [e];
      DefaultIs(front, d, n);
    }
  }

  function TargetsOf(events: seq<Event>, ids: seq<nat>, d: Decision): seq<nat> {
    if ids == [] then DefaultTargets(events, d) else ids
  }

  lemma {:induction false} OneOfEach(events: seq<Event>, revision: nat, i: nat, j: nat)
    requires EventsOk(events, revision) && i < |events| && j < |events| && events[i].num == events[j].num
    ensures i == j
  {
  }

  lemma {:induction false} AboutIff(events: seq<Event>, revision: nat, ids: seq<nat>, d: Decision, i: nat)
    requires EventsOk(events, revision) && i < |events|
    ensures IsAbout(events[i], ids, d) <==> !events[i].stage.Received? && events[i].num in TargetsOf(events, ids, d)
  {
    if ids == [] {
      DefaultIs(events, d, events[i].num);
      if e :| e in events && e.num == events[i].num && IsAbout(e, [], d) {
        var j :| 0 <= j < |events| && events[j] == e;
        OneOfEach(events, revision, i, j);
      }
    }
  }

  lemma {:induction false} RespondEvents(c: Conv, ids: seq<nat>, d: Decision, reply: string)
    ensures Respond(c, ids, Some(d), reply).ledger.events == DecideAll(c.ledger.events, TargetsOf(c.ledger.events, ids, d), d, Strip(reply))
  {
    if TargetsOf(c.ledger.events, ids, d) == [] {
      assert DecideAll(c.ledger.events, [], d, Strip(reply)) == c.ledger.events;
    }
  }

  /** An event after a respond call: the decision given, its stage, and its reply unless that is blank; nothing else. */
  lemma {:induction false} DecisionIsRecorded(c: Conv, ids: seq<nat>, choice: Option<Decision>, reply: string, i: nat)
    requires Inv(c.ledger) && i < |c.ledger.events|
    ensures var r := Respond(c, ids, choice, reply).ledger.events;
            && |r| == |c.ledger.events|
            && var e, u := c.ledger.events[i], r[i];
               if choice.Some? && IsAbout(e, ids, choice.value) then
                 && u == e.(stage := u.stage, outcome := u.outcome, reply := u.reply)
                 && u.outcome == Decided(choice.value) && u.reply == (if Strip(reply) == "" then e.reply else Strip(reply))
                 && (if choice.value.WillApply? then u.stage.Addressed? else u.stage.Resolved?)
               else u == e
  {
    if choice.Some? {
      RespondEvents(c, ids, choice.value, reply);
      AboutIff(c.ledger.events, c.ledger.revision, ids, choice.value, i);
    }
  }

  /** The rest of the ledger: a change that is to be applied, or was, counts once; an answered question closes. */
  lemma {:induction false} DecisionChanges(c: Conv, ids: seq<nat>, d: Decision, reply: string)
    requires Inv(c.ledger)
    ensures var l, r := c.ledger, Respond(c, ids, Some(d), reply).ledger;
            var any := exists e <- l.events :: IsAbout(e, ids, d);
            && r == l.(events := r.events, changeRevision := r.changeRevision, question := r.question)
            && r.changeRevision == l.changeRevision + (if any && (d.WillApply? || d.Done?) then 1 else 0)
            && r.question == (if l.question.Some?
                                 && exists e <- l.events :: IsAbout(e, ids, d) && e.questionId == Some(l.question.value.qid)
                              then None else l.question)
    ensures Respond(c, ids, Some(d), reply) == c.(ledger := Respond(c, ids, Some(d), reply).ledger)
  {
    var events, nums := c.ledger.events, TargetsOf(c.ledger.events, ids, d);
    forall e | e in events ensures IsAbout(e, ids, d) <==> !e.stage.Received? && e.num in nums {
      var i :| 0 <= i < |events| && events[i] == e;
      AboutIff(events, c.ledger.revision, ids, d, i);
    }
    KnownIff(events, nums);
  }

  lemma {:induction false} KnownIff(events: seq<Event>, nums: seq<nat>)
    ensures AnyKnown(events, nums) <==> exists e <- events :: !e.stage.Received? && e.num in nums
  {
    if e :| e in events && !e.stage.Received? && e.num in nums {
      assert KnownTo(events, e.num);
    }
  }

  // ---- what the gate answers ------------------------------------------------------------------------------

  function UnseenNumbers(events: seq<Event>): set<nat> { set e <- events | e.stage.Received? :: e.num }

  lemma {:induction false} UnseenSnoc(front: seq<Event>, e: Event)
    requires forall x <- front :: x.num < e.num
    ensures |UnseenNumbers(front + [e])| == |UnseenNumbers(front)| + (if e.stage.Received? then 1 else 0)
  {
    assert forall x <- front :: x in front + [e];
    if e.stage.Received? {
      assert UnseenNumbers(front + [e]) == UnseenNumbers(front) + {e.num};
    } else {
      assert UnseenNumbers(front + [e]) == UnseenNumbers(front);
    }
  }

  lemma {:induction false} UnseenFilterSnoc(front: seq<Event>, e: Event)
    requires EventOk(e)
    ensures Filter(IsReceived, Unaddressed(front + [e]))
            == Filter(IsReceived, Unaddressed(front)) + (if e.stage.Received? then [e] else [])
  {
    FilterSnoc(Pending, front, e);
    FilterSnoc(IsReceived, Unaddressed(front), e);
    assert Unaddressed(front) + [] == Unaddressed(front);
  }

  lemma {:induction false} UnseenNumbersAre(events: seq<Event>, revision: nat)
    requires EventsOk(events, revision)
    ensures |UnseenNumbers(events)| == |Filter(IsReceived, Unaddressed(events))|
    decreases |events|
  {
    if events != [] {
      var front, e := events[..|events|-1], events[|events|-1];
      FrontIsBefore(events, revision);
      UnseenNumbersAre(front, revision);
      assert events == front + [e] && EventOk(e);
      UnseenSnoc(front, e);
      UnseenFilterSnoc(front, e);
    }
  }

  lemma {:induction false} StillOpenIs(events: seq<Event>, ack: set<nat>, call: nat, n: nat)
    ensures n in StillOpen(GateAll(events, ack, call), ack) ==>
            exists e <- events :: e.num == n && e.stage.Presented? && !e.outcome.Unacknowledged? && n !in ack
    decreases |events|
  {
    if events != [] {
      var front := events[..|events|-1];
      assert GateAll(events, ack, call)[..|events|-1] == GateAll(front, ack, call);
      StillOpenIs(front, ack, call, n);
      assert events == front + [events[|events|-1]];
    }
  }

  /**
   What the gate says: that a blocking question waits, else how many messages are unseen, else messages that were shown
   and neither decided, given up on nor covered by this response. Each refusal, and nothing else, is counted as one.
   */
  lemma {:induction false} GateSays(c: Conv, n: nat)
    requires Inv(c.ledger)
    ensures var q, unseen, verdict := c.ledger.question, UnseenNumbers(c.ledger.events), Gate(c).1;
            && (verdict.AwaitingAnswer? <==> q.Some? && q.value.blocking && q.value.waiting)
            && (verdict.UnseenInput? <==> !verdict.AwaitingAnswer? && unseen != {})
            && (verdict.UnseenInput? ==> verdict.count == |unseen|)
            && (verdict.Unanswered? ==> verdict.ignored != [])
            && (verdict.Unanswered? && n in verdict.ignored ==>
                  exists e <- c.ledger.events ::
                    e.num == n && e.stage.Presented? && !e.outcome.Unacknowledged? && n !in c.batchAck)
            && Gate(c).0.staleBlocked == c.staleBlocked + (if verdict.Allowed? then 0 else 1)
  {
    UnseenNumbersAre(c.ledger.events, c.ledger.revision);
    StillOpenIs(c.ledger.events, c.batchAck, c.modelCalls, n);
  }
}
