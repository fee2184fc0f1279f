/** What the model is shown of what people said: over any run, each retained message just as it was delivered. */
module ShownMessages {
  import opened Sequences
  import opened Text
  import opened ThreadInbox
  import opened Conversation
  import opened ConversationRuns
  import opened GateSafety
  import opened ConversationTheorems

  // ---- where a retained message comes from -------------------------------------------------------------

  lemma {:induction false} PrefixValid(w: World, steps: seq<Step>, k: nat)
    requires ValidRun(w, steps) && k <= |steps|
    ensures ValidRun(w, steps[..k])
    decreases k
  {
    if k > 0 {
      PrefixValid(Apply(w, steps[0]), steps[1..], k - 1);
      assert steps[..k][0] == steps[0] && steps[..k][1..] == steps[1..][..k-1];
    }
  }

  /** The ledger before step `k` of a run. */
  function LedgerAt(w: World, steps: seq<Step>, k: nat): Ledger
    requires ValidRun(w, steps) && k <= |steps|
  {
    PrefixValid(w, steps, k);
    Run(w, steps[..k]).c.ledger
  }

  /** Step `k` delivered the message that was accepted under number `n`. */
  predicate AcceptedAt(w: World, steps: seq<Step>, k: nat, n: nat)
    requires ValidRun(w, steps)
  {
    && k < |steps| && steps[k].Arrive? && Deliver(LedgerAt(w, steps, k), steps[k].m).1.Accepted?
    && n == LedgerAt(w, steps, k).revision + 1
  }

  /** The event is what the message became: its number, text, author, and what was known when it came. */
  predicate Became(e: Event, l: Ledger, m: Message) {
    && e.num == l.revision + 1 && e.message == m.(text := Strip(m.text))
    && (e.isRequester <==> l.requester.Some? && m.authorId == l.requester)
    && (e.questionId.Some? <==> MayAnswer(l, m))
  }

  /** A question is open that the message may be answering: it is the requester's, or a reply to the question itself. */
  predicate MayAnswer(l: Ledger, m: Message) {
    && l.question.Some?
    && ((l.requester.Some? && m.authorId == l.requester)
        || (l.question.value.messageId != 0 && m.replyTo == l.question.value.messageId))
  }

  predicate SameOrigin(a: Event, b: Event) {
    a.num == b.num && a.message == b.message && a.isRequester == b.isRequester && a.questionId == b.questionId
  }

  lemma {:induction false} ArrivalBecame(l: Ledger, m: Message)
    requires Deliver(l, m).1.Accepted?
    ensures Became(Arriving(l, m), l, m)
  {
  }

  predicate Stems(w: World, s: Step, e: Event) {
    || (exists x <- w.c.ledger.events :: SameOrigin(x, e))
    || (s.Arrive? && Deliver(w.c.ledger, s.m).1.Accepted? && Became(e, w.c.ledger, s.m))
  }

  lemma {:induction false} FaceStems(w: World, s: Step, r: seq<Event>)
    requires SameFace(w.c.ledger.events, r)
    ensures forall e <- r :: Stems(w, s, e)
  {
    forall e | e in r ensures Stems(w, s, e) {
      var i :| 0 <= i < |r| && r[i] == e;
      assert SameOrigin(w.c.ledger.events[i], e);
    }
  }

  lemma {:induction false} PresentStems(w: World, s: Step, nums: seq<nat>, anchor: nat)
    ensures forall e <- PresentAll(w.c.ledger.events, nums, anchor) :: Stems(w, s, e)
  {
    var r := PresentAll(w.c.ledger.events, nums, anchor);
    forall e | e in r ensures Stems(w, s, e) {
      var i :| 0 <= i < |r| && r[i] == e;
      assert SameOrigin(w.c.ledger.events[i], e);
    }
  }

  lemma {:induction false} ArriveStems(w: World, m: Message)
    ensures forall e <- Deliver(w.c.ledger, m).0.events :: Stems(w, Arrive(m), e)
  {
    var l := w.c.ledger;
    ArriveEvents(l, m);
    forall e | e in Deliver(l, m).0.events ensures Stems(w, Arrive(m), e) {
      if e in l.events {
        assert SameOrigin(e, e);
      } else {
        ArrivalBecame(l, m);
      }
    }
  }

  lemma {:induction false} StepStems(w: World, s: Step)
    requires LedgerOk(w) && Enabled(w, s)
    ensures forall e <- Apply(w, s).c.ledger.events :: Stems(w, s, e)
  {
    match s
    case Arrive(m) => ArriveStems(w, m);
    case CallOut(items) => SameFaceSelf(w.c.ledger.events); FaceStems(w, s, w.c.ledger.events);
    case CallDone(response) => PresentStems(w, s, w.c.staged.value.nums, w.c.staged.value.anchor);
    case _ =>
      RecordsOnlyKeeps(w, s);
      FaceStems(w, s, Apply(w, s).c.ledger.events);
  }

  /** An event is of the ledger the run began with, or became what step `k` delivered. */
  predicate Comes(w: World, steps: seq<Step>, e: Event, k: nat)
    requires ValidRun(w, steps)
  {
    AcceptedAt(w, steps, k, e.num) && Became(e, LedgerAt(w, steps, k), steps[k].m)
  }

  lemma {:induction false} LedgerLater(w: World, steps: seq<Step>, k: nat)
    requires ValidRun(w, steps) && steps != [] && k < |steps|
    ensures LedgerAt(w, steps, k + 1) == LedgerAt(Apply(w, steps[0]), steps[1..], k)
  {
    PrefixValid(w, steps, k + 1);
    PrefixValid(Apply(w, steps[0]), steps[1..], k);
    assert steps[..k+1][0] == steps[0] && steps[..k+1][1..] == steps[1..][..k];
  }

  lemma {:induction false} LedgerFirst(w: World, steps: seq<Step>)
    requires ValidRun(w, steps)
    ensures LedgerAt(w, steps, 0) == w.c.ledger
  {
    assert steps[..0] == [];
  }

  lemma {:induction false} ComesLater(w: World, steps: seq<Step>, e: Event, k: nat)
    requires ValidRun(w, steps) && steps != [] && Comes(Apply(w, steps[0]), steps[1..], e, k)
    ensures Comes(w, steps, e, k + 1)
  {
    LedgerLater(w, steps, k);
  }

  predicate Known(w: World, e: Event) { exists x <- w.c.ledger.events :: SameOrigin(x, e) }

  predicate HasOrigin(w: World, steps: seq<Step>, e: Event, k: nat)
    requires ValidRun(w, steps)
  {
    Known(w, e) || Comes(w, steps, e, k)
  }

  lemma {:induction false} KnownHere(w: World, steps: seq<Step>, e: Event)
    requires ValidRun(w, steps) && e in w.c.ledger.events
    ensures HasOrigin(w, steps, e, 0)
  {
    assert SameOrigin(e, e);
  }

  lemma {:induction false} Origin(w: World, steps: seq<Step>, e: Event) returns (k: nat)
    requires LedgerOk(w) && ValidRun(w, steps) && e in Run(w, steps).c.ledger.events
    ensures HasOrigin(w, steps, e, k)
    decreases |steps|
  {
    if steps == [] {
      KnownHere(w, steps, e);
      k := 0;
    } else {
      StepLedgerOk(w, steps[0]);
      var later := Origin(Apply(w, steps[0]), steps[1..], e);
      k := if Known(Apply(w, steps[0]), e) then 0 else later + 1;
      if k == 0 {
        FromFirst(w, steps, e);
      } else {
        FromLater(w, steps, e, later);
      }
    }
  }

  lemma {:induction false} FromLater(w: World, steps: seq<Step>, e: Event, later: nat)
    requires ValidRun(w, steps) && steps != []
    requires !Known(Apply(w, steps[0]), e) && HasOrigin(Apply(w, steps[0]), steps[1..], e, later)
    ensures HasOrigin(w, steps, e, later + 1)
  {
    ComesLater(w, steps, e, later);
  }

  lemma {:induction false} FromFirst(w: World, steps: seq<Step>, e: Event)
    requires LedgerOk(w) && ValidRun(w, steps) && steps != [] && Known(Apply(w, steps[0]), e)
    ensures HasOrigin(w, steps, e, 0)
  {
    var x :| x in Apply(w, steps[0]).c.ledger.events && SameOrigin(x, e);
    StepStems(w, steps[0]);
    LedgerFirst(w, steps);
    if y :| y in w.c.ledger.events && SameOrigin(y, x) {
      assert SameOrigin(y, e);
    }
  }

  // ---- what the model is shown ------------------------------------------------------------------------------

  /** The item puts the message before the model: its words, who said them, and what it may be about. */
  predicate Puts(x: Item, l: Ledger, m: Message) {
    && x.Thread? && x.text == Strip(m.text) && x.author == m.author && x.attachments == m.attachments
    && (x.who.Anyone? <==> l.requester.None?)
    && (x.who.TheRequester? <==> l.requester.Some? && m.authorId == l.requester)
    && (x.note.MaybeYourAnswer? <==> MayAnswer(l, m))
    && (x.note.InReply? <==> !MayAnswer(l, m) && m.replyTo != 0)
  }

  lemma {:induction false} RenderPuts(e: Event, l: Ledger, m: Message)
    requires Became(e, l, m)
    ensures Puts(Render(e, l.requester), l, m) && Render(e, l.requester).num == e.num
  {
  }

  predicate ShownOnce(items: seq<Item>, n: nat, i: nat) {
    && i < |items| && items[i].Thread? && items[i].num == n
    && forall j | 0 <= j < |items| && items[j].Thread? && items[j].num == n :: j == i
  }

  /** Thread items whose numbers increase are each found once. */
  lemma {:induction false} ThreadsOnce(items: seq<Item>, i: nat, j: nat)
    requires NumbersRise(ThreadsOf(items)) && i < j < |items| && items[i].Thread? && items[j].Thread?
    ensures items[i].num < items[j].num
    decreases |items|
  {
    var front, x := items[..|items|-1], items[|items|-1];
    if x.Thread? {
      RiseFront(ThreadsOf(front), x);
    }
    if j < |items| - 1 {
      ThreadsOnce(front, i, j);
    } else {
      InThreads(front, i);
      LastIsGreatest(ThreadsOf(front), x, front[i]);
    }
  }

  predicate NumbersRise(items: seq<Item>) {
    && (forall i | 0 <= i < |items| :: items[i].Thread?)
    && forall i, j | 0 <= i < j < |items| :: items[i].num < items[j].num
  }

  lemma {:induction false} RiseFront(front: seq<Item>, x: Item)
    requires NumbersRise(front + [x])
    ensures NumbersRise(front)
  {
    assert forall i | 0 <= i < |front| :: front[i] == (front + [x])[i];
  }

  lemma {:induction false} LastIsGreatest(front: seq<Item>, x: Item, y: Item)
    requires NumbersRise(front + [x]) && x.Thread? && y in front && y.Thread?
    ensures y.num < x.num
  {
    var i :| 0 <= i < |front| && front[i] == y;
    assert (front + [x])[i] == y && (front + [x])[|front|] == x;
  }

  lemma {:induction false} InThreads(items: seq<Item>, i: nat)
    requires i < |items| && items[i].Thread?
    ensures items[i] in ThreadsOf(items)
    decreases |items|
  {
    if i < |items| - 1 {
      InThreads(items[..|items|-1], i);
    }
  }

  lemma {:induction false} RenderedRise(events: seq<Event>, requester: Option<int>)
    requires Increasing(events)
    ensures NumbersRise(RenderAll(events, requester))
  {
  }

  lemma {:induction false} FoundOnce(items: seq<Item>, i: nat)
    requires NumbersRise(ThreadsOf(items)) && i < |items| && items[i].Thread?
    ensures ShownOnce(items, items[i].num, i)
  {
    forall j | 0 <= j < |items| && items[j].Thread? && items[j].num == items[i].num ensures j == i {
      if i < j {
        ThreadsOnce(items, i, j);
      } else if j < i {
        ThreadsOnce(items, j, i);
      }
    }
  }

  lemma {:induction false} RequesterAt(requester: Option<int>, steps: seq<Step>, k: nat)
    requires ValidRun(Start(requester), steps) && k <= |steps|
    ensures LedgerAt(Start(requester), steps, k).requester == requester
  {
    PrefixValid(Start(requester), steps, k);
    RequesterKept(Start(requester), steps[..k]);
  }

  lemma {:induction false} NothingAtStart(requester: Option<int>, e: Event)
    ensures !Known(Start(requester), e)
  {
  }

  /**
   Over any run, each message the ledger retains is in the next call's input exactly once, under its number: with the
   words, the author and the attachments of the message some earlier step delivered under that number, marked as the
   requester's or not, and as a possible answer or a reply, by what was open and who asked when it came.
   */
  lemma {:induction false} InputSaysWhatWasSaid(requester: Option<int>, steps: seq<Step>, items: seq<Item>, e: Event)
    returns (k: nat, i: nat)
    requires ValidRun(Start(requester), steps) && Enabled(Run(Start(requester), steps), CallOut(items))
    requires e in Run(Start(requester), steps).c.ledger.events
    ensures AcceptedAt(Start(requester), steps, k, e.num)
    ensures var input := Apply(Run(Start(requester), steps), CallOut(items)).inFlight.value.input;
            ShownOnce(input, e.num, i) && Puts(input[i], LedgerAt(Start(requester), steps, k), steps[k].m)
  {
    var w := Run(Start(requester), steps);
    StartOk(requester);
    RunOk(Start(requester), steps);
    NothingAtStart(requester, e);
    k := Origin(Start(requester), steps, e);
    RequesterAt(requester, steps, k);
    RequesterKept(Start(requester), steps);
    RenderPuts(e, LedgerAt(Start(requester), steps, k), steps[k].m);
    InputShows(w.c.ledger, items, e);
    var input := FilteredInput(w.c.ledger, items);
    i :| 0 <= i < |input| && input[i] == Render(e, requester);
    InputIsFaithful(requester, steps, items);
    RenderedRise(w.c.ledger.events, requester);
    FoundOnce(input, i);
  }

  // ---- what is reported of them -------------------------------------------------------------------------------

  /** A row tells what was said, by whom, and what became of it. */
  predicate Tells(r: Row, e: Event, m: Message) {
    && r.author == m.author && r.text == Strip(m.text) && r.reply == e.reply
    && (r.status.Told? <==> e.outcome.Decided?) && (r.status.Told? ==> r.status.decision == e.outcome.decision)
    && (r.status.Unseen? <==> e.stage.Received?)
    && (r.status.NotAcknowledged? <==> e.stage.Presented?)
    && !r.status.Late?
  }

  /**
   Over any run, the outcomes have one row for each retained message in order, which tells what some step delivered
   under its number and what became of it; and then one for each message that came too late, as it was.
   */
  lemma {:induction false} OutcomesTellAll(requester: Option<int>, steps: seq<Step>, i: nat) returns (k: nat)
    requires ValidRun(Start(requester), steps)
    requires i < |Outcomes(Run(Start(requester), steps).c.ledger)|
    ensures var l := Run(Start(requester), steps).c.ledger;
            && |Outcomes(l)| == |l.events| + |l.followUps|
            && var r := Outcomes(l)[i];
               if i < |l.events| then
                 AcceptedAt(Start(requester), steps, k, l.events[i].num) && Tells(r, l.events[i], steps[k].m)
               else
                 var late := l.followUps[i - |l.events|];
                 r.author == late.message.author && r.text == late.message.text && r.status.Late? && r.reply == ""
  {
    var l := Run(Start(requester), steps).c.ledger;
    k := 0;
    if i < |l.events| {
      var e := l.events[i];
      StartOk(requester);
      RunOk(Start(requester), steps);
      NothingAtStart(requester, e);
      k := Origin(Start(requester), steps, e);
      StageAgreesWithOutcome(requester, steps, e);
    }
  }
}
