/** What the gate does not promise, on the smallest run that shows it. */
module ConversationExample {
  import opened Sequences
  import opened Text
  import opened ThreadInbox
  import opened LedgerInvariant
  import opened Conversation
  import opened ConversationRuns
  import opened GateSafety
  import opened ConversationTheorems
  import opened CoveredMessages

  /** The run goes out with its one message and the response names it; what follows are the steps of that response. */
  function ExampleRun(since: seq<Step>): seq<Step> {
    [Arrive(ExampleEvent().message), CallOut([]), CallDone([[1]])] + since
  }

  predicate ActsUnanswered(steps: seq<Step>) {
    && ValidRun(Start(None), steps)
    && var w := Run(Start(None), steps);
       w.running && |w.c.ledger.events| == 1 && LeftOpen(w.c.ledger.events[0])
  }

  /**
   A response counts as covering the messages its respond calls name before those calls have run. So a gated action
   of the same response starts on a message nobody answered, here the first of a run, if its respond call has an
   unknown decision and records nothing, or if it only runs after the action has started.
   */
  lemma {:induction false} CoveredIsNotAnswered()
    ensures ActsUnanswered(ExampleRun([Decide([1], None, ""), GatedCall]))
    ensures ActsUnanswered(ExampleRun([GatedCall]))
  {
    var w := ExampleResponds();
    ExampleStarts(w);
    OneStep(w, GatedCall, []);
    assert [GatedCall] + [] == [GatedCall];
    ExampleThen(w, [GatedCall]);
    OneStep(w, Decide([1], None, ""), [GatedCall]);
    assert [Decide([1], None, "")] + [GatedCall] == [Decide([1], None, ""), GatedCall];
    ExampleThen(w, [Decide([1], None, ""), GatedCall]);
  }

  /** The world once the response has arrived. */
  lemma {:induction false} ExampleResponds() returns (w: World)
    ensures ExampleResponded(w)
  {
    ExampleArrives();
    var w1 := Apply(Start(None), Arrive(ExampleEvent().message));
    ExampleGoesOut(w1);
    var w2 := Apply(w1, CallOut([]));
    ExampleCompletes(w2);
    w := Apply(w2, CallDone([[1]]));
  }

  predicate ExampleResponded(w: World) {
    && w.inFlight.None? && !w.running && w.c.ledger == ExampleLedger(ExampleShown()) && w.c.batchAck == {1}
    && Enabled(Start(None), Arrive(ExampleEvent().message))
    && var w1 := Apply(Start(None), Arrive(ExampleEvent().message));
    && Enabled(w1, CallOut([])) && Enabled(Apply(w1, CallOut([])), CallDone([[1]]))
    && w == Apply(Apply(w1, CallOut([])), CallDone([[1]]))
  }

  lemma {:induction false} ExampleThen(w: World, since: seq<Step>)
    requires ExampleResponded(w) && ValidRun(w, since)
    ensures ValidRun(Start(None), ExampleRun(since)) && Run(Start(None), ExampleRun(since)) == Run(w, since)
  {
    ThreeSteps(Start(None), Arrive(ExampleEvent().message), CallOut([]), CallDone([[1]]), since);
  }

  function ExampleEvent(): Event {
    Event(1, Message(0, None, "ana", "b", 0, false), false, None, Received, Undecided, "", None, 0, None)
  }

  function ExampleShown(): Event { ExampleEvent().(stage := Presented, anchor := Some(0)) }

  function ExampleLedger(e: Event): Ledger { Ledger(None, Setup, [e], [], None, 1, 0, 0, 1) }

  predicate Idle(w: World) { w.inFlight.None? && !w.running && w.calls == [] && w.c.modelCalls == 0 && w.c.batchAck == {} }

  lemma {:induction false} ExampleDelivered()
    ensures Deliver(NewLedger(None), ExampleEvent().message) == (ExampleLedger(ExampleEvent()), Accepted)
  {
    var e, l := ExampleEvent(), NewLedger(None);
    assert Strip("b") == "b";
    assert NewEvent(l, e.message) == e.(num := 0);
    assert Unaddressed([]) == [] && PendingChars([]) == 0;
    assert [] + [e] == [e];
  }

  lemma {:induction false} ExampleArrives()
    ensures var w := Apply(Start(None), Arrive(ExampleEvent().message));
            Idle(w) && w.c.ledger == ExampleLedger(ExampleEvent()) && w.c.staged.None?
  {
    ExampleDelivered();
  }

  lemma {:induction false} ExampleGoesOut(w: World)
    requires Idle(w) && w.c.ledger == ExampleLedger(ExampleEvent())
    ensures Enabled(w, CallOut([]))
    ensures var w' := Apply(w, CallOut([]));
            && w'.inFlight.Some? && !w'.running && w'.c.ledger == w.c.ledger && w'.c.staged == Some(Staged([1], 0))
            && w'.c.modelCalls == 0
  {
    FilterSnoc(IsReceived, [], ExampleEvent());
    assert [] + [ExampleEvent()] == [ExampleEvent()];
    assert Unpresented([ExampleEvent()]) == [ExampleEvent()];
    assert NumbersOf([ExampleEvent()]) == [1];
  }

  lemma {:induction false} ExampleSeen()
    ensures PresentAll([ExampleEvent()], [1], 0) == [ExampleShown()] && Acknowledged([[1]], [ExampleShown()]) == {1}
  {
    assert [[1]][..0] == [];
    assert Acknowledged([], [ExampleShown()]) == {};
  }

  lemma {:induction false} ExampleCompletes(w: World)
    requires w.inFlight.Some? && !w.running && w.c.ledger == ExampleLedger(ExampleEvent()) && w.c.staged == Some(Staged([1], 0))
    ensures Enabled(w, CallDone([[1]]))
    ensures var w' := Apply(w, CallDone([[1]]));
            w'.inFlight.None? && !w'.running && w'.c.ledger == ExampleLedger(ExampleShown()) && w'.c.batchAck == {1}
  {
    ExampleSeen();
  }

  lemma {:induction false} ExampleStarts(w: World)
    requires w.inFlight.None? && !w.running && w.c.ledger == ExampleLedger(ExampleShown()) && w.c.batchAck == {1}
    ensures Enabled(w, GatedCall) && Apply(w, GatedCall).running && Apply(w, GatedCall).c.ledger.events == [ExampleShown()]
  {
    var e := ExampleShown();
    GateIs(w.c);
    NoUnseen([e]);
    assert GateAll([e], {1}, w.c.modelCalls) == [e];
    assert StillOpen([e], {1}) == [] by {
      assert [e][..0] == [];
    }
  }

  lemma {:induction false} OneStep(w: World, s: Step, rest: seq<Step>)
    requires Enabled(w, s) && ValidRun(Apply(w, s), rest)
    ensures ValidRun(w, [s] + rest) && Run(w, [s] + rest) == Run(Apply(w, s), rest)
  {
    assert ([s] + rest)[1..] == rest;
  }

  lemma {:induction false} ThreeSteps(w: World, a: Step, b: Step, c: Step, rest: seq<Step>)
    requires Enabled(w, a) && Enabled(Apply(w, a), b) && Enabled(Apply(Apply(w, a), b), c)
    requires ValidRun(Apply(Apply(Apply(w, a), b), c), rest)
    ensures ValidRun(w, [a, b, c] + rest) && Run(w, [a, b, c] + rest) == Run(Apply(Apply(Apply(w, a), b), c), rest)
  {
    OneStep(Apply(Apply(w, a), b), c, rest);
    OneStep(Apply(w, a), b, [c] + rest);
    OneStep(w, a, [b] + ([c] + rest));
    assert [a] + ([b] + ([c] + rest)) == [a, b, c] + rest;
  }
}
