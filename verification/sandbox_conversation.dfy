/** The coordinator object: each method does in place what its `Conversation` function says. */
module SandboxConversations {
  import opened Sequences
  import opened Text
  import opened ThreadInbox
  import opened RunLedgers
  import opened Talk = Conversation

  function At(placed: map<nat, seq<Event>>, i: nat): seq<Event> {
    if i in placed then placed[i] else []
  }

  /** Counting one more event: what the events are then, and which of them are still open. */
  lemma {:induction false} CountNext(first: seq<Event>, k: nat, ack: set<nat>, call: nat)
    requires k < |first|
    ensures var done, e := GateAll(first[..k], ack, call), GateOne(first[k], ack, call);
            && (done + first[k..])[k] == first[k] && (done + first[k..])[k := e] == GateAll(first[..k+1], ack, call) + first[k+1..]
            && StillOpen(GateAll(first[..k+1], ack, call), ack) == StillOpen(done, ack) + (if Open(e, ack) then [e.num] else [])
  {
    var done, e := GateAll(first[..k], ack, call), GateOne(first[k], ack, call);
    assert GateAll(first[..k+1], ack, call) == done + [e];
    assert (done + [e])[..k] == done;
  }

  class SandboxConversation {
    const ledger: RunLedger
    var staged: Option<Staged>
    var batchAck: set<nat>
    var modelCalls: nat
    var staleBlocked: nat
    var continuations: nat
    var nudgedFiles: bool

    constructor (ledger: RunLedger)
      ensures this.ledger == ledger
      ensures Value() == Conv(ledger.Value(), None, {}, 0, 0, 0, false)
    {
      this.ledger := ledger;
      staged, batchAck, modelCalls, staleBlocked, continuations, nudgedFiles := None, {}, 0, 0, 0, false;
    }

    ghost function Value(): Conv
      reads this, ledger
    {
      Conv(ledger.Value(), staged, batchAck, modelCalls, staleBlocked, continuations, nudgedFiles)
    }

    method InputFilter(items: seq<Item>) returns (out: seq<Item>)
      modifies this`staged
      ensures out == FilteredInput(old(ledger.Value()), items)
      ensures Value() == StageInput(old(Value()), items)
    {
      var n := |items|;
      var unseen := Unpresented(ledger.events);
      staged := Some(Staged(NumbersOf(unseen), n));
      var placed := PlaceShown(n);
      placed := placed[n := At(placed, n) + unseen];
      out := WeaveInput(placed, items);
    }

    method WeaveInput(placed: map<nat, seq<Event>>, items: seq<Item>) returns (out: seq<Item>)
      requires forall i :: At(placed, i) == Slot(ledger.events, i, |items|)
      ensures out == FilteredInput(ledger.Value(), items)
    {
      out := [];
      for i := 0 to |items| + 1
        invariant out == Woven(ledger.events, ledger.requester, items, i)
      {
        assert At(placed, i) == Slot(ledger.events, i, |items|);
        out := out + RenderAll(SortByNumber(At(placed, i)), ledger.requester);
        if i < |items| {
          out := out + [items[i]];
        }
      }
    }

    /** Which shown events go before each of `n` items (or after the last). */
    method PlaceShown(n: nat) returns (placed: map<nat, seq<Event>>)
      ensures forall i :: At(placed, i) == ShownAt(ledger.events, i, n)
    {
      placed := map[];
      for k := 0 to |ledger.events|
        invariant forall i :: At(placed, i) == ShownAt(ledger.events[..k], i, n)
      {
        var e := ledger.events[k];
        assert ledger.events[..k+1][..k] == ledger.events[..k];
        if !e.stage.Received? && e.anchor.Some? {
          var at := if e.anchor.value < n then e.anchor.value else n;
          placed := placed[at := At(placed, at) + [e]];
        }
      }
      assert ledger.events[..|ledger.events|] == ledger.events;
    }

    method OnModelResponse(response: seq<seq<nat>>)
      requires Increasing(ledger.events)
      modifies this`staged, this`modelCalls, this`batchAck, ledger`events
      ensures Value() == Complete(old(Value()), response)
    {
      modelCalls := modelCalls + 1;
      if staged.Some? {
        var shown := ledger.MarkPresented(staged.value.nums, staged.value.anchor);
        staged := None;
      }
      var acked: set<nat> := {};
      for k := 0 to |response|
        invariant acked == Acknowledged(response[..k], ledger.events)
      {
        assert response[..k+1][..k] == response[..k];
        if response[k] == [] {
          acked := acked + Numbers(Filter(WaitingToBeAnswered, ledger.events));
        } else {
          acked := acked + set n <- response[k];
        }
      }
      assert response[..|response|] == response;
      batchAck := acked;
    }

    method Gate() returns (verdict: Verdict)
      modifies this`staleBlocked, ledger`events
      ensures (Value(), verdict) == Talk.Gate(old(Value()))
    {
      var q := ledger.question;
      if q.Some? && q.value.blocking && q.value.waiting {
        staleBlocked := staleBlocked + 1;
        return AwaitingAnswer;
      }
      var unseen := Filter(IsReceived, Unaddressed(ledger.events));
      if unseen != [] {
        staleBlocked := staleBlocked + 1;
        return UnseenInput(|unseen|);
      }
      var ignored := CountRefusals();
      if ignored != [] {
        staleBlocked := staleBlocked + 1;
        return Unanswered(ignored);
      }
      return Allowed;
    }

    /** The gate's pass over the presented events the current response does not cover. */
    method CountRefusals() returns (ignored: seq<nat>)
      modifies ledger`events
      ensures ledger.events == GateAll(old(ledger.events), batchAck, modelCalls)
      ensures ignored == StillOpen(ledger.events, batchAck)
    {
      ignored := [];
      var first := ledger.events;
      for k := 0 to |first|
        invariant ledger.events == GateAll(first[..k], batchAck, modelCalls) + first[k..]
        invariant ignored == StillOpen(GateAll(first[..k], batchAck, modelCalls), batchAck)
      {
        CountNext(first, k, batchAck, modelCalls);
        var e := first[k];
        if Open(e, batchAck) {
          if e.lastRefusedCall != Some(modelCalls) {
            e := e.(lastRefusedCall := Some(modelCalls), gateRefusals := e.gateRefusals + 1);
          }
          if e.gateRefusals > MAX_GATE_REFUSALS {
            e := e.(outcome := Unacknowledged);
          } else {
            ignored := ignored + [e.num];
          }
          ledger.events := ledger.events[k := e];
        }
      }
      assert first[..|first|] == first;
    }

    method Respond(ids: seq<nat>, choice: Option<Decision>, reply: string) returns (updated: seq<nat>, unknown: seq<nat>)
      requires Increasing(ledger.events)
      modifies ledger
      ensures Value() == Talk.Respond(old(Value()), ids, choice, reply)
    {
      if choice.None? {
        return [], [];
      }
      var targets := if ids == [] then DefaultTargets(ledger.events, choice.value) else ids;
      if targets == [] {
        return [], [];
      }
      updated, unknown := ledger.RecordDecision(targets, choice.value, Strip(reply));
    }

    method ContinuationNudge(fileRevisions: seq<nat>) returns (nudge: bool)
      modifies this`nudgedFiles
      ensures (Value(), nudge) == Talk.Nudge(old(Value()), fileRevisions)
    {
      nudge := Unaddressed(ledger.events) != [];
      if !nudgedFiles && fileRevisions != [] {
        var rev := ledger.changeRevision;
        if rev != 0 && (exists r <- fileRevisions :: r < rev) && (exists r <- fileRevisions :: r >= rev) {
          nudgedFiles := true;
          nudge := true;
        }
      }
    }
  }
}
