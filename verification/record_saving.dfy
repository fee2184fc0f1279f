/**
 Saving the record while messages may still land, and the end of the claim. Each save awaits Redis, so
 a window of arrivals follows every snapshot; nothing can arrive between the last check and the release.
 */
module RecordSaving {
  import opened Sequences
  import opened Text
  import opened ThreadInbox
  import opened RunLedgers
  import opened ConversationRecord

  const SAVE_ATTEMPTS := 5

  /** What happens while one save is awaited: the messages that arrive, and whether the save succeeds. */
  datatype Window = Window(arrivals: seq<Message>, ok: bool)

  datatype Snapshot = Snapshot(rows: seq<Row>, question: Option<string>)

  datatype Saving = Saving(ledger: Ledger, saved: Option<Snapshot>, stored: Option<Record>)

  function SnapshotOf(l: Ledger): Snapshot {
    Snapshot(Outcomes(l), if l.question.Some? then Some(l.question.value.text) else None)
  }

  function RecordFor(s: Snapshot, outcome: string): Record {
    Trimmed(BuildRecord(s.rows, outcome, s.question))
  }

  function DeliverAll(l: Ledger, ms: seq<Message>): Ledger
    decreases |ms|
  {
    if ms == [] then l else Deliver(DeliverAll(l, ms[..|ms|-1]), ms[|ms|-1]).0
  }

  /** The ledger at each check of the loop, if it gets there: what each window brings is delivered before the next. */
  function Ledgers(l: Ledger, windows: seq<Window>): (r: seq<Ledger>)
    ensures |r| == |windows| + 1
    decreases |windows|
  {
    if windows == [] then [l]
    else
      var front := Ledgers(l, windows[..|windows|-1]);
      front + [DeliverAll(front[|front|-1], windows[|windows|-1].arrivals)]
  }

  /** The save loop from attempt `k` on, when these are the ledgers at its checks: the last ledger, and what was saved. */
  function SaveFrom(ls: seq<Ledger>, windows: seq<Window>, saved: Option<Snapshot>, k: nat): (Ledger, Option<Snapshot>)
    requires k <= SAVE_ATTEMPTS <= |windows| && |ls| == |windows| + 1
    decreases SAVE_ATTEMPTS - k
  {
    if k == SAVE_ATTEMPTS || saved == Some(SnapshotOf(ls[k])) then (ls[k], saved)
    else if !windows[k].ok then (ls[k+1], saved)
    else SaveFrom(ls, windows, Some(SnapshotOf(ls[k])), k + 1)
  }

  function RecordOf(saved: Option<Snapshot>, outcome: string): Option<Record> {
    if saved.Some? then Some(RecordFor(saved.value, outcome)) else None
  }

  /** How the whole loop ends; the record stored is that of the snapshot saved last. */
  function SaveAll(l: Ledger, outcome: string, windows: seq<Window>): Saving
    requires |windows| >= SAVE_ATTEMPTS
  {
    var (last, saved) := SaveFrom(Ledgers(l, windows), windows, None, 0);
    Saving(last, saved, RecordOf(saved, outcome))
  }

  lemma {:induction false} LedgersStep(l: Ledger, windows: seq<Window>, k: nat)
    requires k < |windows|
    ensures Ledgers(l, windows)[0] == l
    ensures Ledgers(l, windows)[k+1] == DeliverAll(Ledgers(l, windows)[k], windows[k].arrivals)
    decreases |windows|
  {
    if k < |windows| - 1 {
      LedgersStep(l, windows[..|windows|-1], k);
    } else if |windows| > 1 {
      LedgersStep(l, windows[..|windows|-1], 0);
    }
  }

  method DeliverEach(ledger: RunLedger, ms: seq<Message>)
    modifies ledger
    ensures ledger.Value() == DeliverAll(old(ledger.Value()), ms)
  {
    for i := 0 to |ms|
      invariant ledger.Value() == DeliverAll(old(ledger.Value()), ms[..i])
    {
      assert ms[..i+1][..i] == ms[..i];
      var _ := ledger.Deliver(ms[i]);
    }
    assert ms[..|ms|] == ms;
  }

  method TakeRecord(ledger: RunLedger, outcome: string) returns (now: Snapshot, record: Record)
    ensures now == SnapshotOf(ledger.Value()) && record == RecordFor(now, outcome)
  {
    var rows := ledger.Outcomes();
    now := Snapshot(rows, if ledger.question.Some? then Some(ledger.question.value.text) else None);
    record := BuildRecordLoop(now.rows, outcome, now.question);
    record := TrimLoop(record);
  }

  method SaveConversationRecord(ledger: RunLedger, outcome: string, windows: seq<Window>)
    returns (saved: Option<Snapshot>, stored: Option<Record>)
    requires |windows| >= SAVE_ATTEMPTS
    modifies ledger
    ensures Saving(ledger.Value(), saved, stored) == SaveAll(old(ledger.Value()), outcome, windows)
  {
    saved, stored := None, None;
    ghost var ls := Ledgers(ledger.Value(), windows);
    LedgersStep(ledger.Value(), windows, 0);
    for k := 0 to SAVE_ATTEMPTS
      invariant ledger.Value() == ls[k]
      invariant SaveFrom(ls, windows, saved, k) == SaveFrom(ls, windows, None, 0) && stored == RecordOf(saved, outcome)
    {
      var now, record := TakeRecord(ledger, outcome);
      if saved == Some(now) {
        return;
      }
      LedgersStep(old(ledger.Value()), windows, k);
      DeliverEach(ledger, windows[k].arrivals);
      if !windows[k].ok {
        return;
      }
      saved, stored := Some(now), Some(record);
    }
  }

  // ---- nothing promised is lost ----------------------------------------------------------------

  function LateItem(e: Event): Item { ItemOf(LateRow(e)) }

  function LateItems(events: seq<Event>): (r: seq<Item>)
    ensures |r| == |events|
    ensures forall i | 0 <= i < |r| :: r[i] == LateItem(events[i])
  {
    seq(|events|, i requires 0 <= i < |events| => LateItem(events[i]))
  }

  lemma {:induction false} CarryConcat(a: seq<Row>, b: seq<Row>)
    ensures CarryOf(a + b) == CarryOf(a) + CarryOf(b)
    decreases |b|
  {
    if b == [] {
      assert a + b == a;
    } else {
      assert (a + b)[..|a + b| - 1] == a + b[..|b|-1];
      CarryConcat(a, b[..|b|-1]);
    }
  }

  lemma {:induction false} CarryLate(events: seq<Event>, rows: seq<Row>)
    requires |rows| == |events| && forall i | 0 <= i < |rows| :: rows[i] == LateRow(events[i])
    ensures CarryOf(rows) == LateItems(events)
    decreases |rows|
  {
    if rows != [] {
      var n := |rows| - 1;
      CarryLate(events[..n], rows[..n]);
      assert LateItems(events) == LateItems(events[..n]) + [LateItem(events[n])];
    }
  }

  /** The carried items end with the follow-ups, in order. */
  lemma {:induction false} CarryEndsWithLate(l: Ledger)
    ensures CarryOf(Outcomes(l)) == CarryOf(Outcomes(l)[..|l.events|]) + LateItems(l.followUps)
  {
    var rows, n := Outcomes(l), |l.events|;
    assert rows == rows[..n] + rows[n..];
    CarryConcat(rows[..n], rows[n..]);
    CarryLate(l.followUps, rows[n..]);
  }

  /** The ten items of a record always have room for the ten follow-ups a run may take. */
  lemma {:induction false} RecordHasEveryFollowUp(l: Ledger, outcome: string, question: Option<string>)
    requires |l.followUps| <= MAX_FOLLOW_UPS
    ensures forall e <- l.followUps :: LateItem(e) in BuildRecord(Outcomes(l), outcome, question).carry
  {
    CarryEndsWithLate(l);
    var front := CarryOf(Outcomes(l)[..|l.events|]);
    var all, late := CarryOf(Outcomes(l)), LateItems(l.followUps);
    var carry := LastItems(all);
    forall e | e in l.followUps ensures LateItem(e) in carry {
      var i :| 0 <= i < |l.followUps| && l.followUps[i] == e;
      assert all[|front| + i] == late[i];
      assert carry[|carry| - |late| + i] == late[i];
    }
  }

  predicate InFinish(l: Ledger) { l.phase.Finalizing? && |l.followUps| <= MAX_FOLLOW_UPS }

  /** After the boundary only the follow-ups change, and only by growing. */
  lemma {:induction false} DeliverAllGrows(l: Ledger, ms: seq<Message>)
    requires InFinish(l)
    ensures var l' := DeliverAll(l, ms);
            && InFinish(l') && l'.events == l.events && l'.question == l.question && l'.requester == l.requester
            && l.followUps <= l'.followUps
    decreases |ms|
  {
    if ms != [] {
      DeliverAllGrows(l, ms[..|ms|-1]);
    }
  }

  lemma {:induction false} DeliverAllSplit(l: Ledger, ms: seq<Message>, i: nat)
    requires i <= |ms|
    ensures DeliverAll(l, ms) == DeliverAll(DeliverAll(l, ms[..i]), ms[i..])
    decreases |ms|
  {
    if i < |ms| {
      DeliverAllSplit(l, ms[..|ms|-1], i);
      assert ms[..|ms|-1][..i] == ms[..i] && ms[i..][..|ms|-i-1] == ms[..|ms|-1][i..];
    } else {
      assert ms[..i] == ms && ms[i..] == [];
    }
  }

  /** A message answered "finishing" is a follow-up of the run, whatever else arrives before it or after. */
  lemma {:induction false} FinishingIsKept(l: Ledger, ms: seq<Message>, i: nat)
    requires InFinish(l) && i < |ms| && Deliver(DeliverAll(l, ms[..i]), ms[i]).1.Finishing?
    ensures NewEvent(l, ms[i]) in DeliverAll(l, ms).followUps
  {
    DeliverAllGrows(l, ms[..i]);
    DeliverAllSplit(l, ms, i + 1);
    assert ms[..i+1][..i] == ms[..i];
    var filed := DeliverAll(l, ms[..i+1]);
    DeliverAllGrows(l, ms[..i+1]);
    DeliverAllGrows(filed, ms[i+1..]);
    assert filed.followUps[|filed.followUps|-1] == NewEvent(l, ms[i]);
  }

  predicate QuietAt(ls: seq<Ledger>, k: nat)
    requires k + 1 < |ls|
  {
    ls[k+1].followUps == ls[k].followUps
  }

  predicate SavesTo(windows: seq<Window>, i: nat)
    requires i < |windows|
  {
    forall m: nat | m <= i :: windows[m].ok
  }

  /** Attempt `i`, or a later one, saved what was then not added to, every save up to it having succeeded. */
  predicate SettledFrom(ls: seq<Ledger>, windows: seq<Window>, k: nat)
    requires |windows| >= SAVE_ATTEMPTS && |ls| == |windows| + 1
  {
    exists i: nat | k <= i < SAVE_ATTEMPTS :: QuietAt(ls, i) && SavesTo(windows, i)
  }

  /** Some save was followed by no new follow-up, and it and those before it succeeded. */
  predicate Settles(l: Ledger, windows: seq<Window>)
    requires |windows| >= SAVE_ATTEMPTS
  {
    SettledFrom(Ledgers(l, windows), windows, 0)
  }

  predicate GrowsTo(a: Ledger, b: Ledger) {
    InFinish(a) && InFinish(b) && a.events == b.events && a.question == b.question && a.followUps <= b.followUps
  }

  predicate GrowsAt(ls: seq<Ledger>, k: nat)
    requires k + 1 < |ls|
  {
    GrowsTo(ls[k], ls[k+1])
  }

  predicate AllGrow(ls: seq<Ledger>) { forall k: nat | k < |ls| - 1 :: GrowsAt(ls, k) }

  lemma {:induction false} LedgersGrow(l: Ledger, windows: seq<Window>)
    requires InFinish(l)
    ensures AllGrow(Ledgers(l, windows)) && forall x <- Ledgers(l, windows) :: InFinish(x)
    decreases |windows|
  {
    if windows != [] {
      var front := Ledgers(l, windows[..|windows|-1]);
      LedgersGrow(l, windows[..|windows|-1]);
      assert front[|front|-1] in front;
      DeliverAllGrows(front[|front|-1], windows[|windows|-1].arrivals);
      forall k: nat | k < |windows| ensures GrowsAt(Ledgers(l, windows), k) {
        assert k < |windows| - 1 ==> GrowsAt(front, k);
      }
    }
  }

  lemma {:induction false} SameSnapshot(a: Ledger, b: Ledger)
    requires a.events == b.events && a.question == b.question && a.followUps <= b.followUps
    ensures SnapshotOf(a) == SnapshotOf(b) <==> a.followUps == b.followUps
  {
  }

  /** The loop from attempt `k` on, holding what attempt `k - 1` saved. */
  function Rest(ls: seq<Ledger>, windows: seq<Window>, k: nat): (Ledger, Option<Snapshot>)
    requires 1 <= k <= SAVE_ATTEMPTS <= |windows| && |ls| == |windows| + 1
  {
    SaveFrom(ls, windows, Some(SnapshotOf(ls[k-1])), k)
  }

  /** The loop stops at the first attempt since which nothing new came, at the first save that fails, or after the last. */
  lemma {:induction false} StopsAt(ls: seq<Ledger>, windows: seq<Window>, k: nat) returns (j: nat)
    requires 1 <= k <= SAVE_ATTEMPTS <= |windows| && |ls| == |windows| + 1 && AllGrow(ls) && SavesTo(windows, k - 1)
    ensures k <= j <= SAVE_ATTEMPTS && SavesTo(windows, j - 1)
    ensures forall i: nat | k - 1 <= i < j - 1 :: !QuietAt(ls, i)
    ensures if j == SAVE_ATTEMPTS || QuietAt(ls, j - 1) then Rest(ls, windows, k) == (ls[j], Some(SnapshotOf(ls[j-1])))
            else !windows[j].ok && Rest(ls, windows, k) == (ls[j+1], Some(SnapshotOf(ls[j-1])))
    decreases SAVE_ATTEMPTS - k
  {
    assert GrowsAt(ls, k - 1);
    SameSnapshot(ls[k-1], ls[k]);
    if k == SAVE_ATTEMPTS || QuietAt(ls, k - 1) || !windows[k].ok {
      j := k;
    } else {
      j := StopsAt(ls, windows, k + 1);
    }
  }

  lemma {:induction false} FollowUpsStay(ls: seq<Ledger>, k: nat)
    requires AllGrow(ls) && k < |ls|
    ensures ls[0].followUps <= ls[k].followUps
    decreases k
  {
    if k > 0 {
      FollowUpsStay(ls, k - 1);
      assert GrowsAt(ls, k - 1);
      PrefixTrans(ls[0].followUps, ls[k-1].followUps, ls[k].followUps);
    }
  }

  /** What came between two checks of the loop is what the later one has and the earlier has not. */
  lemma {:induction false} GrowsOn(ls: seq<Ledger>, j: nat, k: nat)
    requires AllGrow(ls) && j <= k < |ls| && InFinish(ls[j])
    ensures GrowsTo(ls[j], ls[k])
    decreases k
  {
    if j < k {
      GrowsOn(ls, j, k - 1);
      assert GrowsAt(ls, k - 1);
      PrefixTrans(ls[j].followUps, ls[k-1].followUps, ls[k].followUps);
    }
  }

  /** Two prefixes of one sequence, the middle of three, are equal when the outer two are. */
  lemma {:induction false} PrefixBetween<T>(a: seq<T>, b: seq<T>, c: seq<T>)
    requires a <= b <= c && a == c
    ensures a == b
  {
  }

  /** How the loop's last snapshot compares with the ledger it leaves. */
  predicate EndsWith(ls: seq<Ledger>, windows: seq<Window>, last: Ledger, saved: Option<Snapshot>)
    requires |windows| >= SAVE_ATTEMPTS && |ls| == |windows| + 1
  {
    && InFinish(last) && ls[0].followUps <= last.followUps && (saved.Some? <==> windows[0].ok)
    && (SettledFrom(ls, windows, 0) <==> saved == Some(SnapshotOf(last)))
    && (saved.Some? ==> exists x <- ls :: saved.value == SnapshotOf(x) && GrowsTo(x, last))
  }

  lemma {:induction false} LastSaved(ls: seq<Ledger>, windows: seq<Window>)
    requires |windows| >= SAVE_ATTEMPTS && |ls| == |windows| + 1 && AllGrow(ls) && (forall x <- ls :: InFinish(x))
    ensures var (last, saved) := SaveFrom(ls, windows, None, 0); EndsWith(ls, windows, last, saved)
  {
    FollowUpsStay(ls, 1);
    if windows[0].ok {
      var j := StopsAt(ls, windows, 1);
      assert SaveFrom(ls, windows, None, 0) == Rest(ls, windows, 1);
      if j == SAVE_ATTEMPTS || QuietAt(ls, j - 1) {
        EndsAt(ls, windows, j, j);
      } else {
        EndsAt(ls, windows, j, j + 1);
      }
    }
  }

  /** The loop stopped at attempt `j`, or in its window when the save failed. */
  lemma {:induction false} EndsAt(ls: seq<Ledger>, windows: seq<Window>, j: nat, end: nat)
    requires |windows| >= SAVE_ATTEMPTS && |ls| == |windows| + 1 && AllGrow(ls) && (forall x <- ls :: InFinish(x))
    requires 1 <= j <= SAVE_ATTEMPTS && SavesTo(windows, j - 1) && (forall i: nat | i < j - 1 :: !QuietAt(ls, i))
    requires if j == SAVE_ATTEMPTS || QuietAt(ls, j - 1) then end == j else !windows[j].ok && end == j + 1
    ensures EndsWith(ls, windows, ls[end], Some(SnapshotOf(ls[j-1])))
  {
    assert ls[j-1] in ls && ls[end] in ls;
    FollowUpsStay(ls, end);
    GrowsOn(ls, j - 1, end);
    GrowsOn(ls, j - 1, j);
    GrowsOn(ls, j, end);
    SameSnapshot(ls[j-1], ls[end]);
    if ls[j-1].followUps == ls[end].followUps {
      PrefixBetween(ls[j-1].followUps, ls[j].followUps, ls[end].followUps);
      assert QuietAt(ls, j - 1);
    }
    if i: nat :| i < SAVE_ATTEMPTS && QuietAt(ls, i) && SavesTo(windows, i) {
      assert i == j - 1 || (j <= i && windows[j].ok);
    }
  }

  /**
   The stored record tells of the ledger as it is when the claim is released exactly when one of the five saves was
   followed by no new follow-up, it and those before it having succeeded. Five windows each bringing one lose the last.
   */
  lemma {:induction false} SavedIffSomeWindowQuiet(l: Ledger, outcome: string, windows: seq<Window>)
    requires |windows| >= SAVE_ATTEMPTS && InFinish(l)
    ensures var r := SaveAll(l, outcome, windows);
            && r.stored == RecordOf(r.saved, outcome)
            && InFinish(r.ledger) && l.followUps <= r.ledger.followUps
            && (r.saved == Some(SnapshotOf(r.ledger)) <==> Settles(l, windows))
  {
    LedgersGrow(l, windows);
    LedgersStep(l, windows, 0);
    LastSaved(Ledgers(l, windows), windows);
  }

  lemma {:induction false} RecordTells(l: Ledger, outcome: string)
    ensures var r := RecordFor(SnapshotOf(l), outcome);
            && r.outcome == outcome
            && (r.question.Some? <==> l.question.Some? && l.question.value.text != "")
            && (r.question.Some? ==> Beginning(l.question.value.text, r.question.value, 500))
  {
    var k := TrimmedIsSuffix(BuildRecord(Outcomes(l), outcome, SnapshotOf(l).question));
    RecordSays(Outcomes(l), outcome, SnapshotOf(l).question);
  }

  /** A record is stored exactly when the first save succeeds; it has the outcome and the question left open, if any. */
  lemma {:induction false} StoredTells(l: Ledger, outcome: string, windows: seq<Window>)
    requires |windows| >= SAVE_ATTEMPTS && InFinish(l)
    ensures var stored := SaveAll(l, outcome, windows).stored;
            && (stored.Some? <==> windows[0].ok)
            && (stored.Some? ==>
                  && stored.value.outcome == outcome
                  && (stored.value.question.Some? <==> l.question.Some? && l.question.value.text != "")
                  && (stored.value.question.Some? ==> Beginning(l.question.value.text, stored.value.question.value, 500)))
  {
    var ls, saved := Ledgers(l, windows), SaveAll(l, outcome, windows).saved;
    LedgersGrow(l, windows);
    LedgersStep(l, windows, 0);
    LastSaved(ls, windows);
    if saved.Some? {
      var x :| x in ls && saved.value == SnapshotOf(x);
      var k :| 0 <= k < |ls| && ls[k] == x;
      GrowsOn(ls, 0, k);
      RecordTells(x, outcome);
    }
  }

  // ---- which follow-ups are in the stored record -----------------------------------------------------------

  /** The record of the follow-ups alone, were there nothing else to carry. */
  function OnlyLate(l: Ledger, outcome: string): Record {
    Record(outcome, QuestionText(SnapshotOf(l).question), LateItems(l.followUps))
  }

  /** The follow-ups fit the record by themselves. */
  predicate FollowUpsFit(l: Ledger, outcome: string) {
    FitsAlone(OnlyLate(l, outcome))
  }

  predicate StoresAll(stored: Option<Record>, followUps: seq<Event>) {
    stored.Some? && forall e <- followUps :: LateItem(e) in stored.value.carry
  }

  /** The items of a record end with its follow-ups, all of them. */
  lemma {:induction false} RecordEndsWithLate(l: Ledger, outcome: string)
    requires |l.followUps| <= MAX_FOLLOW_UPS
    ensures EndsIn(BuildRecord(Outcomes(l), outcome, SnapshotOf(l).question).carry, LateItems(l.followUps))
  {
    CarryEndsWithLate(l);
  }

  lemma {:induction false} TrimmedEndsWithLate(l: Ledger, outcome: string)
    requires |l.followUps| <= MAX_FOLLOW_UPS
    ensures EndsOrIsCut(RecordFor(SnapshotOf(l), outcome).carry, LateItems(l.followUps), FollowUpsFit(l, outcome))
  {
    RecordEndsWithLate(l, outcome);
    TrimmedTail(BuildRecord(Outcomes(l), outcome, SnapshotOf(l).question), LateItems(l.followUps));
  }

  /** No two follow-ups are carried alike. */
  predicate Apart(followUps: seq<Event>) {
    forall i, j | 0 <= i < j < |followUps| :: LateItem(followUps[i]) != LateItem(followUps[j])
  }

  lemma {:induction false} SuffixMisses(followUps: seq<Event>, d: nat)
    requires Apart(followUps) && 0 < d <= |followUps|
    ensures LateItem(followUps[0]) !in LateItems(followUps)[d..]
  {
  }

  lemma {:induction false} EndHasAll(carry: seq<Item>, followUps: seq<Event>)
    requires EndsIn(carry, LateItems(followUps))
    ensures forall e <- followUps :: LateItem(e) in carry
  {
    forall e | e in followUps ensures LateItem(e) in carry {
      var i :| 0 <= i < |followUps| && followUps[i] == e;
      assert carry[|carry| - |followUps|..][i] == LateItem(e);
    }
  }

  /** Of the ledger it was made from, a record stores every follow-up exactly when they fit it by themselves. */
  lemma {:induction false} StoresAllIff(l: Ledger, outcome: string)
    requires |l.followUps| <= MAX_FOLLOW_UPS
    ensures FollowUpsFit(l, outcome) ==> StoresAll(Some(RecordFor(SnapshotOf(l), outcome)), l.followUps)
    ensures Apart(l.followUps) && StoresAll(Some(RecordFor(SnapshotOf(l), outcome)), l.followUps) ==> FollowUpsFit(l, outcome)
  {
    var carry := RecordFor(SnapshotOf(l), outcome).carry;
    TrimmedEndsWithLate(l, outcome);
    if FollowUpsFit(l, outcome) {
      EndHasAll(carry, l.followUps);
    } else if Apart(l.followUps) {
      SuffixMisses(l.followUps, |l.followUps| - |carry|);
      assert l.followUps[0] in l.followUps;
    }
  }

  lemma {:induction false} NotLate(e: Event, x: Event)
    ensures ItemOf(RowOf(e)) != LateItem(x)
  {
  }

  /** A record stores nothing like a message that no follow-up of its ledger is like. */
  lemma {:induction false} NotStored(l: Ledger, x: Event, outcome: string)
    requires forall e <- l.followUps :: LateItem(e) != LateItem(x)
    ensures LateItem(x) !in RecordFor(SnapshotOf(l), outcome).carry
  {
    if LateItem(x) in RecordFor(SnapshotOf(l), outcome).carry {
      StoredMembers(SnapshotOf(l), outcome, LateItem(x));
      var r :| r in Outcomes(l) && ItemOf(r) == LateItem(x);
      RowsAre(l, r);
      if e :| e in l.events && r == RowOf(e) {
        NotLate(e, x);
      }
    }
  }

  /** The newest follow-up is not in the record of a ledger without it. */
  lemma {:induction false} LaterIsNotStored(a: Ledger, b: Ledger, outcome: string)
    requires a.followUps <= b.followUps && a.followUps != b.followUps && Apart(b.followUps)
    ensures !StoresAll(Some(RecordFor(SnapshotOf(a), outcome)), b.followUps)
  {
    var n := |b.followUps| - 1;
    forall e | e in a.followUps ensures LateItem(e) != LateItem(b.followUps[n]) {
      var i :| 0 <= i < |a.followUps| && a.followUps[i] == e;
      assert b.followUps[i] == e;
    }
    NotStored(a, b.followUps[n], outcome);
    assert b.followUps[n] in b.followUps;
  }

  /**
   Which promises are kept: with follow-ups that are not carried alike, every one the run has taken by the release of
   its claim is in the stored record exactly when the saving settled and the follow-ups fit the record by themselves.
   */
  lemma {:induction false} EveryFollowUpStoredIff(l: Ledger, outcome: string, windows: seq<Window>)
    requires |windows| >= SAVE_ATTEMPTS && InFinish(l) && Apart(SaveAll(l, outcome, windows).ledger.followUps)
    ensures var r := SaveAll(l, outcome, windows);
            StoresAll(r.stored, r.ledger.followUps) <==> Settles(l, windows) && FollowUpsFit(r.ledger, outcome)
  {
    var r, ls := SaveAll(l, outcome, windows), Ledgers(l, windows);
    LedgersGrow(l, windows);
    LedgersStep(l, windows, 0);
    LastSaved(ls, windows);
    if Settles(l, windows) {
      StoresAllIff(r.ledger, outcome);
    } else if r.saved.Some? {
      var x :| x in ls && r.saved.value == SnapshotOf(x) && GrowsTo(x, r.ledger);
      LaterIsNotStored(x, r.ledger, outcome);
    }
  }

  /** Whether or not some are alike: if it settled and they fit, every message answered "finishing" is in the record. */
  lemma {:induction false} FinishingMessagesSaved(l: Ledger, outcome: string, windows: seq<Window>)
    requires |windows| >= SAVE_ATTEMPTS && InFinish(l) && Settles(l, windows)
    requires FollowUpsFit(SaveAll(l, outcome, windows).ledger, outcome)
    ensures var r := SaveAll(l, outcome, windows);
            l.followUps <= r.ledger.followUps && StoresAll(r.stored, r.ledger.followUps)
  {
    SavedIffSomeWindowQuiet(l, outcome, windows);
    StoresAllIff(SaveAll(l, outcome, windows).ledger, outcome);
  }

  /** So a message answered "finishing" before the saving began is in it, and so is one answered so meanwhile. */
  lemma {:induction false} AnsweredFinishingIsSaved(
      l: Ledger, ms: seq<Message>, i: nat, outcome: string, windows: seq<Window>)
    requires InFinish(l) && i < |ms| && Deliver(DeliverAll(l, ms[..i]), ms[i]).1.Finishing?
    requires |windows| >= SAVE_ATTEMPTS && Settles(DeliverAll(l, ms), windows)
    requires FollowUpsFit(SaveAll(DeliverAll(l, ms), outcome, windows).ledger, outcome)
    ensures var r := SaveAll(DeliverAll(l, ms), outcome, windows);
            r.stored.Some? && LateItem(NewEvent(l, ms[i])) in r.stored.value.carry
  {
    DeliverAllGrows(l, ms);
    FinishingIsKept(l, ms, i);
    FinishingMessagesSaved(DeliverAll(l, ms), outcome, windows);
    assert NewEvent(l, ms[i]) in SaveAll(DeliverAll(l, ms), outcome, windows).ledger.followUps;
  }

  /** A follow-up is carried word for word exactly when it is at most 500 characters; longer ones were accepted too. */
  lemma {:induction false} CarriedInFullIff(l: Ledger, m: Message)
    requires Deliver(l, m).1.Finishing?
    ensures var e := Deliver(l, m).0.followUps[|l.followUps|];
            LateItem(e).text == Strip(m.text) <==> |Strip(m.text)| <= MAX_ITEM_CHARS
  {
  }

  // ---- a follow-up that is lost, and one that is cut -----------------------------------------------------

  /** A message that a finishing run with room accepts; without a real id it is never taken for a duplicate. */
  predicate Fresh(m: Message) { m.id == 0 && 0 < |Strip(m.text)| <= MAX_MESSAGE_CHARS }

  function Filed(l: Ledger, ms: seq<Message>): (r: seq<Event>)
    ensures |r| == |ms|
    ensures forall i | 0 <= i < |r| :: r[i] == NewEvent(l, ms[i])
  {
    seq(|ms|, i requires 0 <= i < |ms| => NewEvent(l, ms[i]))
  }

  function OneEach(ms: seq<Message>): (r: seq<Window>)
    ensures |r| == |ms|
    ensures forall i | 0 <= i < |r| :: r[i] == Window([ms[i]], true)
  {
    seq(|ms|, i requires 0 <= i < |ms| => Window([ms[i]], true))
  }

  lemma {:induction false} OneArrival(l: Ledger, m: Message)
    requires InFinish(l) && |l.followUps| < MAX_FOLLOW_UPS && Fresh(m)
    ensures DeliverAll(l, [m]) == l.(followUps := l.followUps + [NewEvent(l, m)])
  {
    assert [m][..0] == [];
  }

  lemma {:induction false} OneEachLedger(l: Ledger, ms: seq<Message>, k: nat)
    requires InFinish(l) && |l.followUps| + |ms| <= MAX_FOLLOW_UPS && (forall m <- ms :: Fresh(m)) && k <= |ms|
    ensures Ledgers(l, OneEach(ms))[k] == l.(followUps := l.followUps + Filed(l, ms[..k]))
  {
    if k > 0 {
      OneEachLedger(l, ms, k - 1);
      LedgersStep(l, OneEach(ms), k - 1);
      var before := l.(followUps := l.followUps + Filed(l, ms[..k-1]));
      OneArrival(before, ms[k-1]);
      assert Filed(l, ms[..k]) == Filed(l, ms[..k-1]) + [NewEvent(l, ms[k-1])];
    } else {
      if ms != [] {
        LedgersStep(l, OneEach(ms), 0);
      }
      assert l.followUps + Filed(l, ms[..0]) == l.followUps;
    }
  }

  lemma {:induction false} CarryMembers(rows: seq<Row>)
    ensures forall x <- CarryOf(rows) :: exists r <- rows :: ItemOf(r) == x
    decreases |rows|
  {
    if rows != [] {
      CarryMembers(rows[..|rows|-1]);
      assert rows[|rows|-1] in rows;
    }
  }

  lemma {:induction false} StoredMembers(s: Snapshot, outcome: string, x: Item)
    requires x in RecordFor(s, outcome).carry
    ensures exists r <- s.rows :: ItemOf(r) == x
  {
    var k := TrimmedIsSuffix(BuildRecord(s.rows, outcome, s.question));
    CarryMembers(s.rows);
    assert x in CarryOf(s.rows);
  }

  lemma {:induction false} RowsAre(l: Ledger, r: Row)
    requires r in Outcomes(l)
    ensures (exists e <- l.events :: r == RowOf(e)) || (exists e <- l.followUps :: r == LateRow(e))
  {
    var i :| 0 <= i < |Outcomes(l)| && Outcomes(l)[i] == r;
    if i < |l.events| {
      assert l.events[i] in l.events;
    } else {
      assert l.followUps[i - |l.events|] in l.followUps;
    }
  }

  /** What the save loop stores when each of its five saves is followed by one more follow-up. */
  lemma {:induction false} FifthIsNotSaved(l: Ledger, ms: seq<Message>, outcome: string)
    requires InFinish(l) && |ms| == SAVE_ATTEMPTS && |l.followUps| + |ms| <= MAX_FOLLOW_UPS && (forall m <- ms :: Fresh(m))
    ensures SaveAll(l, outcome, OneEach(ms)) ==
            Saving(l.(followUps := l.followUps + Filed(l, ms)), Some(SnapshotOf(l.(followUps := l.followUps + Filed(l, ms[..4])))),
                   Some(RecordFor(SnapshotOf(l.(followUps := l.followUps + Filed(l, ms[..4]))), outcome)))
  {
    var windows := OneEach(ms);
    var ls := Ledgers(l, windows);
    LedgersGrow(l, windows);
    forall k: nat | k < SAVE_ATTEMPTS ensures !QuietAt(ls, k) {
      OneEachLedger(l, ms, k);
      OneEachLedger(l, ms, k + 1);
    }
    var j := StopsAt(ls, windows, 1);
    assert SaveFrom(ls, windows, None, 0) == Rest(ls, windows, 1);
    OneEachLedger(l, ms, 4);
    OneEachLedger(l, ms, 5);
    assert ms[..5] == ms;
  }

  /** Five saves each followed by one more message: the last was answered "finishing" and is not in the stored record. */
  lemma {:induction false} LastFollowUpLost(l: Ledger, ms: seq<Message>, outcome: string)
    requires InFinish(l) && |ms| == SAVE_ATTEMPTS && |l.followUps| + |ms| <= MAX_FOLLOW_UPS && (forall m <- ms :: Fresh(m))
    requires forall e <- l.followUps + Filed(l, ms[..4]) :: LateItem(e) != LateItem(NewEvent(l, ms[4]))
    ensures var r := SaveAll(l, outcome, OneEach(ms));
            && NewEvent(l, ms[4]) in r.ledger.followUps
            && r.stored.Some? && LateItem(NewEvent(l, ms[4])) !in r.stored.value.carry
  {
    FifthIsNotSaved(l, ms, outcome);
    assert (l.followUps + Filed(l, ms))[|l.followUps| + 4] == NewEvent(l, ms[4]);
    NotStored(l.(followUps := l.followUps + Filed(l, ms[..4])), NewEvent(l, ms[4]), outcome);
  }

  function Said(text: string): Message { Message(0, None, "ana", text, 0, false) }

  function Finishing(): Ledger { NewLedger(None).(phase := Finalizing) }

  /** And it does come about. */
  lemma {:induction false} FollowUpsCanBeLost(outcome: string)
    ensures var ms := [Said("a"), Said("b"), Said("c"), Said("d"), Said("e")];
            var r := SaveAll(Finishing(), outcome, OneEach(ms));
            && NewEvent(Finishing(), Said("e")) in r.ledger.followUps
            && r.stored.Some? && LateItem(NewEvent(Finishing(), Said("e"))) !in r.stored.value.carry
  {
    var ms := [Said("a"), Said("b"), Said("c"), Said("d"), Said("e")];
    assert Strip("a") == "a" && Strip("b") == "b" && Strip("c") == "c" && Strip("d") == "d" && Strip("e") == "e";
    LastFollowUpLost(Finishing(), ms, outcome);
  }

  function Letters(n: nat): (s: string)
    ensures |s| == n
    ensures forall i | 0 <= i < n :: s[i] == 'a'
  {
    seq(n, i => 'a')
  }

  /** A message of 501 characters is answered "finishing", and its follow-up is cut. */
  lemma {:induction false} LongFollowUpsAreCut()
    ensures var m := Said(Letters(501));
            && Deliver(Finishing(), m).1.Finishing?
            && LateItem(Deliver(Finishing(), m).0.followUps[0]).text != Strip(m.text)
  {
    var m := Said(Letters(501));
    assert Strip(m.text) == m.text;
    CarriedInFullIff(Finishing(), m);
  }

  // ---- follow-ups that do not fit ------------------------------------------------------------------------

  /** Five hundred characters of four bytes each. */
  function Wide(): (s: string)
    ensures |s| == 500
    ensures forall i | 0 <= i < 500 :: s[i] == '\U{1F600}'
  {
    seq(500, i => '\U{1F600}')
  }

  /** Ten people each say so much. */
  function TenWide(): (ms: seq<Message>)
    ensures |ms| == 10
    ensures forall i | 0 <= i < 10 :: ms[i] == Message(0, None, ["0123456789"[i]], Wide(), 0, false)
  {
    seq(10, i requires 0 <= i < 10 => Message(0, None, ["0123456789"[i]], Wide(), 0, false))
  }

  function NothingComes(): (windows: seq<Window>)
    ensures |windows| == SAVE_ATTEMPTS && forall w <- windows :: w == Window([], true)
  {
    seq(SAVE_ATTEMPTS, i => Window([], true))
  }

  lemma {:induction false} AllFiled(l: Ledger, ms: seq<Message>)
    requires InFinish(l) && |l.followUps| + |ms| <= MAX_FOLLOW_UPS && (forall m <- ms :: Fresh(m))
    ensures DeliverAll(l, ms) == l.(followUps := l.followUps + Filed(l, ms))
    decreases |ms|
  {
    if ms != [] {
      var front, m := ms[..|ms|-1], ms[|ms|-1];
      assert m in ms;
      AllFiled(l, front);
      assert Filed(l, ms) == Filed(l, front) + [NewEvent(l, m)];
      OneArrival(l.(followUps := l.followUps + Filed(l, front)), m);
      assert [m][..0] == [];
    } else {
      assert l.followUps + Filed(l, ms) == l.followUps;
    }
  }

  lemma {:induction false} SettlesAtOnce(ls: seq<Ledger>, windows: seq<Window>)
    requires |windows| >= SAVE_ATTEMPTS && |ls| == |windows| + 1 && windows[0].ok && ls[1] == ls[0]
    ensures SettledFrom(ls, windows, 0) && SaveFrom(ls, windows, None, 0) == (ls[1], Some(SnapshotOf(ls[0])))
  {
    assert QuietAt(ls, 0) && SavesTo(windows, 0);
  }

  lemma {:induction false} QuietSaving(l: Ledger, outcome: string)
    ensures Settles(l, NothingComes()) && SaveAll(l, outcome, NothingComes()).ledger == l
  {
    var windows := NothingComes();
    assert windows[0] in windows;
    LedgersStep(l, windows, 0);
    SettlesAtOnce(Ledgers(l, windows), windows);
  }

  lemma {:induction false} SumAtLeast<T>(f: T -> nat, s: seq<T>, least: nat)
    requires forall x <- s :: f(x) >= least
    ensures Sum(f, s) >= least * |s|
    decreases |s|
  {
    if s != [] {
      assert s == s[..|s|-1] + [s[|s|-1]];
      SumAtLeast(f, s[..|s|-1], least);
    }
  }

  lemma {:induction false} WideItem(i: Item)
    requires i.text == Wide()
    ensures ItemBytes(i) >= 2000
  {
    SumAtLeast(CharBytes, Wide(), 4);
  }

  lemma {:induction false} WideFollowUps(l: Ledger)
    requires l == Finishing().(followUps := Filed(Finishing(), TenWide()))
    ensures Apart(l.followUps) && forall x <- LateItems(l.followUps) :: x.text == Wide()
  {
    assert Strip(Wide()) == Wide();
    forall i, j | 0 <= i < j < 10 ensures LateItem(l.followUps[i]) != LateItem(l.followUps[j]) {
      assert LateItem(l.followUps[i]).author == ["0123456789"[i]] && LateItem(l.followUps[j]).author == ["0123456789"[j]];
      DigitsDiffer(i, j);
    }
  }

  lemma {:induction false} DigitsDiffer(i: nat, j: nat)
    requires i < j < 10
    ensures "0123456789"[i] != "0123456789"[j]
  {
  }

  lemma {:induction false} TooWide(l: Ledger, outcome: string)
    requires l == Finishing().(followUps := Filed(Finishing(), TenWide()))
    ensures Apart(l.followUps) && !FollowUpsFit(l, outcome)
  {
    WideFollowUps(l);
    var late := LateItems(l.followUps);
    forall x <- late ensures ItemBytes(x) >= 2000 { WideItem(x); }
    SumAtLeast(ItemBytes, late, 2000);
  }

  lemma {:induction false} TenFiled()
    ensures DeliverAll(Finishing(), TenWide()) == Finishing().(followUps := Filed(Finishing(), TenWide()))
  {
    assert Strip(Wide()) == Wide();
    AllFiled(Finishing(), TenWide());
    assert [] + Filed(Finishing(), TenWide()) == Filed(Finishing(), TenWide());
  }

  /** Every save succeeds and nothing comes meanwhile; ten such messages, all answered "finishing", are not all stored. */
  lemma {:induction false} WideFollowUpsAreCut(outcome: string)
    ensures var l := DeliverAll(Finishing(), TenWide());
            var r := SaveAll(l, outcome, NothingComes());
            && |r.ledger.followUps| == 10 && Settles(l, NothingComes()) && !StoresAll(r.stored, r.ledger.followUps)
  {
    var l := DeliverAll(Finishing(), TenWide());
    TenFiled();
    QuietSaving(l, outcome);
    TooWide(l, outcome);
    EveryFollowUpStoredIff(l, outcome, NothingComes());
  }
}
