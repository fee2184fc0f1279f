/** The record of loose ends a finished run leaves for the next run in its thread. */
module ConversationRecord {
  import opened Sequences
  import opened ThreadInbox

  const MAX_RECORD_BYTES := 16000
  const MAX_RECORD_ITEMS := 10
  const MAX_ITEM_CHARS := 500
  const MAX_AUTHOR_CHARS := 40

  datatype Item = Item(author: string, text: string, status: Status)

  datatype Record = Record(outcome: string, question: Option<string>, carry: seq<Item>)

  /** Said, but not confirmed applied. */
  predicate Carries(s: Status) {
    s.Late? || s.Unseen? || s.NotAcknowledged? || s == Told(WillApply) || s == Told(Deferred)
  }

  function Clip(s: string, n: nat): string { if |s| <= n then s else s[..n] }

  function ItemOf(r: Row): Item { Item(Clip(r.author, MAX_AUTHOR_CHARS), Clip(r.text, MAX_ITEM_CHARS), r.status) }

  function CarryOf(rows: seq<Row>): seq<Item> {
    if rows == [] then []
    else
      var rest, r := CarryOf(rows[..|rows|-1]), rows[|rows|-1];
      if Carries(r.status) then rest + [ItemOf(r)] else rest
  }

  function LastItems(items: seq<Item>): seq<Item> {
    if |items| <= MAX_RECORD_ITEMS then items else items[|items| - MAX_RECORD_ITEMS..]
  }

  function QuestionText(question: Option<string>): Option<string> {
    if question.None? || question.value == "" then None else Some(Clip(question.value, MAX_ITEM_CHARS))
  }

  function BuildRecord(rows: seq<Row>, outcome: string, question: Option<string>): Record {
    Record(outcome, QuestionText(question), LastItems(CarryOf(rows)))
  }

  method BuildRecordLoop(rows: seq<Row>, outcome: string, question: Option<string>) returns (record: Record)
    ensures record == BuildRecord(rows, outcome, question)
  {
    var carry := [];
    for i := 0 to |rows|
      invariant carry == CarryOf(rows[..i])
    {
      assert rows[..i+1][..i] == rows[..i];
      if Carries(rows[i].status) {
        carry := carry + [ItemOf(rows[i])];
      }
    }
    assert rows[..|rows|] == rows;
    record := Record(outcome, QuestionText(question), LastItems(carry));
  }

  // ---- what is carried ------------------------------------------------------------------------------------

  /** The model said that this was seen to: done, answered, noted, declined or superseded. */
  predicate SeenTo(s: Status) {
    s.Told? && (s.decision.Done? || s.decision.Answered? || s.decision.Noted? || s.decision.Declined? || s.decision.Superseded?)
  }

  function Loose(): Row -> bool { (r: Row) => !SeenTo(r.status) }

  predicate Beginning(whole: string, part: string, n: nat) { part <= whole && |part| == (if |whole| < n then |whole| else n) }

  predicate Shortened(x: Item, r: Row) {
    x.status == r.status && Beginning(r.author, x.author, 40) && Beginning(r.text, x.text, 500)
  }

  predicate AllShortened(items: seq<Item>, rows: seq<Row>) {
    |items| == |rows| && forall i | 0 <= i < |rows| :: Shortened(items[i], rows[i])
  }

  lemma {:induction false} ShortenedSnoc(items: seq<Item>, rows: seq<Row>, r: Row)
    requires AllShortened(items, rows)
    ensures AllShortened(items + [ItemOf(r)], rows + [r])
  {
    assert Shortened(ItemOf(r), r);
  }

  lemma {:induction false} CarriesIff(s: Status)
    ensures Carries(s) <==> !SeenTo(s)
  {
  }

  /** What is carried is, in order, every row that was not seen to, with 40 characters of its author and 500 of its text. */
  lemma {:induction false} CarriedAreLoose(rows: seq<Row>)
    ensures AllShortened(CarryOf(rows), Filter(Loose(), rows))
    decreases |rows|
  {
    if rows != [] {
      var front, r := rows[..|rows|-1], rows[|rows|-1];
      CarriedAreLoose(front);
      CarriesIff(r.status);
      FilterSnoc(Loose(), front, r);
      assert rows == front + [r];
      if !SeenTo(r.status) {
        ShortenedSnoc(CarryOf(front), Filter(Loose(), front), r);
      }
    }
  }

  /** A record has the outcome, up to 500 characters of an open question, and the last ten of those items. */
  lemma {:induction false} RecordSays(rows: seq<Row>, outcome: string, question: Option<string>)
    ensures var r, all := BuildRecord(rows, outcome, question), CarryOf(rows);
            && r.outcome == outcome
            && (r.question.Some? <==> question.Some? && question.value != "")
            && (r.question.Some? ==> Beginning(question.value, r.question.value, 500))
            && |r.carry| <= 10 && |r.carry| <= |all| && r.carry == all[|all| - |r.carry|..]
            && (|r.carry| < |all| ==> |r.carry| == 10)
  {
  }

  // ---- size on the wire -------------------------------------------------------------------

  /** UTF-8 bytes of one character inside a JSON string. */
  function CharBytes(c: char): nat {
    if c == '\"' || c == '\\' || c == '\n' || c == '\r' || c == '\t' || c == '\U{8}' || c == '\U{C}' then 2
    else if c < ' ' then 6
    else if c < '\U{80}' then 1
    else if c < '\U{800}' then 2
    else if c < '\U{10000}' then 3
    else 4
  }

  function StringBytes(s: string): nat { 2 + Sum(CharBytes, s) }

  function StatusName(s: Status): string {
    match s
    case NotAcknowledged => "unacknowledged"
    case Unseen => "unseen"
    case Late => "late"
    case Told(d) =>
      match d
      case WillApply => "accepted"
      case Done => "done"
      case Answered => "answered"
      case Noted => "noted"
      case Declined => "declined"
      case Superseded => "superseded"
      case Deferred => "deferred"
  }

  /** The characters of a record's JSON, and of an item's, around their values. */
  function RecordFrame(): nat { 59 }  // {"version": 1, "outcome": , "open_question": , "carry": []}

  function ItemFrame(): nat { 34 }  // {"author": , "text": , "status": }

  function ItemBytes(i: Item): nat {
    ItemFrame() + StringBytes(i.author) + StringBytes(i.text) + StringBytes(StatusName(i.status))
  }

  /** The items with the two-byte separators between them. */
  function CarryBytes(items: seq<Item>): nat {
    Sum(ItemBytes, items) + (if |items| > 1 then 2 * (|items| - 1) else 0)
  }

  function RecordBytes(r: Record): nat {
    RecordFrame() + StringBytes(r.outcome)
    + (if r.question.Some? then StringBytes(r.question.value) else 4) + CarryBytes(r.carry)
  }

  /** The record with its oldest items dropped until it fits. */
  function Trimmed(r: Record): Record
    decreases |r.carry|
  {
    if RecordBytes(r) > MAX_RECORD_BYTES && r.carry != [] then Trimmed(r.(carry := r.carry[1..])) else r
  }

  method TrimLoop(record: Record) returns (r: Record)
    ensures r == Trimmed(record)
  {
    r := record;
    while RecordBytes(r) > MAX_RECORD_BYTES && r.carry != []
      invariant Trimmed(r) == Trimmed(record)
      decreases |r.carry|
    {
      r := r.(carry := r.carry[1..]);
    }
  }

  /** Trimming keeps the newest items, as many as fit, and stops only when the record fits or has none. */
  lemma {:induction false} TrimmedIsSuffix(r: Record) returns (k: nat)
    ensures k <= |r.carry| && Trimmed(r) == r.(carry := r.carry[k..])
    ensures RecordBytes(Trimmed(r)) <= MAX_RECORD_BYTES || Trimmed(r).carry == []
    ensures forall j | 0 <= j < k :: RecordBytes(r.(carry := r.carry[j..])) > MAX_RECORD_BYTES
    decreases |r.carry|
  {
    if RecordBytes(r) > MAX_RECORD_BYTES && r.carry != [] {
      var rest := r.(carry := r.carry[1..]);
      var m := TrimmedIsSuffix(rest);
      k := m + 1;
      assert r.carry[1..][m..] == r.carry[k..];
      forall j | 0 <= j < k ensures RecordBytes(r.(carry := r.carry[j..])) > MAX_RECORD_BYTES {
        if j == 0 {
          assert r.carry[0..] == r.carry;
        } else {
          assert r.carry[1..][j-1..] == r.carry[j..];
        }
      }
    } else {
      k := 0;
      assert r.carry[0..] == r.carry;
    }
  }

  // ---- which items the byte cap leaves ------------------------------------------------------------

  lemma {:induction false} SumFirst<T>(f: T -> nat, s: seq<T>)
    requires s != []
    ensures Sum(f, s) == f(s[0]) + Sum(f, s[1..])
    decreases |s|
  {
    if |s| > 1 {
      SumFirst(f, s[..|s|-1]);
      assert s[..|s|-1][1..] == s[1..][..|s|-2];
    } else {
      assert s[..0] == [] && s[1..] == [];
    }
  }

  /** What the record takes without its `d` oldest items. */
  function BytesFrom(r: Record, d: nat): nat
    requires d <= |r.carry|
  {
    RecordBytes(r.(carry := r.carry[d..]))
  }

  /** Fewer items take fewer bytes. */
  lemma {:induction false} FewerBytes(r: Record, d: nat)
    requires d < |r.carry|
    ensures BytesFrom(r, d + 1) <= BytesFrom(r, d)
  {
    SumFirst(ItemBytes, r.carry[d..]);
    assert r.carry[d..][1..] == r.carry[d+1..];
  }

  /** `size` never grows on its first `n` steps. */
  ghost predicate Falls(size: nat -> nat, n: nat) { forall d: nat | d < n :: size(d + 1) <= size(d) }

  lemma {:induction false} FallsFar(size: nat -> nat, n: nat, i: nat, j: nat)
    requires Falls(size, n) && i <= j <= n
    ensures size(j) <= size(i)
    decreases j
  {
    if i < j {
      FallsFar(size, n, i, j - 1);
      assert size(j - 1 + 1) <= size(j - 1);
    }
  }

  /** The least to drop so that the rest is within the cap, or everything. */
  ghost predicate CutAt(size: nat -> nat, n: nat, k: nat) {
    k <= n && (k < n ==> size(k) <= MAX_RECORD_BYTES) && forall j: nat | j < k :: size(j) > MAX_RECORD_BYTES
  }

  lemma {:induction false} StaysIff(size: nat -> nat, n: nat, k: nat, m: nat)
    requires Falls(size, n) && CutAt(size, n, k) && m < n
    ensures k <= m <==> size(m) <= MAX_RECORD_BYTES
  {
    if k <= m {
      FallsFar(size, n, k, m);
    }
  }

  function Sizes(r: Record): nat -> nat { (d: nat) => if d <= |r.carry| then BytesFrom(r, d) else 0 }

  lemma {:induction false} SizesFall(r: Record)
    ensures Falls(Sizes(r), |r.carry|)
  {
    forall d: nat | d < |r.carry| ensures Sizes(r)(d + 1) <= Sizes(r)(d) {
      FewerBytes(r, d);
    }
  }

  /** How many of the oldest items a record loses to the byte cap. */
  lemma {:induction false} CutOf(r: Record) returns (k: nat)
    ensures CutAt(Sizes(r), |r.carry|, k) && Trimmed(r).carry == r.carry[k..]
  {
    k := TrimmedIsSuffix(r);
  }

  predicate EndsIn<T(==)>(s: seq<T>, end: seq<T>) { |end| <= |s| && s[|s| - |end|..] == end }

  /** All of `late` is at the end, or only that much of its own end is left. */
  predicate EndsOrIsCut<T(==)>(s: seq<T>, late: seq<T>, all: bool) {
    if all then EndsIn(s, late) else |s| < |late| && s == late[|late| - |s|..]
  }

  /** A record with nothing to carry, or within the cap. */
  predicate FitsAlone(r: Record) { r.carry == [] || RecordBytes(r) <= MAX_RECORD_BYTES }

  lemma {:induction false} SuffixOfEnd<T>(s: seq<T>, k: nat, late: seq<T>)
    requires k <= |s| && EndsIn(s, late)
    ensures EndsOrIsCut(s[k..], late, |s| - k >= |late|)
  {
  }

  lemma {:induction false} FitIff(r: Record, late: seq<Item>, k: nat)
    requires EndsIn(r.carry, late) && CutAt(Sizes(r), |r.carry|, k)
    ensures |r.carry| - k >= |late| <==> FitsAlone(r.(carry := late))
  {
    if late != [] {
      SizesFall(r);
      StaysIff(Sizes(r), |r.carry|, k, |r.carry| - |late|);
    }
  }

  /** Of the items it ends with a record keeps all exactly when they fit by themselves, and otherwise the newest that do. */
  lemma {:induction false} TrimmedTail(r: Record, late: seq<Item>)
    requires EndsIn(r.carry, late)
    ensures EndsOrIsCut(Trimmed(r).carry, late, FitsAlone(r.(carry := late)))
  {
    var k := CutOf(r);
    SuffixOfEnd(r.carry, k, late);
    FitIff(r, late, k);
  }

  // ---- when nothing is trimmed ----------------------------------------------------------------

  /** No character takes more than two bytes, as in Latin text. */
  predicate Narrow(s: string) { forall c <- s :: CharBytes(c) <= 2 }

  lemma {:induction false} SumAtMost<T>(f: T -> nat, s: seq<T>, most: nat)
    requires forall x <- s :: f(x) <= most
    ensures Sum(f, s) <= most * |s|
    decreases |s|
  {
    if s != [] {
      assert s == s[..|s|-1] + [s[|s|-1]];
      SumAtMost(f, s[..|s|-1], most);
    }
  }

  lemma {:induction false} CarryLength(rows: seq<Row>)
    ensures forall i <- CarryOf(rows) :: |i.author| <= MAX_AUTHOR_CHARS && |i.text| <= MAX_ITEM_CHARS
    decreases |rows|
  {
    if rows != [] {
      CarryLength(rows[..|rows|-1]);
    }
  }

  lemma {:induction false} NarrowName(s: Status)
    ensures |StatusName(s)| <= 14 && Narrow(StatusName(s))
  {
  }

  lemma {:induction false} NarrowItem(i: Item)
    requires |i.author| <= MAX_AUTHOR_CHARS && |i.text| <= MAX_ITEM_CHARS && Narrow(i.author) && Narrow(i.text)
    ensures ItemBytes(i) <= 1150
  {
    SumAtMost(CharBytes, i.author, 2);
    SumAtMost(CharBytes, i.text, 2);
    var name := StatusName(i.status);
    NarrowName(i.status);
    SumAtMost(CharBytes, name, 2);
  }

  /** A record of two-byte text always fits: nothing is dropped from it. */
  lemma {:induction false} NarrowFits(rows: seq<Row>, outcome: string, question: Option<string>)
    requires |outcome| <= 100 && Narrow(outcome)
    requires question.Some? ==> Narrow(Clip(question.value, MAX_ITEM_CHARS))
    requires forall i <- CarryOf(rows) :: Narrow(i.author) && Narrow(i.text)
    ensures Trimmed(BuildRecord(rows, outcome, question)) == BuildRecord(rows, outcome, question)
  {
    var r := BuildRecord(rows, outcome, question);
    CarryLength(rows);
    forall i | i in r.carry ensures ItemBytes(i) <= 1150 {
      assert i in CarryOf(rows);
      NarrowItem(i);
    }
    SumAtMost(ItemBytes, r.carry, 1150);
    SumAtMost(CharBytes, outcome, 2);
    if r.question.Some? {
      SumAtMost(CharBytes, r.question.value, 2);
    }
  }
}
