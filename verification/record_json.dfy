/** The text a record is stored as, and its bytes: what the byte cap is measured on. */
module RecordJson {
  import opened Sequences
  import opened ConversationRecord

  type Byte = n: int | 0 <= n < 0x100

  // ---- UTF-8 ---------------------------------------------------------------------------------------------

  function Utf8Char(c: char): seq<Byte> {
    var n := c as int;
    if n < 0x80 then [n]
    else if n < 0x800 then [0xC0 + n / 0x40, 0x80 + n % 0x40]
    else if n < 0x1_0000 then [0xE0 + n / 0x1000, 0x80 + n / 0x40 % 0x40, 0x80 + n % 0x40]
    else [0xF0 + n / 0x4_0000, 0x80 + n / 0x1000 % 0x40, 0x80 + n / 0x40 % 0x40, 0x80 + n % 0x40]
  }

  function Utf8(s: string): seq<Byte> {
    if s == "" then [] else Utf8(s[..|s|-1]) + Utf8Char(s[|s|-1])
  }

  lemma {:induction false} Utf8Snoc(s: string, c: char)
    ensures Utf8(s + [c]) == Utf8(s) + Utf8Char(c)
  {
    assert (s + [c])[..|s|] == s;
  }

  lemma {:induction false} LastApart(a: string, b: string)
    requires b != ""
    ensures a + b == a + b[..|b|-1] + [b[|b|-1]]
  {
  }

  predicate Ascii(s: string) { forall i | 0 <= i < |s| :: s[i] < '\U{80}' }

  lemma {:induction false} AsciiBytes(s: string)
    requires Ascii(s)
    ensures |Utf8(s)| == |s|
    decreases |s|
  {
    if s != "" {
      AsciiBytes(s[..|s|-1]);
    }
  }

  // ---- JSON, with characters beyond ASCII left as they are --------------------------------------------------

  function Hex(d: nat): char
    requires d < 16
  {
    if d < 10 then '0' + d as char else 'a' + (d - 10) as char
  }

  function Escaped(c: char): string {
    if c == '\"' then "\\\""
    else if c == '\\' then "\\\\"
    else if c == '\n' then "\\n"
    else if c == '\r' then "\\r"
    else if c == '\t' then "\\t"
    else if c == '\U{8}' then "\\b"
    else if c == '\U{C}' then "\\f"
    else if c < ' ' then "\\u00" + [Hex(c as int / 16), Hex(c as int % 16)]
    else [c]
  }

  function EscapedAll(s: string): string {
    if s == "" then "" else EscapedAll(s[..|s|-1]) + Escaped(s[|s|-1])
  }

  function Quoted(s: string): string { "\"" + EscapedAll(s) + "\"" }

  function ItemText(i: Item): string {
    "{\"author\": " + Quoted(i.author) + ", \"text\": " + Quoted(i.text) + ", \"status\": " + Quoted(StatusName(i.status)) + "}"
  }

  function ItemTexts(items: seq<Item>): string {
    if items == [] then ""
    else if |items| == 1 then ItemText(items[0])
    else ItemTexts(items[..|items|-1]) + ", " + ItemText(items[|items|-1])
  }

  function QuestionJson(r: Record): string { if r.question.Some? then Quoted(r.question.value) else "null" }

  function RecordText(r: Record): string {
    "{\"version\": 1, \"outcome\": " + Quoted(r.outcome)
    + ", \"open_question\": " + QuestionJson(r)
    + ", \"carry\": [" + ItemTexts(r.carry) + "]}"
  }

  // ---- its size ------------------------------------------------------------------------------------------

  function Size(s: string): nat { |Utf8(s)| }

  lemma {:induction false} SizeConcat(a: string, b: string)
    ensures Size(a + b) == Size(a) + Size(b)
    decreases |b|
  {
    if b == "" {
      assert a + b == a;
    } else {
      LastApart(a, b);
      SizeConcat(a, b[..|b|-1]);
      Utf8Snoc(a + b[..|b|-1], b[|b|-1]);
    }
  }

  lemma {:induction false} OneChar(c: char)
    ensures Size([c]) == |Utf8Char(c)|
  {
    Utf8Snoc("", c);
    assert "" + [c] == [c];
  }

  lemma {:induction false} PlainSize(c: char)
    requires Escaped(c) == [c]
    ensures |Utf8Char(c)| == CharBytes(c)
  {
  }

  lemma {:induction false} EscapedSize(c: char)
    ensures Size(Escaped(c)) == CharBytes(c)
  {
    if |Escaped(c)| > 1 {
      AsciiBytes(Escaped(c));
    } else {
      OneChar(c);
      PlainSize(c);
    }
  }

  lemma {:induction false} EscapedAllSize(s: string)
    ensures Size(EscapedAll(s)) == Sum(CharBytes, s)
    decreases |s|
  {
    if s != "" {
      EscapedAllSize(s[..|s|-1]);
      EscapedSize(s[|s|-1]);
      SizeConcat(EscapedAll(s[..|s|-1]), Escaped(s[|s|-1]));
    }
  }

  lemma {:induction false} QuotedSize(s: string)
    ensures Size(Quoted(s)) == StringBytes(s)
  {
    EscapedAllSize(s);
    AsciiBytes("\"");
    SizeConcat("\"", EscapedAll(s));
    SizeConcat("\"" + EscapedAll(s), "\"");
  }

  lemma {:induction false} Between(a: string, x: string, b: string, y: string, c: string, z: string, d: string)
    ensures Size(a + x + b + y + c + z + d) == Size(a) + Size(x) + Size(b) + Size(y) + Size(c) + Size(z) + Size(d)
  {
    SizeConcat(a, x);
    SizeConcat(a + x, b);
    SizeConcat(a + x + b, y);
    SizeConcat(a + x + b + y, c);
    SizeConcat(a + x + b + y + c, z);
    SizeConcat(a + x + b + y + c + z, d);
  }

  lemma {:induction false} ItemFrameSize()
    ensures Size("{\"author\": ") + Size(", \"text\": ") + Size(", \"status\": ") + Size("}") == ItemFrame()
  {
    AsciiBytes("{\"author\": ");
    AsciiBytes(", \"text\": ");
    AsciiBytes(", \"status\": ");
    AsciiBytes("}");
  }

  lemma {:induction false} RecordFrameSize()
    ensures Size("{\"version\": 1, \"outcome\": ") + Size(", \"open_question\": ") + Size(", \"carry\": [") + Size("]}") == RecordFrame()
  {
    AsciiBytes("{\"version\": 1, \"outcome\": ");
    AsciiBytes(", \"open_question\": ");
    AsciiBytes(", \"carry\": [");
    AsciiBytes("]}");
  }

  lemma {:induction false} ItemSize(i: Item)
    ensures Size(ItemText(i)) == ItemBytes(i)
  {
    QuotedSize(i.author);
    QuotedSize(i.text);
    QuotedSize(StatusName(i.status));
    ItemFrameSize();
    Between("{\"author\": ", Quoted(i.author), ", \"text\": ", Quoted(i.text), ", \"status\": ", Quoted(StatusName(i.status)), "}");
  }

  lemma {:induction false} ItemsSize(items: seq<Item>)
    ensures Size(ItemTexts(items)) == CarryBytes(items)
    decreases |items|
  {
    if items != [] {
      var front, last := items[..|items|-1], items[|items|-1];
      ItemSize(last);
      ItemsSize(front);
      if front != [] {
        AsciiBytes(", ");
        SizeConcat(ItemTexts(front), ", ");
        SizeConcat(ItemTexts(front) + ", ", ItemText(last));
      }
    }
  }

  lemma {:induction false} QuestionSize(r: Record)
    ensures Size(QuestionJson(r)) == if r.question.Some? then StringBytes(r.question.value) else 4
  {
    if r.question.Some? {
      QuotedSize(r.question.value);
    } else {
      AsciiBytes("null");
    }
  }

  /** What the cap is compared with is the length of the stored text in bytes. */
  lemma {:induction false} RecordSize(r: Record)
    ensures Size(RecordText(r)) == RecordBytes(r)
  {
    QuotedSize(r.outcome);
    QuestionSize(r);
    ItemsSize(r.carry);
    RecordFrameSize();
    Between("{\"version\": 1, \"outcome\": ", Quoted(r.outcome), ", \"open_question\": ", QuestionJson(r),
            ", \"carry\": [", ItemTexts(r.carry), "]}");
  }

  /** What is stored takes at most 16000 bytes or carries nothing, and any item more would have taken more. */
  lemma {:induction false} StoredFits(r: Record) returns (k: nat)
    ensures k <= |r.carry| && Trimmed(r) == r.(carry := r.carry[k..])
    ensures Size(RecordText(Trimmed(r))) <= 16000 || Trimmed(r).carry == []
    ensures k > 0 ==> Size(RecordText(r.(carry := r.carry[k-1..]))) > 16000
  {
    k := TrimmedIsSuffix(r);
    RecordSize(Trimmed(r));
    if k > 0 {
      RecordSize(r.(carry := r.carry[k-1..]));
    }
  }
}
