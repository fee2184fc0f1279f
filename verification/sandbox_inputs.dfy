/** Names for the files a sandbox is given: safe for a shell, and no two alike even where case does not count. */
module SandboxInputs {
  // ---- one safe path segment ---------------------------------------------------------------------------

  predicate IsSafe(c: char) {
    'a' <= c <= 'z' || 'A' <= c <= 'Z' || '0' <= c <= '9' || c == '.' || c == '_' || c == '-'
  }

  /** What follows the last slash of either kind. */
  function Base(s: string): string {
    if s == "" then ""
    else if s[|s|-1] == '/' || s[|s|-1] == '\\' then ""
    else Base(s[..|s|-1]) + [s[|s|-1]]
  }

  /** Each run of other characters becomes one underscore. */
  function Clean(s: string): (r: string)
    ensures forall c <- r :: IsSafe(c)
  {
    if s == "" then ""
    else
      var front, last := s[..|s|-1], s[|s|-1];
      if IsSafe(last) then Clean(front) + [last]
      else if front != "" && !IsSafe(front[|front|-1]) then Clean(front)
      else Clean(front) + "_"
  }

  predicate IsEdge(c: char) { c == '.' || c == '_' }

  function StripEdges(s: string): (r: string)
    ensures forall c <- r :: c in s
    ensures r != "" ==> !IsEdge(r[0]) && !IsEdge(r[|r|-1])
  {
    if s == "" then ""
    else if IsEdge(s[0]) then StripEdges(s[1..])
    else if IsEdge(s[|s|-1]) then StripEdges(s[..|s|-1])
    else s
  }

  function SafeName(name: string): (r: string)
    ensures r != "" && (forall c <- r :: IsSafe(c)) && !IsEdge(r[0]) && !IsEdge(r[|r|-1])
  {
    var cleaned := StripEdges(Clean(Base(name)));
    if cleaned == "" then "file" else cleaned
  }

  lemma {:induction false} BaseOfPath(dir: string, sep: char, segment: string)
    requires sep == '/' || sep == '\\'
    ensures Base(dir + [sep] + segment) == Base(segment)
    decreases |segment|
  {
    if segment == "" {
      assert dir + [sep] + "" == dir + [sep];
    } else {
      var n := |segment| - 1;
      assert (dir + [sep] + segment)[..|dir| + 1 + n] == dir + [sep] + segment[..n];
      BaseOfPath(dir, sep, segment[..n]);
    }
  }

  /** A name comes from the last segment of its path alone, whichever way the slashes lean. */
  lemma {:induction false} LastSegmentNames(dir: string, sep: char, segment: string)
    requires sep == '/' || sep == '\\'
    ensures SafeName(dir + [sep] + segment) == SafeName(segment)
  {
    BaseOfPath(dir, sep, segment);
  }

  lemma {:induction false} SafeStays(name: string)
    requires forall c <- name :: IsSafe(c)
    ensures Base(name) == name && Clean(name) == name
    decreases |name|
  {
    if name != "" {
      var front, last := name[..|name|-1], name[|name|-1];
      assert last in name && name == front + [last];
      SafeStays(front);
    }
  }

  /** A name that is already safe stays as it is, so making it safe twice changes nothing more. */
  lemma {:induction false} SafeNamesStay(name: string)
    requires name != "" && (forall c <- name :: IsSafe(c)) && !IsEdge(name[0]) && !IsEdge(name[|name|-1])
    ensures SafeName(name) == name
  {
    SafeStays(name);
  }

  // ---- what a safe name is ---------------------------------------------------------------------------------

  /** Letters, digits, dot, underscore and hyphen, by their codes. */
  lemma {:induction false} SafeCharacters(c: char)
    ensures IsSafe(c) <==>
            var n := c as int; 97 <= n <= 122 || 65 <= n <= 90 || 48 <= n <= 57 || n == 46 || n == 95 || n == 45
  {
    assert 'z' as int == 122 && 'Z' as int == 90 && '9' as int == 57;
  }

  predicate Word(s: string) { forall i | 0 <= i < |s| :: IsSafe(s[i]) }

  predicate Gap(s: string) { s != "" && forall i | 0 <= i < |s| :: !IsSafe(s[i]) && s[i] != '/' && s[i] != '\\' }

  /** A text cut into words of safe characters and the gaps between them, which hold no slash. */
  predicate WellCut(words: seq<string>, gaps: seq<string>) {
    && |words| == |gaps| + 1
    && (forall i | 0 <= i < |words| :: Word(words[i]))
    && (forall i | 0 < i < |gaps| :: words[i] != "")
    && (forall i | 0 <= i < |gaps| :: Gap(gaps[i]))
  }

  function Mixed(words: seq<string>, gaps: seq<string>): string
    requires |words| == |gaps| + 1
  {
    if gaps == [] then words[0]
    else Mixed(words[..|words|-1], gaps[..|gaps|-1]) + gaps[|gaps|-1] + words[|words|-1]
  }

  function Underscored(words: seq<string>): string {
    if words == [] then ""
    else if |words| == 1 then words[0]
    else Underscored(words[..|words|-1]) + "_" + words[|words|-1]
  }

  lemma {:induction false} AddSafe(s: string, c: char)
    requires IsSafe(c)
    ensures Clean(s + [c]) == Clean(s) + [c] && Base(s + [c]) == Base(s) + [c]
  {
    assert (s + [c])[..|s|] == s;
  }

  lemma {:induction false} AddUnsafe(s: string, c: char)
    requires !IsSafe(c) && c != '/' && c != '\\'
    ensures Clean(s + [c]) == Clean(s) + (if s != "" && !IsSafe(s[|s|-1]) then "" else "_") && Base(s + [c]) == Base(s) + [c]
  {
    assert (s + [c])[..|s|] == s;
  }

  lemma {:induction false} LastApart(x: string, w: string)
    requires w != ""
    ensures x + w == x + w[..|w|-1] + [w[|w|-1]]
  {
  }

  lemma {:induction false} AddWord(s: string, w: string)
    requires Word(w)
    ensures Clean(s + w) == Clean(s) + w && Base(s + w) == Base(s) + w
    decreases |w|
  {
    if w == "" {
      assert s + w == s && Clean(s) + w == Clean(s) && Base(s) + w == Base(s);
    } else {
      AddWord(s, w[..|w|-1]);
      AddSafe(s + w[..|w|-1], w[|w|-1]);
      LastApart(s, w);
      LastApart(Clean(s), w);
      LastApart(Base(s), w);
    }
  }

  lemma {:induction false} AddGap(s: string, g: string)
    requires Gap(g)
    requires s == "" || IsSafe(s[|s|-1])
    ensures Clean(s + g) == Clean(s) + "_" && Base(s + g) == Base(s) + g
    decreases |g|
  {
    AddUnsafe(s + g[..|g|-1], g[|g|-1]);
    LastApart(s, g);
    LastApart(Base(s), g);
    if |g| > 1 {
      AddGap(s, g[..|g|-1]);
      assert Clean(s) + "_" + "" == Clean(s) + "_";
    } else {
      assert s + g[..|g|-1] == s && Base(s) + g[..|g|-1] == Base(s);
    }
  }

  lemma {:induction false} EndsSafe(words: seq<string>, gaps: seq<string>)
    requires WellCut(words, gaps) && (gaps == [] || words[|gaps|] != "")
    ensures Mixed(words, gaps) == "" || IsSafe(Mixed(words, gaps)[|Mixed(words, gaps)| - 1])
  {
    assert Word(words[|gaps|]);
  }

  lemma {:induction false} CleanMixed(words: seq<string>, gaps: seq<string>)
    requires WellCut(words, gaps)
    ensures Clean(Mixed(words, gaps)) == Underscored(words) && Base(Mixed(words, gaps)) == Mixed(words, gaps)
    decreases |gaps|
  {
    var n := |gaps|;
    if n == 0 {
      assert forall c <- words[0] :: IsSafe(c);
      SafeStays(words[0]);
    } else {
      CleanMixed(words[..n], gaps[..n-1]);
      EndsSafe(words[..n], gaps[..n-1]);
      AddGapAndWord(Mixed(words[..n], gaps[..n-1]), gaps[n-1], words[n]);
    }
  }

  lemma {:induction false} AddGapAndWord(s: string, g: string, w: string)
    requires Gap(g) && Word(w) && (s == "" || IsSafe(s[|s|-1]))
    ensures Clean(s + g + w) == Clean(s) + "_" + w && Base(s + g + w) == Base(s) + g + w
  {
    AddGap(s, g);
    AddWord(s + g, w);
  }

  predicate Edges(s: string) { forall i | 0 <= i < |s| :: s[i] == '.' || s[i] == '_' }

  predicate EdgeAt(s: string, i: nat)
    requires i < |s|
  {
    s[i] == '.' || s[i] == '_'
  }

  lemma {:induction false} StripIs(left: string, core: string, right: string)
    requires Edges(left) && Edges(right)
    requires core == "" || (!EdgeAt(core, 0) && !EdgeAt(core, |core| - 1))
    ensures StripEdges(left + core + right) == core
    decreases |left| + |right|
  {
    var s := left + core + right;
    if left != "" {
      assert s[1..] == left[1..] + core + right;
      StripIs(left[1..], core, right);
    } else if core == "" {
      StripsAll(s);
    } else if right != "" {
      assert s[..|s|-1] == left + core + right[..|right|-1];
      StripIs(left, core, right[..|right|-1]);
    } else {
      assert s == core;
    }
  }

  lemma {:induction false} StripsAll(s: string)
    requires Edges(s)
    ensures StripEdges(s) == ""
  {
    if s != "" {
      StripsAll(s[1..]);
    }
  }

  /**
   The name of a text: its words joined by single underscores, without the dots and underscores at either end; a text
   with nothing else in it is called "file".
   */
  lemma {:induction false} SafeNameIs(words: seq<string>, gaps: seq<string>, left: string, core: string, right: string)
    requires WellCut(words, gaps) && Underscored(words) == left + core + right && Edges(left) && Edges(right)
    requires core == "" || (!EdgeAt(core, 0) && !EdgeAt(core, |core| - 1))
    ensures SafeName(Mixed(words, gaps)) == if core == "" then "file" else core
  {
    CleanMixed(words, gaps);
    StripIs(left, core, right);
  }

  /** Every text without slashes can be cut so. */
  lemma {:induction false} CutUp(s: string) returns (words: seq<string>, gaps: seq<string>)
    requires forall i | 0 <= i < |s| :: s[i] != '/' && s[i] != '\\'
    ensures WellCut(words, gaps) && Mixed(words, gaps) == s
    decreases |s|
  {
    if s == "" {
      words, gaps := [""], [];
    } else {
      var front, c := s[..|s|-1], s[|s|-1];
      var w, g := CutUp(front);
      var n := |g|;
      if IsSafe(c) {
        words, gaps := w[n := w[n] + [c]], g;
        LastWord(w, g, c);
      } else if n > 0 && w[n] == "" {
        words, gaps := w, g[n-1 := g[n-1] + [c]];
        LastGap(w, g, c);
      } else {
        words, gaps := w + [""], g + [[c]];
        NewGap(w, g, c);
      }
    }
  }

  lemma {:induction false} LastWord(w: seq<string>, g: seq<string>, c: char)
    requires WellCut(w, g) && IsSafe(c)
    ensures WellCut(w[|g| := w[|g|] + [c]], g) && Mixed(w[|g| := w[|g|] + [c]], g) == Mixed(w, g) + [c]
  {
    var n := |g|;
    var words := w[n := w[n] + [c]];
    assert words[..n] == w[..n];
  }

  lemma {:induction false} LastGap(w: seq<string>, g: seq<string>, c: char)
    requires WellCut(w, g) && g != [] && w[|g|] == "" && !IsSafe(c) && c != '/' && c != '\\'
    ensures WellCut(w, g[|g|-1 := g[|g|-1] + [c]]) && Mixed(w, g[|g|-1 := g[|g|-1] + [c]]) == Mixed(w, g) + [c]
  {
    var n := |g|;
    var gaps := g[n-1 := g[n-1] + [c]];
    assert gaps[..n-1] == g[..n-1];
  }

  lemma {:induction false} NewGap(w: seq<string>, g: seq<string>, c: char)
    requires WellCut(w, g) && (g == [] || w[|g|] != "") && !IsSafe(c) && c != '/' && c != '\\'
    ensures WellCut(w + [""], g + [[c]]) && Mixed(w + [""], g + [[c]]) == Mixed(w, g) + [c]
  {
    assert (w + [""])[..|w|] == w && (g + [[c]])[..|g|] == g;
  }

  // ---- numbering -----------------------------------------------------------------------------------------

  function Digit(d: nat): char
    requires d < 10
  {
    '0' + d as char
  }

  function Decimal(n: nat): (r: string)
    ensures |r| >= 1 && (|r| == 1 <==> n < 10) && forall c <- r :: '0' <= c <= '9'
  {
    if n < 10 then [Digit(n)] else Decimal(n / 10) + [Digit(n % 10)]
  }

  lemma {:induction false} DecimalIsInjective(a: nat, b: nat)
    requires Decimal(a) == Decimal(b)
    ensures a == b
    decreases a
  {
    var s := Decimal(a);
    if a >= 10 {
      assert Decimal(a / 10) == s[..|s|-1] == Decimal(b / 10);
      DecimalIsInjective(a / 10, b / 10);
      assert Digit(a % 10) == s[|s|-1] == Digit(b % 10);
    }
  }

  function LowerChar(c: char): char { if 'A' <= c <= 'Z' then 'a' + (c - 'A') else c }

  /** Lower case, of names that are ASCII already. */
  function Lower(s: string): (r: string)
    ensures |r| == |s| && forall i | 0 <= i < |s| :: r[i] == LowerChar(s[i])
  {
    if s == "" then "" else Lower(s[..|s|-1]) + [LowerChar(s[|s|-1])]
  }

  /** The last dot of a name, unless it begins the name; then, as without one, the length. */
  function Dot(s: string): (i: nat)
    ensures i <= |s| && (i < |s| ==> i > 0 && s[i] == '.')
  {
    if s == "" then 0
    else if s[|s|-1] == '.' then (if |s| == 1 then 1 else |s| - 1)
    else if Dot(s[..|s|-1]) < |s| - 1 then Dot(s[..|s|-1])
    else |s|
  }

  function Stem(name: string): string { name[..Dot(name)] }

  /** The extension with its dot, if there is one. */
  function Extension(name: string): string { if Dot(name) + 1 < |name| then "." + name[Dot(name) + 1..] else "" }

  /** The name with a number before its extension. */
  function Numbered(name: string, n: nat): string { Stem(name) + "-" + Decimal(n) + Extension(name) }

  function Candidate(name: string, n: nat): string { if n <= 1 then SafeName(name) else Numbered(SafeName(name), n) }

  // ---- what the candidates are -----------------------------------------------------------------------------

  function Digits(s: string): nat
    requires forall i | 0 <= i < |s| :: '0' <= s[i] <= '9'
  {
    if s == "" then 0 else 10 * Digits(s[..|s|-1]) + (s[|s|-1] - '0') as int
  }

  lemma {:induction false} DecimalReads(n: nat)
    ensures forall i | 0 <= i < |Decimal(n)| :: '0' <= Decimal(n)[i] <= '9'
    ensures Digits(Decimal(n)) == n && (n > 0 ==> Decimal(n)[0] != '0')
  {
    var s := Decimal(n);
    if n >= 10 {
      DecimalReads(n / 10);
      assert s[..|s|-1] == Decimal(n / 10);
    } else {
      assert s[..0] == "";
    }
  }

  lemma {:induction false} DotIs(stem: string, ext: string)
    requires stem != "" && '.' !in ext
    ensures Dot(stem + "." + ext) == |stem|
    decreases |ext|
  {
    var s := stem + "." + ext;
    if ext == "" {
      assert s[|s|-1] == '.';
    } else {
      assert ext[|ext|-1] in ext && s[..|s|-1] == stem + "." + ext[..|ext|-1];
      DotIs(stem, ext[..|ext|-1]);
    }
  }

  lemma {:induction false} NoDot(s: string)
    requires '.' !in s
    ensures Dot(s) == |s|
  {
    if s != "" {
      assert s[|s|-1] in s;
      NoDot(s[..|s|-1]);
    }
  }

  /** The candidates of a name: itself, then the name with 2, 3, ... before its last dot, or at its end when it has none. */
  lemma {:induction false} CandidatesAre(name: string, stem: string, ext: string, n: nat)
    requires n >= 2
    ensures Candidate(name, 1) == SafeName(name)
    ensures stem != "" && ext != "" && '.' !in ext && SafeName(name) == stem + "." + ext ==>
            Candidate(name, n) == stem + "-" + Decimal(n) + "." + ext
    ensures '.' !in SafeName(name) ==> Candidate(name, n) == SafeName(name) + "-" + Decimal(n)
  {
    var safe := SafeName(name);
    if '.' !in safe {
      NoDot(safe);
    } else if stem != "" && ext != "" && '.' !in ext && safe == stem + "." + ext {
      DotIs(stem, ext);
      assert safe[..|stem|] == stem && safe[|stem| + 1..] == ext;
    }
  }

  /** The same letter in upper and lower case, or the same character. */
  predicate SameLetter(a: char, b: char) {
    a == b || (65 <= a as int <= 90 && b as int == a as int + 32) || (65 <= b as int <= 90 && a as int == b as int + 32)
  }

  /** Names are alike when they are the same text but for the case of letters. */
  lemma {:induction false} AlikeIff(a: string, b: string)
    ensures Lower(a) == Lower(b) <==> |a| == |b| && forall i | 0 <= i < |a| :: SameLetter(a[i], b[i])
  {
    if Lower(a) == Lower(b) {
      assert |a| == |Lower(a)| == |b|;
      assert forall i | 0 <= i < |a| :: Lower(a)[i] == Lower(b)[i];
    }
  }

  lemma {:induction false} Middle(a: string, x: string, y: string, b: string)
    requires Lower(a + "-" + x + b) == Lower(a + "-" + y + b)
    requires (forall c <- x :: '0' <= c <= '9') && (forall c <- y :: '0' <= c <= '9')
    ensures x == y
  {
    var s, t := a + "-" + x + b, a + "-" + y + b;
    assert |s| == |Lower(s)| == |t|;
    forall i | 0 <= i < |x|
      ensures x[i] == y[i]
    {
      var j := |a| + 1 + i;
      assert s[j] == x[i] && t[j] == y[i];
      assert x[i] in x && y[i] in y;
      assert Lower(s)[j] == LowerChar(s[j]) && Lower(t)[j] == LowerChar(t[j]);
    }
  }

  /** Different numbers make names that differ even ignoring case. */
  lemma {:induction false} NumberingIsInjective(name: string, a: nat, b: nat)
    requires Lower(Numbered(name, a)) == Lower(Numbered(name, b))
    ensures a == b
  {
    Middle(Stem(name), Decimal(a), Decimal(b), Extension(name));
    DecimalIsInjective(a, b);
  }

  // ---- no two alike ----------------------------------------------------------------------------------------

  /** `r` is the first of the name's candidates that is free. */
  ghost predicate FirstFree(name: string, used: set<string>, r: string) {
    exists n: nat | n >= 1 ::
      r == Candidate(name, n) && Lower(r) !in used && forall m: nat | 1 <= m < n :: Lower(Candidate(name, m)) in used
  }

  function LowerAll(s: seq<string>): set<string> { set x | x in s :: Lower(x) }

  /** Pigeonhole: if all candidates up to `n` are used, there are as many used names as numbers tried. */
  lemma {:induction false} EnoughNames(name: string, n: nat, used: set<string>)
    requires n >= 1 && forall m: nat | 2 <= m <= n :: Lower(Candidate(name, m)) in used
    ensures n <= |used| + 1
    decreases n
  {
    if n >= 2 {
      var last := Lower(Candidate(name, n));
      forall m: nat | 2 <= m <= n - 1
        ensures Lower(Candidate(name, m)) in used - {last}
      {
        if Lower(Candidate(name, m)) == last {
          NumberingIsInjective(SafeName(name), m, n);
        }
      }
      EnoughNames(name, n - 1, used - {last});
    }
  }

  method FreeName(name: string, used: set<string>) returns (candidate: string)
    ensures FirstFree(name, used, candidate)
  {
    var safe := SafeName(name);
    var n := 1;
    candidate := safe;
    while Lower(candidate) in used
      invariant n >= 1 && candidate == Candidate(name, n)
      invariant forall m: nat | 1 <= m < n :: Lower(Candidate(name, m)) in used
      decreases |used| + 2 - n
    {
      EnoughNames(name, n, used);
      n := n + 1;
      candidate := Numbered(safe, n);
    }
  }

  /** Each name so far was free when it was chosen. */
  ghost predicate Chosen(names: seq<string>, out: seq<string>)
    requires |out| <= |names|
  {
    out == [] || (Chosen(names, out[..|out|-1]) && FirstFree(names[|out|-1], LowerAll(out[..|out|-1]), out[|out|-1]))
  }

  lemma {:induction false} ChosenAre(names: seq<string>, out: seq<string>, i: nat)
    requires i < |out| <= |names| && Chosen(names, out)
    ensures FirstFree(names[i], LowerAll(out[..i]), out[i])
    decreases |out|
  {
    if i < |out| - 1 {
      ChosenAre(names, out[..|out|-1], i);
      assert out[..|out|-1][..i] == out[..i];
    }
  }

  lemma {:induction false} ChosenDiffer(names: seq<string>, out: seq<string>, i: nat, j: nat)
    requires i < j < |out| <= |names| && Chosen(names, out)
    ensures Lower(out[i]) != Lower(out[j])
  {
    ChosenAre(names, out, j);
    assert out[..j][i] == out[i];
    assert Lower(out[i]) in LowerAll(out[..j]);
  }

  lemma {:induction false} ChosenAll(names: seq<string>, out: seq<string>)
    requires |out| <= |names| && Chosen(names, out)
    ensures forall i, j | 0 <= i < j < |out| :: Lower(out[i]) != Lower(out[j])
    ensures forall i | 0 <= i < |out| :: FirstFree(names[i], LowerAll(out[..i]), out[i])
  {
    forall i, j | 0 <= i < j < |out| ensures Lower(out[i]) != Lower(out[j]) { ChosenDiffer(names, out, i, j); }
    forall i | 0 <= i < |out| ensures FirstFree(names[i], LowerAll(out[..i]), out[i]) { ChosenAre(names, out, i); }
  }

  lemma {:induction false} LowerAllSnoc(out: seq<string>, x: string)
    ensures LowerAll(out + [x]) == LowerAll(out) + {Lower(x)}
  {
    assert forall y :: y in out + [x] <==> y in out || y == x;
  }

  lemma {:induction false} OneMore(names: seq<string>, out: seq<string>, candidate: string)
    requires |out| < |names| && Chosen(names, out) && FirstFree(names[|out|], LowerAll(out), candidate)
    ensures Chosen(names, out + [candidate]) && LowerAll(out + [candidate]) == LowerAll(out) + {Lower(candidate)}
  {
    assert (out + [candidate])[..|out|] == out;
    LowerAllSnoc(out, candidate);
  }

  /** Names for the inputs in order, one each, no two alike ignoring case, each the first of its candidates still free. */
  method UniqueNames(names: seq<string>) returns (out: seq<string>)
    ensures |out| == |names|
    ensures forall i, j | 0 <= i < j < |out| :: Lower(out[i]) != Lower(out[j])
    ensures forall i | 0 <= i < |out| :: FirstFree(names[i], LowerAll(out[..i]), out[i])
  {
    out := [];
    var used: set<string> := {};
    for i := 0 to |names|
      invariant |out| == i && used == LowerAll(out) && Chosen(names, out)
    {
      var candidate := FreeName(names[i], used);
      OneMore(names, out, candidate);
      used := used + {Lower(candidate)};
      out := out + [candidate];
    }
    ChosenAll(names, out);
  }
}
