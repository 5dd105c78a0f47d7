/** Text helpers: prefixes, spans of a character class, decimal numbers, lines. */
module Text {
  import opened Wrappers

  type Class = char -> bool

  predicate AllIn(s: string, c: Class) {
    forall i :: 0 <= i < |s| ==> c(s[i])
  }

  /** The text ends here or goes on with a character outside the class. */
  predicate Stops(s: string, c: Class) {
    s == "" || !c(s[0])
  }

  /** How many leading characters are in the class. */
  function Span(s: string, c: Class): (n: nat)
    ensures n <= |s|
    ensures AllIn(s[..n], c) && Stops(s[n..], c)
  {
    if s == "" || !c(s[0]) then 0 else 1 + Span(s[1..], c)
  }

  /** A span is the only way to cut a text into characters of the class and a rest that stops it. */
  lemma SpanIsUnique(s: string, a: string, rest: string, c: Class)
    requires s == a + rest && AllIn(a, c) && Stops(rest, c)
    ensures Span(s, c) == |a| && s[..|a|] == a && s[|a|..] == rest
  {
    var n := Span(s, c);
    assert forall i :: 0 <= i < |a| ==> s[i] == a[i];
    assert rest != "" ==> s[|a|] == rest[0];
    assert forall i :: 0 <= i < n ==> s[..n][i] == s[i];
    assert s[n..] != "" ==> s[n..][0] == s[n];
  }

  function After(s: string, prefix: string): Option<string> {
    if prefix <= s then Some(s[|prefix|..]) else None
  }

  lemma AfterIs(prefix: string, rest: string)
    ensures After(prefix + rest, prefix) == Some(rest)
  {
  }

  predicate Contains(s: string, part: string) {
    exists i :: 0 <= i <= |s| && part <= s[i..]
  }

  // ---- numbers ----

  predicate IsDigit(c: char) { '0' <= c <= '9' }

  const DIGIT: Class := c => IsDigit(c)

  /** `strconv.Itoa` for a natural number. */
  function Itoa(n: nat): (s: string)
    ensures s != "" && forall i :: 0 <= i < |s| ==> IsDigit(s[i])
  {
    if n < 10 then [('0' as int + n) as char] else Itoa(n / 10) + [('0' as int + n % 10) as char]
  }

  function Value(s: string): nat
    requires forall i :: 0 <= i < |s| ==> IsDigit(s[i])
  {
    if s == "" then 0
    else
      assert IsDigit(s[|s| - 1]);
      10 * Value(s[..|s| - 1]) + (s[|s| - 1] as int - '0' as int)
  }

  const MAX_INT := 0x7fff_ffff_ffff_ffff

  /** `strconv.Atoi` on digits, the error ignored: too large a number reads as the largest int. */
  function Atoi(s: string): nat
    requires forall i :: 0 <= i < |s| ==> IsDigit(s[i])
  {
    if Value(s) <= MAX_INT then Value(s) else MAX_INT
  }

  lemma {:induction false} ValueOfItoa(n: nat)
    ensures Value(Itoa(n)) == n
    decreases n
  {
    if n < 10 {
      assert Itoa(n)[..0] == "";
    } else {
      ValueOfItoa(n / 10);
      var last := [('0' as int + n % 10) as char];
      assert Itoa(n) == Itoa(n / 10) + last;
      assert Itoa(n)[..|Itoa(n)| - 1] == Itoa(n / 10);
    }
  }

  // ---- lines ----

  /** The index of the first newline, |s| if there is none. */
  function Newline(s: string, from: nat := 0): (p: nat)
    requires from <= |s|
    ensures from <= p <= |s| && (p < |s| ==> s[p] == '\n')
    ensures forall i :: from <= i < p ==> s[i] != '\n'
    decreases |s| - from
  {
    if from == |s| || s[from] == '\n' then from else Newline(s, from + 1)
  }

  /** `strings.Split(s, "\n")`. */
  function Lines(s: string): (ls: seq<string>)
    ensures ls != []
    decreases |s|
  {
    var p := Newline(s);
    if p == |s| then [s] else [s[..p]] + Lines(s[p + 1..])
  }

  function Unlines(ls: seq<string>): string {
    if ls == [] then "" else if |ls| == 1 then ls[0] else ls[0] + "\n" + Unlines(ls[1..])
  }

  lemma FirstLine(line: string, rest: string)
    requires '\n' !in line
    ensures Lines(line + "\n" + rest) == [line] + Lines(rest)
  {
    var s := line + "\n" + rest;
    var p := Newline(s);
    assert forall i :: 0 <= i < |line| ==> s[i] == line[i];
    assert s[|line|] == '\n';
    assert p == |line|;
    assert s[..p] == line && s[p + 1..] == rest;
  }

  lemma {:induction false} LinesOfUnlines(ls: seq<string>)
    requires ls != [] && forall i :: 0 <= i < |ls| ==> '\n' !in ls[i]
    ensures Lines(Unlines(ls)) == ls
    decreases |ls|
  {
    if |ls| == 1 {
      assert ls == [ls[0]];
      assert Newline(ls[0]) == |ls[0]|;
    } else {
      FirstLine(ls[0], Unlines(ls[1..]));
      LinesOfUnlines(ls[1..]);
    }
  }

  // ---- white space ----

  /** `unicode.IsSpace`. */
  predicate IsSpace(c: char) {
    || '\t' <= c <= '\r' || c == ' ' || c == '\U{85}' || c == '\U{a0}' || c == '\U{1680}'
    || '\U{2000}' <= c <= '\U{200a}' || c == '\U{2028}' || c == '\U{2029}' || c == '\U{202f}'
    || c == '\U{205f}' || c == '\U{3000}'
  }

  const SPACE: Class := c => IsSpace(c)

  function TrimLeft(s: string): string { s[Span(s, SPACE)..] }

  function TrimRight(s: string): string {
    if s != "" && IsSpace(s[|s| - 1]) then TrimRight(s[..|s| - 1]) else s
  }

  function TrimSpace(s: string): string { TrimRight(TrimLeft(s)) }

  /** Neither end of the text is white space. */
  predicate Tight(s: string) {
    s != "" && !IsSpace(s[0]) && !IsSpace(s[|s| - 1])
  }

  lemma {:induction false} TrimRightDrops(s: string, blank: string)
    requires s != "" && !IsSpace(s[|s| - 1]) && AllIn(blank, SPACE)
    ensures TrimRight(s + blank) == s
    decreases |blank|
  {
    if blank == "" {
      assert s + blank == s;
    } else {
      var n := |blank| - 1;
      assert (s + blank)[..|s| + n] == s + blank[..n];
      assert (s + blank)[|s| + n] == blank[n];
      TrimRightDrops(s, blank[..n]);
    }
  }

  lemma TrimSpaceDrops(before: string, s: string, after: string)
    requires Tight(s) && AllIn(before, SPACE) && AllIn(after, SPACE)
    ensures TrimSpace(before + s + after) == s
  {
    assert before + s + after == before + (s + after);
    SpanIsUnique(before + (s + after), before, s + after, SPACE);
    TrimRightDrops(s, after);
  }
}
