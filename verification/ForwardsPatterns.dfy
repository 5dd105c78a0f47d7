/** The line patterns of the text fallback (internal/agent/forwards.go), each given twice: as a set of texts
  * with their captures, which is what the regular expression says, and as a scanner from left to right. The
  * scanner finds exactly the captures of the pattern.
  */
module ForwardsPatterns {
  import opened Wrappers
  import opened Text

  const UNQUOTED: Class := c => c != '"'
  const ADDRESS: Class := c => IsDigit(c) || c == '.'

  /** The captures of the DNAT line pattern; an absent optional group captures nothing. */
  datatype PreLine = PreLine(iface: Option<string>, proto: string, sport: string, ip: string, dport: Option<string>,
                             comment: Option<string>)

  predicate Digits(s: string) { s != "" && AllIn(s, DIGIT) }

  predicate Address(s: string) { s != "" && AllIn(s, ADDRESS) }

  predicate ValidPreLine(p: PreLine) {
    && (p.iface.Some? ==> AllIn(p.iface.value, UNQUOTED))
    && (p.proto == "tcp" || p.proto == "udp")
    && Digits(p.sport) && Address(p.ip)
    && (p.dport.Some? ==> Digits(p.dport.value))
    && (p.comment.Some? ==> AllIn(p.comment.value, UNQUOTED))
  }

  function CommentTail(p: PreLine): string {
    if p.comment.Some? then " comment \"" + (p.comment.value + "\"") else ""
  }

  function PortTail(p: PreLine): string {
    if p.dport.Some? then ":" + (p.dport.value + CommentTail(p)) else CommentTail(p)
  }

  function Dport(proto: string): string { proto + " dport " }

  function SportText(p: PreLine): string {
    p.sport + " dnat to " + (p.ip + PortTail(p))
  }

  function BodyText(p: PreLine): string {
    Dport(p.proto) + SportText(p)
  }

  function PreLineText(p: PreLine): string {
    if p.iface.Some? then "iifname \"" + (p.iface.value + ("\" " + BodyText(p))) else BodyText(p)
  }

  // ---- the scanner ----

  function ScanComment(s: string, p: PreLine): Option<PreLine> {
    if s == "" then Some(p)
    else
      var quoted := After(s, " comment \"");
      if quoted.None? then None
      else
        var n := Span(quoted.value, UNQUOTED);
        if quoted.value[n..] == "\"" then Some(p.(comment := Some(quoted.value[..n]))) else None
  }

  function ScanPort(s: string, p: PreLine): Option<PreLine> {
    var port := After(s, ":");
    if port.None? then ScanComment(s, p)
    else
      var n := Span(port.value, DIGIT);
      if n == 0 then None else ScanComment(port.value[n..], p.(dport := Some(port.value[..n])))
  }

  function ScanIP(s: string, p: PreLine): Option<PreLine> {
    var n := Span(s, ADDRESS);
    if n == 0 then None else ScanPort(s[n..], p.(ip := s[..n]))
  }

  function ScanSport(s: string, p: PreLine): Option<PreLine> {
    var n := Span(s, DIGIT);
    var rest := After(s[n..], " dnat to ");
    if n == 0 || rest.None? then None else ScanIP(rest.value, p.(sport := s[..n]))
  }

  function ScanProto(s: string, p: PreLine): Option<PreLine> {
    var tcp, udp := After(s, Dport("tcp")), After(s, Dport("udp"));
    if tcp.Some? then ScanSport(tcp.value, p.(proto := "tcp"))
    else if udp.Some? then ScanSport(udp.value, p.(proto := "udp"))
    else None
  }

  const BLANK := PreLine(None, "", "", "", None, None)

  function ScanPreLine(s: string): Option<PreLine> {
    var named := After(s, "iifname \"");
    if named.None? then ScanProto(s, BLANK)
    else
      var n := Span(named.value, UNQUOTED);
      var rest := After(named.value[n..], "\" ");
      if rest.None? then None else ScanProto(rest.value, BLANK.(iface := Some(named.value[..n])))
  }

  // ---- the scanner finds the captures ----

  lemma CommentComplete(p: PreLine, q: PreLine)
    requires ValidPreLine(p) && q == p.(comment := None)
    ensures ScanComment(CommentTail(p), q) == Some(p)
  {
    if p.comment.Some? {
      AfterIs(" comment \"", p.comment.value + "\"");
      SpanIsUnique(p.comment.value + "\"", p.comment.value, "\"", UNQUOTED);
    }
  }

  lemma PortComplete(p: PreLine, q: PreLine)
    requires ValidPreLine(p) && q == p.(dport := None, comment := None)
    ensures ScanPort(PortTail(p), q) == Some(p)
  {
    var tail := CommentTail(p);
    CommentComplete(p, p.(comment := None));
    if p.dport.Some? {
      AfterIs(":", p.dport.value + tail);
      SpanIsUnique(p.dport.value + tail, p.dport.value, tail, DIGIT);
    } else {
      assert tail != "" ==> tail[0] == ' ';
    }
  }

  lemma SportComplete(p: PreLine, q: PreLine)
    requires ValidPreLine(p) && q == BLANK.(iface := p.iface, proto := p.proto)
    ensures ScanSport(SportText(p), q) == Some(p)
  {
    var port := PortTail(p);
    var ip := p.ip + port;
    assert port != "" ==> port[0] == ':' || port[0] == ' ';
    PortComplete(p, p.(dport := None, comment := None));
    SpanIsUnique(ip, p.ip, port, ADDRESS);
    assert p.sport + " dnat to " + ip == p.sport + (" dnat to " + ip);
    SpanIsUnique(p.sport + " dnat to " + ip, p.sport, " dnat to " + ip, DIGIT);
    AfterIs(" dnat to ", ip);
  }

  lemma BodyComplete(p: PreLine, q: PreLine)
    requires ValidPreLine(p) && q == BLANK.(iface := p.iface)
    ensures ScanProto(BodyText(p), q) == Some(p)
  {
    SportComplete(p, q.(proto := p.proto));
    ProtoIs(p.proto, SportText(p));
  }

  lemma ProtoIs(proto: string, rest: string)
    requires proto == "tcp" || proto == "udp"
    ensures var s := Dport(proto) + rest;
            && After(s, Dport("tcp")) == (if proto == "tcp" then Some(rest) else None)
            && After(s, Dport("udp")) == (if proto == "udp" then Some(rest) else None)
  {
    AfterIs(Dport(proto), rest);
    assert (Dport(proto) + rest)[0] == proto[0];
    assert Dport("tcp")[0] == 't' && Dport("udp")[0] == 'u';
  }

  /** The scanner reads back the captures of every text of the pattern. */
  lemma {:induction false} ScanComplete(p: PreLine)
    requires ValidPreLine(p)
    ensures ScanPreLine(PreLineText(p)) == Some(p)
  {
    BodyComplete(p, BLANK.(iface := p.iface));
    if p.iface.Some? {
      var tail := "\" " + BodyText(p);
      AfterIs("iifname \"", p.iface.value + tail);
      SpanIsUnique(p.iface.value + tail, p.iface.value, tail, UNQUOTED);
      AfterIs("\" ", BodyText(p));
    } else {
      assert BodyText(p)[0] == p.proto[0];
    }
  }

  lemma AfterSplits(s: string, prefix: string)
    requires After(s, prefix).Some?
    ensures s == prefix + After(s, prefix).value
  {
  }

  lemma SpanSplits(s: string, n: nat)
    requires n <= |s|
    ensures s == s[..n] + s[n..]
  {
  }

  lemma CommentSound(s: string, q: PreLine, p: PreLine)
    requires ScanComment(s, q) == Some(p) && q.comment.None?
    ensures s == CommentTail(p) && q == p.(comment := None)
    ensures p.comment.Some? ==> AllIn(p.comment.value, UNQUOTED)
  {
    if s != "" {
      AfterSplits(s, " comment \"");
      var quoted := After(s, " comment \"").value;
      SpanSplits(quoted, Span(quoted, UNQUOTED));
    }
  }

  lemma PortSound(s: string, q: PreLine, p: PreLine)
    requires ScanPort(s, q) == Some(p) && q.dport.None? && q.comment.None?
    ensures s == PortTail(p) && q == p.(dport := None, comment := None)
    ensures p.comment.Some? ==> AllIn(p.comment.value, UNQUOTED)
    ensures p.dport.Some? ==> Digits(p.dport.value)
  {
    if After(s, ":").None? {
      CommentSound(s, q, p);
    } else {
      AfterSplits(s, ":");
      var port := After(s, ":").value;
      var n := Span(port, DIGIT);
      SpanSplits(port, n);
      CommentSound(port[n..], q.(dport := Some(port[..n])), p);
    }
  }

  lemma SportSound(s: string, q: PreLine, p: PreLine)
    requires ScanSport(s, q) == Some(p) && q.dport.None? && q.comment.None?
    ensures s == SportText(p)
    ensures q == p.(sport := q.sport, ip := q.ip, dport := None, comment := None)
    ensures ValidPreLine(p.(iface := None, proto := "tcp"))
  {
    var n := Span(s, DIGIT);
    var rest := After(s[n..], " dnat to ").value;
    SpanSplits(s, n);
    AfterSplits(s[n..], " dnat to ");
    var k := Span(rest, ADDRESS);
    SpanSplits(rest, k);
    PortSound(rest[k..], q.(sport := s[..n], ip := rest[..k]), p);
    assert s[..n] + (" dnat to " + rest) == s[..n] + " dnat to " + rest;
  }

  lemma BodySound(s: string, q: PreLine, p: PreLine)
    requires ScanProto(s, q) == Some(p) && q == BLANK.(iface := q.iface)
    requires q.iface.Some? ==> AllIn(q.iface.value, UNQUOTED)
    ensures s == BodyText(p) && ValidPreLine(p) && p.iface == q.iface
  {
    if After(s, Dport("tcp")).Some? {
      BodySoundFor(s, q, p, "tcp");
    } else {
      BodySoundFor(s, q, p, "udp");
    }
  }

  lemma BodySoundFor(s: string, q: PreLine, p: PreLine, proto: string)
    requires proto == "tcp" || proto == "udp"
    requires After(s, Dport(proto)).Some?
    requires ScanSport(After(s, Dport(proto)).value, q.(proto := proto)) == Some(p) && q == BLANK.(iface := q.iface)
    requires q.iface.Some? ==> AllIn(q.iface.value, UNQUOTED)
    ensures s == BodyText(p) && ValidPreLine(p) && p.iface == q.iface
  {
    AfterSplits(s, Dport(proto));
    SportSound(After(s, Dport(proto)).value, q.(proto := proto), p);
  }

  /** The scanner returns p exactly when the pattern matches the line with the captures p. */
  lemma {:induction false} ScanExactly(s: string, p: PreLine)
    ensures ScanPreLine(s) == Some(p) <==> ValidPreLine(p) && PreLineText(p) == s
  {
    if ValidPreLine(p) && PreLineText(p) == s {
      ScanComplete(p);
    }
    if ScanPreLine(s) == Some(p) {
      var named := After(s, "iifname \"");
      if named.None? {
        BodySound(s, BLANK, p);
      } else {
        AfterSplits(s, "iifname \"");
        var n := Span(named.value, UNQUOTED);
        SpanSplits(named.value, n);
        AfterSplits(named.value[n..], "\" ");
        var rest := After(named.value[n..], "\" ").value;
        BodySound(rest, BLANK.(iface := Some(named.value[..n])), p);
      }
    }
  }

  // ---- the handle suffix ----

  predicate IsReSpace(c: char) { c == ' ' || c == '\t' || c == '\n' || c == '\r' || c == '\U{c}' }

  const RE_SPACE: Class := c => IsReSpace(c)

  function SkipSpace(s: string): string { s[Span(s, RE_SPACE)..] }

  /** The handle pattern matched from the start of s to its end; the captured digits. */
  function HandleAt(s: string): Option<string> {
    var hash := After(SkipSpace(s), "#");
    if hash.None? then None
    else
      var word := After(SkipSpace(hash.value), "handle ");
      if word.None? then None
      else
        var n := Span(word.value, DIGIT);
        if n == 0 || SkipSpace(word.value[n..]) != "" then None else Some(word.value[..n])
  }

  /** Where a handle suffix starts, and its digits. */
  datatype Found = Found(at: nat, digits: string)

  /** The leftmost match at or after index i: where it starts and what it captures. */
  function FindHandle(s: string, i: nat): (r: Option<Found>)
    requires i <= |s|
    ensures r.Some? ==> i <= r.value.at <= |s| && Digits(r.value.digits)
    decreases |s| - i
  {
    if HandleAt(s[i..]).Some? then Some(Found(i, HandleAt(s[i..]).value))
    else if i == |s| then None
    else FindHandle(s, i + 1)
  }

  ghost predicate IsHandleText(s: string, a: string, b: string, digits: string, c: string) {
    && AllIn(a, RE_SPACE) && AllIn(b, RE_SPACE) && Digits(digits) && AllIn(c, RE_SPACE)
    && s == a + ("#" + (b + ("handle " + (digits + c))))
  }

  lemma HandleComplete(s: string, a: string, b: string, digits: string, c: string)
    requires IsHandleText(s, a, b, digits, c)
    ensures HandleAt(s) == Some(digits)
  {
    var word := digits + c;
    var named := "handle " + word;
    var hash := b + named;
    SpanIsUnique(s, a, "#" + hash, RE_SPACE);
    AfterIs("#", hash);
    SpanIsUnique(hash, b, named, RE_SPACE);
    AfterIs("handle ", word);
    assert c != "" ==> !IsDigit(c[0]);
    SpanIsUnique(word, digits, c, DIGIT);
    assert c == c + "";
    SpanIsUnique(c, c, "", RE_SPACE);
  }

  lemma HandleSound(s: string) returns (a: string, b: string, c: string)
    requires HandleAt(s).Some?
    ensures IsHandleText(s, a, b, HandleAt(s).value, c)
  {
    var n := Span(s, RE_SPACE);
    a := s[..n];
    SpanSplits(s, n);
    AfterSplits(s[n..], "#");
    var hash := After(s[n..], "#").value;
    var k := Span(hash, RE_SPACE);
    b := hash[..k];
    SpanSplits(hash, k);
    AfterSplits(hash[k..], "handle ");
    var word := After(hash[k..], "handle ").value;
    var d := Span(word, DIGIT);
    c := word[d..];
    SpanSplits(word, d);
    SpanSplits(c, Span(c, RE_SPACE));
    assert c[..Span(c, RE_SPACE)] == c;
  }

  /** The characters a match of the handle pattern can contain. */
  predicate InHandle(c: char) {
    IsReSpace(c) || c == '#' || IsDigit(c) || c in "handle"
  }

  lemma OutsideBlocksHandle(s: string, j: nat)
    requires j < |s| && !InHandle(s[j])
    ensures HandleAt(s) == None
  {
    if HandleAt(s).Some? {
      var a, b, c := HandleSound(s);
      OnlyHandleChars(s, a, b, HandleAt(s).value, c);
    }
  }

  lemma OnlyHandleChars(s: string, a: string, b: string, digits: string, c: string)
    requires IsHandleText(s, a, b, digits, c)
    ensures forall i :: 0 <= i < |s| ==> InHandle(s[i])
  {
    var word := digits + c;
    assert forall i :: 0 <= i < |word| ==> InHandle(word[i]);
    var named := "handle " + word;
    assert forall i :: 0 <= i < 7 ==> InHandle("handle "[i]);
    assert forall i :: 0 <= i < |named| ==> InHandle(named[i]);
    var hash := b + named;
    assert forall i :: 0 <= i < |hash| ==> InHandle(hash[i]);
  }

  /** Some character no match can contain is followed only by characters no match can start with. */
  ghost predicate Sealed(body: string) {
    exists j :: 0 <= j < |body| && SealedAt(body, j)
  }

  ghost predicate SealedAt(body: string, j: nat)
    requires j < |body|
  {
    !InHandle(body[j]) && forall i :: j < i < |body| ==> !IsReSpace(body[i]) && body[i] != '#'
  }

  lemma {:induction false} SealedSkips(body: string, suffix: string, i: nat)
    requires Sealed(body) && i <= |body|
    ensures FindHandle(body + suffix, i) == FindHandle(body + suffix, |body|)
    decreases |body| - i
  {
    if i < |body| {
      var s := body + suffix;
      var j :| 0 <= j < |body| && SealedAt(body, j);
      if i <= j {
        assert s[i..][j - i] == body[j];
        OutsideBlocksHandle(s[i..], j - i);
      } else {
        assert s[i..][0] == body[i];
        assert Span(s[i..], RE_SPACE) == 0;
      }
      SealedSkips(body, suffix, i + 1);
    }
  }

  /** What `nft -a` prints after a rule. */
  function Suffix(handle: nat): string { " " + ("#" + (" " + ("handle " + Itoa(handle)))) }

  lemma SuffixMatches(handle: nat)
    ensures HandleAt(Suffix(handle)) == Some(Itoa(handle))
  {
    var digits := Itoa(handle);
    assert digits + "" == digits;
    HandleComplete(Suffix(handle), " ", " ", digits, "");
  }

  /** The suffix is found where the rule ends, whatever the rule contains. */
  lemma {:induction false} SuffixFound(body: string, handle: nat)
    requires Sealed(body)
    ensures FindHandle(body + Suffix(handle), 0) == Some(Found(|body|, Itoa(handle)))
  {
    SealedSkips(body, Suffix(handle), 0);
    assert (body + Suffix(handle))[|body|..] == Suffix(handle);
    SuffixMatches(handle);
  }
}
