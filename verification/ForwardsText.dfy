/** The rule text the editor writes and the text fallback that reads a listing back
  * (internal/agent/forwards.go).
  */
module ForwardsText {
  import opened Wrappers
  import opened Text
  import opened ForwardsPatterns
  import F = Forwards

  // ---- writing ----

  const PRE_PREFIX := "add rule ip nat prerouting "
  const POST_PREFIX := "add rule ip nat postrouting "

  function IfaceText(iface: string): string {
    if iface == "" then "" else "iifname \"" + (iface + "\" ")
  }

  function CommentText(comment: string): string {
    if comment == "" then "" else " comment \"" + (comment + "\"")
  }

  function PortText(r: F.Rule): string
    requires r.dstPort >= 0
  {
    ":" + (Itoa(r.dstPort) + CommentText(r.comment))
  }

  function MatchText(r: F.Rule): string
    requires r.srcPort >= 0 && r.dstPort >= 0
  {
    Dport(r.proto) + (Itoa(r.srcPort) + " dnat to " + (r.dstIP + PortText(r)))
  }

  /** A DNAT rule's text, as it also appears in a listing. */
  function RuleText(r: F.Rule): string
    requires r.srcPort >= 0 && r.dstPort >= 0
  {
    IfaceText(r.iface) + MatchText(r)
  }

  function PreRuleStmt(r: F.Rule): string
    requires r.srcPort >= 0 && r.dstPort >= 0
  {
    PRE_PREFIX + RuleText(r)
  }

  /** What a listing shows of a rule: the statement without the words that add it to its chain. */
  function Shown(prefix: string, stmt: string): string
    requires prefix <= stmt
  {
    stmt[|prefix|..]
  }

  function MasqText(r: F.Rule): string
    requires r.dstPort >= 0
  {
    "ip daddr " + (r.dstIP + (" " + (Dport(r.proto) + (Itoa(r.dstPort) + " masquerade"))))
  }

  function PostRuleStmt(r: F.Rule): string
    requires r.dstPort >= 0
  {
    POST_PREFIX + MasqText(r)
  }

  // ---- reading ----

  /** A listed DNAT rule: one the editor can rewrite, or one it only shows. */
  datatype Listed = Forward(rule: F.Rule) | Opaque(handle: nat)

  function CutHandle(line: string): (string, nat) {
    var found := FindHandle(line, 0);
    if found.None? then (line, 0) else (TrimSpace(line[..found.value.at]), Atoi(found.value.digits))
  }

  function Captured(o: Option<string>): string { if o.Some? then o.value else "" }

  function RuleOf(p: PreLine, handle: nat): F.Rule
    requires ValidPreLine(p)
  {
    var sport := Atoi(p.sport);
    F.Rule(p.proto, sport, Captured(p.iface), p.ip, if p.dport.Some? then Atoi(p.dport.value) else sport,
           handle, Captured(p.comment), false)
  }

  function ReadRuleLine(raw: string): Option<Listed> {
    var line := TrimSpace(raw);
    if !Contains(line, "dnat to") then None
    else
      var (text, handle) := CutHandle(line);
      var p := ScanPreLine(text);
      if p.None? then Some(Opaque(handle))
      else
        ScanExactly(text, p.value);
        Some(Forward(RuleOf(p.value, handle)))
  }

  function ReadRules(lines: seq<string>): seq<Listed> {
    if lines == [] then []
    else
      var n := |lines| - 1;
      var r := ReadRuleLine(lines[n]);
      ReadRules(lines[..n]) + if r.Some? then [r.value] else []
  }

  datatype MasqLine = MasqLine(ip: string, proto: string, port: string)

  function MasqPort(s: string, m: MasqLine): Option<MasqLine> {
    var n := Span(s, DIGIT);
    if n == 0 || s[n..] != " masquerade" then None else Some(m.(port := s[..n]))
  }

  function MasqProto(s: string, m: MasqLine): Option<MasqLine> {
    var tcp, udp := After(s, Dport("tcp")), After(s, Dport("udp"));
    if tcp.Some? then MasqPort(tcp.value, m.(proto := "tcp"))
    else if udp.Some? then MasqPort(udp.value, m.(proto := "udp"))
    else None
  }

  function ScanMasqLine(s: string): (r: Option<MasqLine>)
  {
    var ip := After(s, "ip daddr ");
    if ip.None? then None
    else
      var n := Span(ip.value, ADDRESS);
      var rest := After(ip.value[n..], " ");
      if n == 0 || rest.None? then None else MasqProto(rest.value, MasqLine(ip.value[..n], "", ""))
  }

  function ReadMasqLine(raw: string): Option<F.Masq> {
    var line := TrimSpace(raw);
    if !Contains(line, "masquerade") then None
    else
      var (text, handle) := CutHandle(line);
      var m := ScanMasqLine(text);
      if m.None? then None
      else
        assert Digits(m.value.port);
        Some(F.Masq(handle, m.value.ip, m.value.proto, Atoi(m.value.port)))
  }

  function ReadMasqs(lines: seq<string>): seq<F.Masq> {
    if lines == [] then []
    else
      var n := |lines| - 1;
      var m := ReadMasqLine(lines[n]);
      ReadMasqs(lines[..n]) + if m.Some? then [m.value] else []
  }

  method ReadPrerouting(lines: seq<string>) returns (rules: seq<Listed>)
    ensures rules == ReadRules(lines)
  {
    rules := [];
    for i := 0 to |lines|
      invariant rules == ReadRules(lines[..i])
    {
      assert lines[..i + 1][..i] == lines[..i];
      var line := TrimSpace(lines[i]);
      if !Contains(line, "dnat to") { continue; }
      var handle := 0;
      var found := FindHandle(line, 0);
      if found.Some? {
        handle := Atoi(found.value.digits);
        line := TrimSpace(line[..found.value.at]);
      }
      var p := ScanPreLine(line);
      if p.Some? {
        ScanExactly(line, p.value);
        rules := rules + [Forward(RuleOf(p.value, handle))];
      } else {
        rules := rules + [Opaque(handle)];
      }
    }
    assert lines[..|lines|] == lines;
  }

  method ReadPostrouting(lines: seq<string>) returns (masq: seq<F.Masq>)
    ensures masq == ReadMasqs(lines)
  {
    masq := [];
    for i := 0 to |lines|
      invariant masq == ReadMasqs(lines[..i])
    {
      assert lines[..i + 1][..i] == lines[..i];
      var m := ReadMasqLine(lines[i]);
      if m.Some? { masq := masq + [m.value]; }
    }
    assert lines[..|lines|] == lines;
  }

  method ParseForwardsText(pre: string, post: string) returns (rules: seq<Listed>, masq: seq<F.Masq>)
    ensures rules == ReadRules(Lines(pre))
    ensures masq == ReadMasqs(Lines(post))
  {
    rules := ReadPrerouting(Lines(pre));
    masq := ReadPostrouting(Lines(post));
  }

  // ---- round trips ----

  /** A rule the editor accepts whose destination is written in digits and dots. */
  predicate Printable(r: F.Rule) {
    && (r.proto == "tcp" || r.proto == "udp")
    && F.ValidPort(r.srcPort) && F.ValidPort(r.dstPort)
    && Address(r.dstIP)
    && (r.iface != "" ==> F.ValidIface(r.iface))
    && F.ValidComment(r.comment)
  }

  lemma {:induction false} AcceptedIsPrintable(r: F.Rule, net: F.Net)
    requires F.ValidateForward(r, net) == "" && Address(r.dstIP)
    ensures Printable(r)
  {
  }

  function Captures(r: F.Rule): PreLine
    requires Printable(r)
  {
    PreLine(if r.iface == "" then None else Some(r.iface), r.proto, Itoa(r.srcPort), r.dstIP,
            Some(Itoa(r.dstPort)), if r.comment == "" then None else Some(r.comment))
  }

  lemma RuleTextIsPattern(r: F.Rule)
    requires Printable(r)
    ensures ValidPreLine(Captures(r)) && PreLineText(Captures(r)) == RuleText(r)
  {
    var p := Captures(r);
    assert CommentTail(p) == CommentText(r.comment);
    assert PortTail(p) == PortText(r);
    assert BodyText(p) == MatchText(r);
    var body := MatchText(r);
    if r.iface != "" {
      assert r.iface + "\" " + body == r.iface + ("\" " + body);
      assert RuleText(r) == "iifname \"" + (r.iface + "\" " + body);
    } else {
      assert RuleText(r) == "" + body == body;
    }
  }

  lemma Regroup(iface: string, dport: string, src: string, ip: string, tail: string)
    ensures iface + (dport + (src + " dnat to " + (ip + tail))) == iface + dport + src + " " + ("dnat to" + (" " + ip)) + tail
  {
  }

  lemma ContainsMiddle(a: string, part: string, b: string)
    ensures Contains(a + (part + b), part)
  {
    assert (a + (part + b))[|a|..] == part + b;
  }

  /** The text up to the port, which always follows a colon. */
  lemma RuleTextEnd(r: F.Rule) returns (front: string)
    requires Printable(r)
    ensures RuleText(r) == front + PortText(r)
    ensures Contains(front, "dnat to")
    ensures front != "" && !IsSpace(front[0])
  {
    var head := IfaceText(r.iface) + Dport(r.proto) + Itoa(r.srcPort) + " ";
    front := head + ("dnat to" + (" " + r.dstIP));
    Regroup(IfaceText(r.iface), Dport(r.proto), Itoa(r.srcPort), r.dstIP, PortText(r));
    ContainsMiddle(head, "dnat to", " " + r.dstIP);
    assert head[0] == if r.iface == "" then r.proto[0] else 'i';
  }

  lemma RuleSealed(r: F.Rule, front: string)
    requires Printable(r) && RuleText(r) == front + PortText(r)
    ensures Sealed(RuleText(r))
  {
    var s, digits := RuleText(r), Itoa(r.dstPort);
    if r.comment == "" {
      assert PortText(r) == ":" + digits;
      assert s[|front|] == ':';
      forall i | |front| < i < |s|
        ensures !IsReSpace(s[i]) && s[i] != '#'
      {
        assert s[i] == digits[i - |front| - 1];
      }
      assert SealedAt(s, |front|);
    } else {
      assert PortText(r)[|PortText(r)| - 1] == '"';
      assert s[|s| - 1] == '"';
      assert SealedAt(s, |s| - 1);
    }
  }

  lemma RuleTight(r: F.Rule, front: string)
    requires Printable(r) && RuleText(r) == front + PortText(r) && front != "" && !IsSpace(front[0])
    ensures Tight(RuleText(r))
  {
    var digits := Itoa(r.dstPort);
    assert PortText(r) != "" && PortText(r)[|PortText(r)| - 1] ==
      if r.comment == "" then digits[|digits| - 1] else '"';
    assert RuleText(r)[|RuleText(r)| - 1] == PortText(r)[|PortText(r)| - 1];
    assert RuleText(r)[0] == front[0];
  }

  lemma SuffixTight(body: string, handle: nat)
    requires Tight(body)
    ensures Tight(body + Suffix(handle))
  {
    var digits := Itoa(handle);
    assert Suffix(handle)[|Suffix(handle)| - 1] == digits[|digits| - 1];
  }

  lemma ContainsLonger(a: string, b: string, part: string)
    requires Contains(a, part)
    ensures Contains(a + b, part)
  {
    var i :| 0 <= i <= |a| && part <= a[i..];
    assert (a + b)[i..] == a[i..] + b;
  }

  /** The suffix nft prints is cut off where the rule ends and its number is read back. */
  lemma CutSuffix(body: string, handle: nat)
    requires Sealed(body) && Tight(body) && handle <= MAX_INT
    ensures CutHandle(body + Suffix(handle)) == (body, handle)
  {
    SuffixFound(body, handle);
    assert (body + Suffix(handle))[..|body|] == body;
    assert "" + body + "" == body;
    TrimSpaceDrops("", body, "");
    ValueOfItoa(handle);
  }

  lemma PortsReadBack(r: F.Rule, handle: nat)
    requires Printable(r) && ValidPreLine(Captures(r))
    ensures RuleOf(Captures(r), handle) == r.(handle := handle, extraMatch := false)
  {
    ValueOfItoa(r.srcPort);
    ValueOfItoa(r.dstPort);
  }

  lemma {:induction false} RuleReads(r: F.Rule, handle: nat, before: string, after: string)
    requires Printable(r) && handle <= MAX_INT && AllIn(before, SPACE) && AllIn(after, SPACE)
    ensures ReadRuleLine(before + (RuleText(r) + Suffix(handle)) + after)
         == Some(Forward(r.(handle := handle, extraMatch := false)))
  {
    var body := RuleText(r);
    var front := RuleTextEnd(r);
    RuleSealed(r, front);
    RuleTight(r, front);
    SuffixTight(body, handle);
    TrimSpaceDrops(before, body + Suffix(handle), after);
    ContainsLonger(front, PortText(r), "dnat to");
    ContainsLonger(body, Suffix(handle), "dnat to");
    CutSuffix(body, handle);
    RuleTextIsPattern(r);
    ScanComplete(Captures(r));
    PortsReadBack(r, handle);
  }

  /** Round trip: a rule the editor adds, listed with any handle and any surrounding white space,
    * reads back as the same rule with that handle, even if its comment looks like a handle suffix. */
  lemma {:induction false} RuleRoundTrip(r: F.Rule, handle: nat, before: string, after: string)
    requires Printable(r) && handle <= MAX_INT && AllIn(before, SPACE) && AllIn(after, SPACE)
    ensures ReadRuleLine(before + (Shown(PRE_PREFIX, PreRuleStmt(r)) + Suffix(handle)) + after)
         == Some(Forward(r.(handle := handle, extraMatch := false)))
  {
    RuleReads(r, handle, before, after);
  }

  // Rules that the editor did not write.

  /** A listed line: the rule, with its handle if it shows one. */
  function ListedLine(body: string, handle: Option<nat>): string {
    if handle.Some? then body + Suffix(handle.value) else body
  }

  /** The text of a rule can be told from a handle behind it, and shows none of its own. */
  ghost predicate Showable(body: string, handle: Option<nat>) {
    Tight(body) && Contains(body, "dnat to")
    && if handle.Some? then Sealed(body) && handle.value <= MAX_INT else FindHandle(body, 0).None?
  }

  function HandleShown(handle: Option<nat>): nat { if handle.Some? then handle.value else 0 }

  lemma ListedCuts(body: string, handle: Option<nat>, before: string, after: string)
    requires Showable(body, handle) && AllIn(before, SPACE) && AllIn(after, SPACE)
    ensures TrimSpace(before + ListedLine(body, handle) + after) == ListedLine(body, handle)
    ensures Contains(ListedLine(body, handle), "dnat to")
    ensures CutHandle(ListedLine(body, handle)) == (body, HandleShown(handle))
  {
    if handle.Some? {
      SuffixTight(body, handle.value);
      ContainsLonger(body, Suffix(handle.value), "dnat to");
      CutSuffix(body, handle.value);
    }
    TrimSpaceDrops(before, ListedLine(body, handle), after);
  }

  /** Any listed rule of the editor's form is read for what it is: without a port of its own the destination keeps the
    * source port, and a rule that shows no handle has none. */
  lemma {:induction false} PatternReads(p: PreLine, body: string, handle: Option<nat>, before: string, after: string)
    requires ValidPreLine(p) && body == PreLineText(p) && Showable(body, handle) && AllIn(before, SPACE) && AllIn(after, SPACE)
    ensures var r := ReadRuleLine(before + ListedLine(body, handle) + after);
            && r.Some? && r.value.Forward?
            && r.value.rule.proto == p.proto && r.value.rule.srcPort == Atoi(p.sport)
            && r.value.rule.iface == (if p.iface.Some? then p.iface.value else "")
            && r.value.rule.dstIP == p.ip
            && r.value.rule.dstPort == (if p.dport.Some? then Atoi(p.dport.value) else Atoi(p.sport))
            && r.value.rule.handle == HandleShown(handle)
            && r.value.rule.comment == (if p.comment.Some? then p.comment.value else "") && !r.value.rule.extraMatch
  {
    ListedCuts(body, handle, before, after);
    ScanExactly(body, p);
  }

  /** Any other rule with a DNAT verdict is kept, with its handle, as one that the editor only shows. */
  lemma {:induction false} OtherIsOpaque(body: string, handle: Option<nat>, before: string, after: string)
    requires Showable(body, handle) && AllIn(before, SPACE) && AllIn(after, SPACE)
    requires forall p :: ValidPreLine(p) ==> PreLineText(p) != body
    ensures ReadRuleLine(before + ListedLine(body, handle) + after) == Some(Opaque(HandleShown(handle)))
  {
    ListedCuts(body, handle, before, after);
    if ScanPreLine(body).Some? {
      ScanExactly(body, ScanPreLine(body).value);
      assert false;
    }
  }

  // Masquerade rules.

  lemma EndsInMasquerade(front: string)
    requires front != "" && !IsSpace(front[0])
    ensures var s := front + "masquerade"; Sealed(s) && Tight(s) && Contains(s, "masquerade")
  {
    var tail := "masquerade";
    var s := front + tail;
    assert s[|front|..] == tail;
    assert forall i :: 0 <= i < 10 ==> s[|front| + i] == tail[i];
    assert tail[6] == 'r' && tail[7] == 'a' && tail[8] == 'd' && tail[9] == 'e';
    assert SealedAt(s, |front| + 6);
  }

  lemma MasqTextEnd(r: F.Rule) returns (front: string)
    requires Printable(r)
    ensures MasqText(r) == front + "masquerade" && front != "" && !IsSpace(front[0])
  {
    front := "ip daddr " + (r.dstIP + (" " + (Dport(r.proto) + (Itoa(r.dstPort) + " "))));
    assert " masquerade" == " " + "masquerade";
    assert front[0] == 'i';
  }

  lemma MasqScans(r: F.Rule)
    requires Printable(r)
    ensures ScanMasqLine(MasqText(r)) == Some(MasqLine(r.dstIP, r.proto, Itoa(r.dstPort)))
  {
    var digits := Itoa(r.dstPort);
    var port := digits + " masquerade";
    var proto := Dport(r.proto) + port;
    AfterIs("ip daddr ", r.dstIP + (" " + proto));
    SpanIsUnique(r.dstIP + (" " + proto), r.dstIP, " " + proto, ADDRESS);
    AfterIs(" ", proto);
    MasqProtoScans(r.proto, digits, MasqLine(r.dstIP, "", ""));
  }

  lemma MasqProtoScans(proto: string, digits: string, m: MasqLine)
    requires (proto == "tcp" || proto == "udp") && Digits(digits)
    ensures MasqProto(Dport(proto) + (digits + " masquerade"), m) == Some(m.(proto := proto, port := digits))
  {
    ProtoIs(proto, digits + " masquerade");
    SpanIsUnique(digits + " masquerade", digits, " masquerade", DIGIT);
  }

  lemma MasqReads(body: string, m: MasqLine, handle: nat, before: string, after: string)
    requires Sealed(body) && Tight(body) && Contains(body, "masquerade") && handle <= MAX_INT
    requires ScanMasqLine(body) == Some(m) && AllIn(before, SPACE) && AllIn(after, SPACE)
    ensures Digits(m.port)
    ensures ReadMasqLine(before + (body + Suffix(handle)) + after) == Some(F.Masq(handle, m.ip, m.proto, Atoi(m.port)))
  {
    SuffixTight(body, handle);
    TrimSpaceDrops(before, body + Suffix(handle), after);
    ContainsLonger(body, Suffix(handle), "masquerade");
    CutSuffix(body, handle);
  }

  lemma {:induction false} MasqRoundTrip(r: F.Rule, handle: nat, before: string, after: string)
    requires Printable(r) && handle <= MAX_INT && AllIn(before, SPACE) && AllIn(after, SPACE)
    ensures ReadMasqLine(before + (Shown(POST_PREFIX, PostRuleStmt(r)) + Suffix(handle)) + after)
         == Some(F.Masq(handle, r.dstIP, r.proto, r.dstPort))
  {
    var front := MasqTextEnd(r);
    EndsInMasquerade(front);
    MasqScans(r);
    MasqReads(MasqText(r), MasqLine(r.dstIP, r.proto, Itoa(r.dstPort)), handle, before, after);
    ValueOfItoa(r.dstPort);
  }

  // ---- whole listings ----

  /** A line of a chain listing: a rule the editor added, or something the reader of that chain passes over. */
  datatype Entry = Noise(text: string) | Written(indent: string, rule: F.Rule, handle: nat)

  predicate ValidEntry(e: Entry) {
    match e
    case Noise(text) => '\n' !in text && !Contains(TrimSpace(text), "dnat to")
    case Written(indent, rule, handle) =>
      Printable(rule) && handle <= MAX_INT && AllIn(indent, SPACE) && '\n' !in indent
  }

  function EntryText(e: Entry): string
    requires ValidEntry(e)
  {
    match e
    case Noise(text) => text
    case Written(indent, rule, handle) => indent + (Shown(PRE_PREFIX, PreRuleStmt(rule)) + Suffix(handle))
  }

  predicate ValidListing(es: seq<Entry>) {
    forall i :: 0 <= i < |es| ==> ValidEntry(es[i])
  }

  function EntryTexts(es: seq<Entry>): (ls: seq<string>)
    requires ValidListing(es)
    ensures |ls| == |es| && forall i :: 0 <= i < |es| ==> ls[i] == EntryText(es[i])
  {
    seq(|es|, i requires 0 <= i < |es| => EntryText(es[i]))
  }

  function RulesIn(es: seq<Entry>): seq<Listed> {
    if es == [] then []
    else
      var n := |es| - 1;
      RulesIn(es[..n]) + if es[n].Written? then [Forward(es[n].rule.(handle := es[n].handle, extraMatch := false))] else []
  }

  lemma NoNewline(r: F.Rule, handle: nat)
    requires Printable(r)
    ensures '\n' !in RuleText(r) + Suffix(handle)
  {
    assert '\n' !in Itoa(r.srcPort) && '\n' !in Itoa(r.dstPort) && '\n' !in Itoa(handle);
    assert '\n' !in r.dstIP && '\n' !in r.comment && '\n' !in r.iface && '\n' !in r.proto;
    assert '\n' !in CommentText(r.comment);
    assert '\n' !in PortText(r);
    assert '\n' !in MatchText(r);
    assert '\n' !in IfaceText(r.iface);
    assert '\n' !in Suffix(handle);
  }

  lemma {:induction false} ReadEntries(es: seq<Entry>, ls: seq<string>)
    requires ValidListing(es) && |ls| == |es| && forall i :: 0 <= i < |es| ==> ls[i] == EntryText(es[i])
    ensures ReadRules(ls) == RulesIn(es)
    decreases |es|
  {
    if es != [] {
      var n := |es| - 1;
      ReadEntries(es[..n], ls[..n]);
      if es[n].Written? {
        var e := es[n];
        RuleRoundTrip(e.rule, e.handle, e.indent, "");
        assert e.indent + (RuleText(e.rule) + Suffix(e.handle)) + "" == EntryText(e);
      }
    }
  }

  /** Reading the prerouting chain gives back exactly the written rules, in order, with their handles. */
  lemma {:induction false} ListingRoundTrip(es: seq<Entry>)
    requires es != [] && ValidListing(es)
    ensures ReadRules(Lines(Unlines(EntryTexts(es)))) == RulesIn(es)
  {
    var ls := EntryTexts(es);
    forall i | 0 <= i < |ls|
      ensures '\n' !in ls[i]
    {
      if es[i].Written? { NoNewline(es[i].rule, es[i].handle); }
    }
    LinesOfUnlines(ls);
    ReadEntries(es, ls);
  }

  // The same for the postrouting chain.

  predicate ValidMasqEntry(e: Entry) {
    match e
    case Noise(text) => '\n' !in text && !Contains(TrimSpace(text), "masquerade")
    case Written(indent, rule, handle) =>
      Printable(rule) && handle <= MAX_INT && AllIn(indent, SPACE) && '\n' !in indent
  }

  function MasqEntryText(e: Entry): string
    requires ValidMasqEntry(e)
  {
    match e
    case Noise(text) => text
    case Written(indent, rule, handle) => indent + (Shown(POST_PREFIX, PostRuleStmt(rule)) + Suffix(handle))
  }

  predicate ValidMasqListing(es: seq<Entry>) {
    forall i :: 0 <= i < |es| ==> ValidMasqEntry(es[i])
  }

  function MasqEntryTexts(es: seq<Entry>): (ls: seq<string>)
    requires ValidMasqListing(es)
    ensures |ls| == |es| && forall i :: 0 <= i < |es| ==> ls[i] == MasqEntryText(es[i])
  {
    seq(|es|, i requires 0 <= i < |es| => MasqEntryText(es[i]))
  }

  function MasqsIn(es: seq<Entry>): seq<F.Masq> {
    if es == [] then []
    else
      var n := |es| - 1;
      var rule := es[n];
      if rule.Written? then MasqsIn(es[..n]) + [F.Masq(rule.handle, rule.rule.dstIP, rule.rule.proto, rule.rule.dstPort)]
      else MasqsIn(es[..n])
  }

  lemma NoNewlineInMasq(r: F.Rule, handle: nat)
    requires Printable(r)
    ensures '\n' !in MasqText(r) + Suffix(handle)
  {
    assert '\n' !in Itoa(r.dstPort) && '\n' !in Itoa(handle);
    assert '\n' !in r.dstIP && '\n' !in r.proto;
    assert '\n' !in Dport(r.proto) + (Itoa(r.dstPort) + " masquerade");
    assert '\n' !in MasqText(r);
    assert '\n' !in Suffix(handle);
  }

  lemma {:induction false} ReadMasqEntries(es: seq<Entry>, ls: seq<string>)
    requires ValidMasqListing(es) && |ls| == |es| && forall i :: 0 <= i < |es| ==> ls[i] == MasqEntryText(es[i])
    ensures ReadMasqs(ls) == MasqsIn(es)
    decreases |es|
  {
    if es != [] {
      var n := |es| - 1;
      ReadMasqEntries(es[..n], ls[..n]);
      if es[n].Written? {
        var e := es[n];
        MasqRoundTrip(e.rule, e.handle, e.indent, "");
        assert MasqEntryText(e) + "" == MasqEntryText(e);
      }
    }
  }

  /** Reading the postrouting chain gives back exactly the masquerade rules written, in order, with their handles. */
  lemma {:induction false} MasqListingRoundTrip(es: seq<Entry>)
    requires es != [] && ValidMasqListing(es)
    ensures ReadMasqs(Lines(Unlines(MasqEntryTexts(es)))) == MasqsIn(es)
  {
    var ls := MasqEntryTexts(es);
    forall i | 0 <= i < |ls|
      ensures '\n' !in ls[i]
    {
      if es[i].Written? { NoNewlineInMasq(es[i].rule, es[i].handle); }
    }
    LinesOfUnlines(ls);
    ReadMasqEntries(es, ls);
  }
}
