/** ICMP echo packets (internal/agent/icmp_packet.go): the internet checksum of RFC 1071, and requests and
  * replies on the wire.
  */
module Icmp {
  import opened Wrappers

  type Byte = x: int | 0 <= x < 0x100
  type Uint16 = x: int | 0 <= x < 0x1_0000
  type Uint32 = x: int | 0 <= x < 0x1_0000_0000
  type Int64 = x: int | -0x8000_0000_0000_0000 <= x < 0x8000_0000_0000_0000

  const ECHO_REQUEST: Byte := 8
  const ECHO_REPLY: Byte := 0
  const HEADER_LEN := 8
  const PAYLOAD_LEN := 8

  // ---- the checksum of RFC 1071, section 1 ----

  function Word(hi: Byte, lo: Byte): Uint16 { (hi as int) * 0x100 + lo }

  /** Addition in ones' complement: a carry out of the top goes back in at the bottom. */
  function OnesAdd(a: Uint16, b: Uint16): Uint16 {
    if a + b < 0x1_0000 then a + b else a + b - 0xffff
  }

  /** The ones' complement sum of the 16-bit words of the data, padded with a zero byte to even length. */
  function OnesSum(b: seq<Byte>): Uint16 {
    if |b| == 0 then 0
    else if |b| == 1 then Word(b[0], 0)
    else OnesAdd(Word(b[0], b[1]), OnesSum(b[2..]))
  }

  /** The checksum as the standard defines it. */
  function Rfc1071(b: seq<Byte>): Uint16 { 0xffff - OnesSum(b) }

  // ---- the fast form ----

  /** The plain sum of the words. */
  function WordSum(b: seq<Byte>): nat {
    if |b| == 0 then 0
    else if |b| == 1 then Word(b[0], 0)
    else Word(b[0], b[1]) + WordSum(b[2..])
  }

  function Fold(sum: nat): (r: nat)
    ensures r < 0x1_0000
    decreases sum
  {
    if sum < 0x1_0000 then sum else Fold(sum / 0x1_0000 + sum % 0x1_0000)
  }

  /** The one number in 1 .. 65535, or zero for zero, that is the sum modulo 65535. */
  function Residue(sum: nat): nat {
    if sum == 0 then 0 else 1 + (sum - 1) % 0xffff
  }

  lemma ModStep(a: nat, k: nat)
    ensures (a + k * 0xffff) % 0xffff == a % 0xffff
  {
  }

  /** Folding keeps the sum modulo 65535, and does not turn a nonzero sum into zero. */
  lemma {:induction false} FoldIsResidue(sum: nat)
    ensures Fold(sum) == Residue(sum)
    decreases sum
  {
    if sum >= 0x1_0000 {
      var hi, lo := sum / 0x1_0000, sum % 0x1_0000;
      FoldIsResidue(hi + lo);
      assert sum - 1 == (hi + lo - 1) + hi * 0xffff;
      ModStep(hi + lo - 1, hi);
    }
  }

  lemma ResidueAdd(a: nat, b: nat)
    ensures Residue(a) < 0x1_0000 && Residue(b) < 0x1_0000
    ensures OnesAdd(Residue(a), Residue(b)) == Residue(a + b)
  {
    if a > 0 && b > 0 {
      var p, q := (a - 1) % 0xffff, (b - 1) % 0xffff;
      var k := (a - 1) / 0xffff + (b - 1) / 0xffff;
      assert a + b - 1 == p + q + 1 + k * 0xffff;
      ModStep(p + q + 1, k);
    }
  }

  lemma ResidueSmall(sum: nat)
    requires sum < 0x1_0000
    ensures Residue(sum) == sum
  {
  }

  lemma {:induction false} OnesSumIsResidue(b: seq<Byte>)
    ensures OnesSum(b) == Residue(WordSum(b))
    decreases |b|
  {
    if |b| >= 2 {
      OnesSumIsResidue(b[2..]);
      ResidueSmall(Word(b[0], b[1]));
      ResidueAdd(Word(b[0], b[1]), WordSum(b[2..]));
    } else if |b| == 1 {
      ResidueSmall(Word(b[0], 0));
    }
  }

  /** What a 32-bit accumulator makes of the sum. */
  function Wrapped(sum: nat): Uint32 { sum % 0x1_0000_0000 }

  /** What the program computes. */
  function FastChecksum(b: seq<Byte>): Uint16 { 0xffff - Fold(Wrapped(WordSum(b))) }

  lemma {:induction false} WordSumBound(b: seq<Byte>)
    ensures WordSum(b) <= (|b| + 1) / 2 * 0xffff
    decreases |b|
  {
    if |b| >= 2 {
      WordSumBound(b[2..]);
      assert (|b| + 1) / 2 == (|b[2..]| + 1) / 2 + 1;
    }
  }

  /** The fast form is the standard's checksum exactly while the plain sum fits 32 bits (for all sums that
    * fit 47, far beyond any packet). */
  lemma {:induction false} FastIsRfcIff(b: seq<Byte>)
    requires WordSum(b) < 0x1_0000_0000 * 0xffff
    ensures FastChecksum(b) == Rfc1071(b) <==> WordSum(b) < 0x1_0000_0000
  {
    var sum := WordSum(b);
    OnesSumIsResidue(b);
    FoldIsResidue(Wrapped(sum));
    var k, rest := sum / 0x1_0000_0000, sum % 0x1_0000_0000;
    assert sum == rest + k * 0x1_0000_0000;
    if k > 0 { WrapShowsUp(rest, k); }
  }

  /** Each wrap loses 2^32, which is 1 modulo 65535. */
  lemma WrapShowsUp(rest: nat, k: nat)
    requires 0 < k < 0xffff
    ensures Residue(rest) != Residue(rest + k * 0x1_0000_0000)
  {
    var sum := rest + k * 0x1_0000_0000;
    assert sum - 1 == (rest + k - 1) + k * 0x1_0001 * 0xffff;
    ModStep(rest + k - 1, k * 0x1_0001);
    assert (sum - 1) % 0xffff == (rest + k - 1) % 0xffff;
    if rest > 0 {
      var p := (rest - 1) % 0xffff;
      assert rest + k - 1 == (p + k) + (rest - 1) / 0xffff * 0xffff;
      ModStep(p + k, (rest - 1) / 0xffff);
    }
  }

  lemma ShortFits(b: seq<Byte>)
    requires |b| <= 131074
    ensures WordSum(b) < 0x1_0000_0000
  {
    WordSumBound(b);
    assert (|b| + 1) / 2 <= 65537;
  }

  /** So it is the standard's checksum on everything up to 131074 bytes. */
  lemma {:induction false} ShortIsRfc(b: seq<Byte>)
    requires |b| <= 131074
    ensures FastChecksum(b) == Rfc1071(b)
  {
    ShortFits(b);
    FastIsRfcIff(b);
  }

  lemma ShortIsResidue(b: seq<Byte>)
    requires |b| <= 131074
    ensures FastChecksum(b) == 0xffff - Residue(WordSum(b))
  {
    ShortIsRfc(b);
    OnesSumIsResidue(b);
  }

  function Ones(n: nat): (b: seq<Byte>)
    ensures |b| == n
  {
    seq(n, _ => 0xff)
  }

  lemma {:induction false} OnesWordSum(n: nat)
    ensures WordSum(Ones(n)) == n / 2 * 0xffff + n % 2 * 0xff00
  {
    if n >= 2 {
      assert Ones(n)[2..] == Ones(n - 2);
      OnesWordSum(n - 2);
    }
  }

  /** One byte more and it need not be. */
  lemma {:induction false} LongerIsNotRfc()
    ensures FastChecksum(Ones(131075)) != Rfc1071(Ones(131075))
  {
    OnesWordSum(131075);
    FastIsRfcIff(Ones(131075));
  }

  // ---- the accumulating loop ----

  /** The sum of the first n whole words. */
  function WordsTo(b: seq<Byte>, n: nat): nat
    requires 2 * n <= |b|
  {
    if n == 0 then 0 else WordsTo(b, n - 1) + Word(b[2 * n - 2], b[2 * n - 1])
  }

  lemma {:induction false} WordsSplit(b: seq<Byte>, n: nat)
    requires 2 * n <= |b|
    ensures WordSum(b) == WordsTo(b, n) + WordSum(b[2 * n..])
  {
    if n == 0 {
      assert b[0..] == b;
    } else {
      WordsSplit(b, n - 1);
      var rest := b[2 * n - 2..];
      assert rest[0] == b[2 * n - 2] && rest[1] == b[2 * n - 1] && rest[2..] == b[2 * n..];
    }
  }

  lemma WrappedAdd(a: nat, x: nat)
    ensures Wrapped(Wrapped(a) + x) == Wrapped(a + x)
  {
  }

  method SumWholeWords(b: seq<Byte>) returns (sum: Uint32, ghost n: nat)
    ensures |b| - 1 <= 2 * n <= |b|
    ensures sum == Wrapped(WordsTo(b, n))
  {
    sum, n := 0, 0;
    var i := 0;
    while i + 1 < |b|
      invariant i == 2 * n <= |b|
      invariant sum == Wrapped(WordsTo(b, n))
    {
      WrappedAdd(WordsTo(b, n), Word(b[i], b[i + 1]));
      sum := Wrapped(sum + Word(b[i], b[i + 1]));
      i, n := i + 2, n + 1;
    }
  }

  method SumWords(b: seq<Byte>) returns (sum: Uint32)
    ensures sum == Wrapped(WordSum(b))
  {
    ghost var n;
    sum, n := SumWholeWords(b);
    WordsSplit(b, n);
    if |b| % 2 == 1 {
      WrappedAdd(WordsTo(b, n), Word(b[|b| - 1], 0));
      sum := Wrapped(sum + Word(b[|b| - 1], 0));
    }
  }

  method FoldCarries(b: Uint32) returns (sum: Uint16)
    ensures sum == Fold(b)
  {
    var rest: Uint32 := b;
    while rest / 0x1_0000 != 0
      invariant Fold(rest) == Fold(b)
      decreases rest
    {
      rest := rest / 0x1_0000 + rest % 0x1_0000;
    }
    sum := rest;
  }

  method IcmpChecksum(b: seq<Byte>) returns (checksum: Uint16)
    ensures checksum == FastChecksum(b)
    ensures |b| <= 131074 ==> checksum == Rfc1071(b)
  {
    var sum := SumWords(b);
    var folded := FoldCarries(sum);
    checksum := 0xffff - folded;
    if |b| <= 131074 { ShortIsRfc(b); }
  }

  // ---- big-endian integers ----

  /** The lowest n bytes of v, most significant first. */
  function BigEndian(v: nat, n: nat): (b: seq<Byte>)
    ensures |b| == n
  {
    if n == 0 then [] else BigEndian(v / 0x100, n - 1) + [v % 0x100]
  }

  function FromBigEndian(b: seq<Byte>): nat {
    if b == [] then 0 else FromBigEndian(b[..|b| - 1]) * 0x100 + b[|b| - 1]
  }

  function Pow256(n: nat): (p: nat)
    ensures p > 0
  {
    if n == 0 then 1 else 0x100 * Pow256(n - 1)
  }

  lemma {:induction false} BigEndianRoundTrip(v: nat, n: nat)
    requires v < Pow256(n)
    ensures FromBigEndian(BigEndian(v, n)) == v
  {
    if n > 0 {
      BigEndianRoundTrip(v / 0x100, n - 1);
      var front := BigEndian(v / 0x100, n - 1);
      assert (front + [v % 0x100])[..n - 1] == front;
    }
  }

  /** `uint64(v)` of a signed number, and back. */
  function Unsigned(v: Int64): nat { if v < 0 then v + 0x1_0000_0000_0000_0000 else v }

  function Signed(v: nat): int { if v < 0x8000_0000_0000_0000 then v else v - 0x1_0000_0000_0000_0000 }

  lemma TimestampRoundTrip(v: Int64)
    ensures Signed(FromBigEndian(BigEndian(Unsigned(v), 8))) == v
  {
    assert Pow256(4) == 0x1_0000_0000;
    assert Pow256(8) == 0x1_0000_0000_0000_0000;
    BigEndianRoundTrip(Unsigned(v), 8);
  }

  // ---- packets ----

  /** An echo message: kind, code 0, checksum, id, sequence number, payload. */
  function Echo(kind: Byte, checksum: Uint16, id: Uint16, sequence: Uint16, payload: seq<Byte>): seq<Byte> {
    [kind, 0] + BigEndian(checksum, 2) + BigEndian(id, 2) + BigEndian(sequence, 2) + payload
  }

  lemma TwoBytes(v: Uint16)
    ensures BigEndian(v, 2) == [v / 0x100, v % 0x100] && Word(v / 0x100, v % 0x100) == v
  {
  }

  lemma WordParts(hi: Byte, lo: Byte)
    ensures Word(hi, lo) / 0x100 == hi && Word(hi, lo) % 0x100 == lo
  {
  }

  lemma FromTwoBytes(hi: Byte, lo: Byte)
    ensures BigEndian(Word(hi, lo), 2) == [hi, lo]
  {
    WordParts(hi, lo);
    TwoBytes(Word(hi, lo));
  }

  lemma {:induction false} FourBytesFirst(b: seq<Byte>)
    requires |b| >= 4
    ensures WordSum(b) == Word(b[0], b[1]) + Word(b[2], b[3]) + WordSum(b[4..])
  {
  }

  /** What follows the checksum of an echo message. */
  function Rest(id: Uint16, sequence: Uint16, payload: seq<Byte>): seq<Byte> {
    BigEndian(id, 2) + BigEndian(sequence, 2) + payload
  }

  lemma EchoWordSum(kind: Byte, checksum: Uint16, id: Uint16, sequence: Uint16, payload: seq<Byte>)
    ensures WordSum(Echo(kind, checksum, id, sequence, payload)) ==
            Word(kind, 0) + checksum + WordSum(Rest(id, sequence, payload))
  {
    var b := Echo(kind, checksum, id, sequence, payload);
    TwoBytes(checksum);
    assert b[4..] == Rest(id, sequence, payload);
    FourBytesFirst(b);
  }

  lemma Complement(sum: nat)
    ensures Residue(sum) <= 0xffff && Residue(sum + (0xffff - Residue(sum))) == 0xffff
  {
    if sum > 0 {
      var k := (sum - 1) / 0xffff;
      assert sum + 0xffff - Residue(sum) == (k + 1) * 0xffff;
      assert (k + 1) * 0xffff - 1 == 0xfffe + k * 0xffff;
      ModStep(0xfffe, k);
    }
  }

  /** A message that carries its own checksum sums to a checksum of zero. */
  lemma {:induction false} ChecksumCancels(kind: Byte, id: Uint16, sequence: Uint16, payload: seq<Byte>)
    requires HEADER_LEN + |payload| <= 131074
    ensures var c := FastChecksum(Echo(kind, 0, id, sequence, payload));
            FastChecksum(Echo(kind, c, id, sequence, payload)) == 0
  {
    var blank := Echo(kind, 0, id, sequence, payload);
    var c := FastChecksum(blank);
    var full := Echo(kind, c, id, sequence, payload);
    ShortIsResidue(blank);
    ShortIsResidue(full);
    EchoWordSum(kind, 0, id, sequence, payload);
    EchoWordSum(kind, c, id, sequence, payload);
    Complement(WordSum(blank));
  }

  // ---- building a request ----

  method PutUint16(pkt: array<Byte>, at: nat, v: Uint16)
    requires at + 2 <= pkt.Length
    modifies pkt
    ensures pkt[..] == old(pkt[..at]) + BigEndian(v, 2) + old(pkt[at + 2..])
  {
    pkt[at] := v / 0x100;
    pkt[at + 1] := v % 0x100;
    TwoBytes(v);
  }

  method PutUint64(pkt: array<Byte>, at: nat, v: nat)
    requires at + 8 <= pkt.Length
    modifies pkt
    ensures pkt[..] == old(pkt[..at]) + BigEndian(v, 8) + old(pkt[at + 8..])
  {
    var rest, n := v, 8;
    assert BigEndian(rest, 8) + [] == BigEndian(v, 8);
    while n > 0
      invariant 0 <= n <= 8
      invariant pkt[..at] == old(pkt[..at]) && pkt[at + 8..] == old(pkt[at + 8..])
      invariant BigEndian(rest, n) + pkt[at + n..at + 8] == BigEndian(v, 8)
    {
      ghost var tail := pkt[at + n..at + 8];
      pkt[at + n - 1] := rest % 0x100;
      assert pkt[at + n - 1..at + 8] == [rest % 0x100] + tail;
      AppendAssociates(BigEndian(rest / 0x100, n - 1), [rest % 0x100], tail);
      rest, n := rest / 0x100, n - 1;
    }
    assert pkt[..] == pkt[..at] + pkt[at..at + 8] + pkt[at + 8..];
  }

  method PutRequest(pkt: array<Byte>, id: Uint16, sequence: Uint16, payload: nat)
    requires pkt.Length == HEADER_LEN + PAYLOAD_LEN && forall k :: 0 <= k < pkt.Length ==> pkt[k] == 0
    modifies pkt
    ensures pkt[..] == Echo(ECHO_REQUEST, 0, id, sequence, BigEndian(payload, PAYLOAD_LEN))
  {
    pkt[0] := ECHO_REQUEST;
    pkt[1] := 0;
    PutUint16(pkt, 4, id);
    PutUint16(pkt, 6, sequence);
    PutUint64(pkt, HEADER_LEN, payload);
    TwoBytes(0);
  }

  method BuildICMPEchoRequest(id: Uint16, sequence: Uint16, sentNano: Int64) returns (pkt: array<Byte>)
    ensures fresh(pkt) && FastChecksum(pkt[..]) == 0
    ensures var payload := BigEndian(Unsigned(sentNano), PAYLOAD_LEN);
            pkt[..] == Echo(ECHO_REQUEST, FastChecksum(Echo(ECHO_REQUEST, 0, id, sequence, payload)), id, sequence, payload)
  {
    pkt := new Byte[HEADER_LEN + PAYLOAD_LEN](_ => 0);
    ghost var payload := BigEndian(Unsigned(sentNano), PAYLOAD_LEN);
    PutRequest(pkt, id, sequence, Unsigned(sentNano));
    var checksum := IcmpChecksum(pkt[..]);
    PutUint16(pkt, 2, checksum);
    FillChecksum(ECHO_REQUEST, checksum, id, sequence, payload);
    ChecksumCancels(ECHO_REQUEST, id, sequence, payload);
  }

  lemma FillChecksum(kind: Byte, checksum: Uint16, id: Uint16, sequence: Uint16, payload: seq<Byte>)
    ensures var blank := Echo(kind, 0, id, sequence, payload);
            |blank| >= 4 && blank[..2] + BigEndian(checksum, 2) + blank[4..] == Echo(kind, checksum, id, sequence, payload)
  {
  }

  // ---- finding a reply ----

  datatype EchoReply = EchoReply(id: Uint16, sequence: Uint16, payload: seq<Byte>)

  function ParseReply(pkt: seq<Byte>): Option<EchoReply> {
    if |pkt| < HEADER_LEN + PAYLOAD_LEN then None
    else if pkt[0] != ECHO_REPLY then None
    else Some(EchoReply(Word(pkt[4], pkt[5]), Word(pkt[6], pkt[7]), pkt[HEADER_LEN..HEADER_LEN + PAYLOAD_LEN]))
  }

  function FindEchoReply(pkt: seq<Byte>): Option<EchoReply> {
    if |pkt| >= 20 && pkt[0] / 0x10 == 4 then
      var ihl := pkt[0] % 0x10 * 4;
      if ihl < 20 || |pkt| < ihl + HEADER_LEN then None else ParseReply(pkt[ihl..])
    else ParseReply(pkt)
  }

  /** Nothing, or an IPv4 header of the length it declares (RFC 791, section 3.1). */
  predicate Envelope(header: seq<Byte>) {
    header == [] || (|header| >= 20 && header[0] / 0x10 == 4 && |header| == header[0] % 0x10 * 4)
  }

  lemma ParseEcho(checksum: Uint16, r: EchoReply, tail: seq<Byte>)
    requires |r.payload| == PAYLOAD_LEN
    ensures ParseReply(Echo(ECHO_REPLY, checksum, r.id, r.sequence, r.payload) + tail) == Some(r)
  {
    TwoBytes(checksum);
    TwoBytes(r.id);
    TwoBytes(r.sequence);
    var pkt := Echo(ECHO_REPLY, checksum, r.id, r.sequence, r.payload) + tail;
    assert pkt[HEADER_LEN..HEADER_LEN + PAYLOAD_LEN] == r.payload;
  }

  /** A reply is found with or without an IPv4 header in front and whatever follows it. */
  lemma {:induction false} FindsReply(header: seq<Byte>, checksum: Uint16, r: EchoReply, tail: seq<Byte>)
    requires Envelope(header) && |r.payload| == PAYLOAD_LEN
    ensures FindEchoReply(header + (Echo(ECHO_REPLY, checksum, r.id, r.sequence, r.payload) + tail)) == Some(r)
  {
    var body := Echo(ECHO_REPLY, checksum, r.id, r.sequence, r.payload) + tail;
    ParseEcho(checksum, r, tail);
    assert (header + body)[|header|..] == body;
    assert header == [] ==> header + body == body;
  }

  lemma ParsedIsEcho(body: seq<Byte>)
    requires ParseReply(body).Some?
    ensures |body| >= HEADER_LEN + PAYLOAD_LEN && |ParseReply(body).value.payload| == PAYLOAD_LEN
    ensures var r := ParseReply(body).value;
            body[..HEADER_LEN + PAYLOAD_LEN] ==
            Echo(ECHO_REPLY, Word(body[2], body[3]), r.id, r.sequence, r.payload)[1 := body[1]]
  {
    FromTwoBytes(body[2], body[3]);
    FromTwoBytes(body[4], body[5]);
    FromTwoBytes(body[6], body[7]);
  }

  /** And nothing else is taken for one: only the code byte is not looked at. */
  lemma {:induction false} FoundIsReply(pkt: seq<Byte>)
    returns (header: seq<Byte>, code: Byte, checksum: Uint16, tail: seq<Byte>)
    requires FindEchoReply(pkt).Some?
    ensures Envelope(header) && |FindEchoReply(pkt).value.payload| == PAYLOAD_LEN
    ensures var r := FindEchoReply(pkt).value;
            pkt == header + (Echo(ECHO_REPLY, checksum, r.id, r.sequence, r.payload)[1 := code] + tail)
  {
    var ihl := if |pkt| >= 20 && pkt[0] / 0x10 == 4 then pkt[0] % 0x10 * 4 else 0;
    header := pkt[..ihl];
    var body := pkt[ihl..];
    assert ihl == 0 ==> body == pkt;
    ParsedIsEcho(body);
    code, checksum, tail := body[1], Word(body[2], body[3]), body[HEADER_LEN + PAYLOAD_LEN..];
    assert body == body[..HEADER_LEN + PAYLOAD_LEN] + tail;
    assert pkt == header + body;
  }

  /** The answer to a request carries back its id, its sequence number and the time it was sent. */
  lemma {:induction false} ReplyAnswersRequest(header: seq<Byte>, checksum: Uint16, id: Uint16, sequence: Uint16,
                                                 sentNano: Int64, tail: seq<Byte>)
    requires Envelope(header)
    ensures var reply := Echo(ECHO_REPLY, checksum, id, sequence, BigEndian(Unsigned(sentNano), PAYLOAD_LEN));
            var found := FindEchoReply(header + (reply + tail));
            && found.Some? && found.value.id == id && found.value.sequence == sequence
            && Signed(FromBigEndian(found.value.payload)) == sentNano
  {
    FindsReply(header, checksum, EchoReply(id, sequence, BigEndian(Unsigned(sentNano), PAYLOAD_LEN)), tail);
    TimestampRoundTrip(sentNano);
  }
}
