/** The RSVP common header and its one's-complement checksum (section 3.1.1 of RFC 2205, RFC 1071):
    `make_rsvp_packet` on the way out, `parse_headers` behind an IP header on the way in. */
module Headers {
  import opened Bytes

  const ERROR_SIZE_NOT_4: int := -19
  const ERROR_CHECKSUM: int := -21
  const HEADER_SIZE: nat := 8

  /** The sum of the big-endian 16-bit words of a buffer; an odd last byte is not summed. */
  function WordSum(s: seq<byte>): nat {
    if |s| < 2 then 0 else FromNet16(s[..2]) + WordSum(s[2..])
  }

  /** What folding the carries of a 32-bit sum leaves: its residue modulo 65535, where only zero folds to zero. */
  function Folded(s: nat): u16 {
    if s == 0 then 0 else (s - 1) % 0xffff + 1
  }

  /** The receiver's test: the sum, as an `unsigned int` holds it, folds to 0xffff. */
  predicate Accepted(packet: seq<byte>) {
    Folded(WordSum(packet) % WORD32) == 0xffff
  }

  function HeaderTail(length: nat): (h: seq<byte>)
    ensures |h| == 4
  {
    [255, 0] + Net16(length % 0x1_0000)
  }

  function Header(msgType: byte, checksum: u16, length: nat): (h: seq<byte>)
    ensures |h| == HEADER_SIZE
  {
    [0x10, msgType] + Net16(checksum) + HeaderTail(length)
  }

  function UncheckedSum(body: seq<byte>, msgType: byte): u32 {
    WordSum(Header(msgType, 0, |body| + HEADER_SIZE) + body) % WORD32
  }

  function Checksum(body: seq<byte>, msgType: byte): u16 {
    0xffff - Folded(UncheckedSum(body, msgType))
  }

  /** The packet as it leaves the agent. */
  function RsvpPacket(body: seq<byte>, msgType: byte): (packet: seq<byte>)
    ensures |packet| == |body| + HEADER_SIZE
  {
    Header(msgType, Checksum(body, msgType), |body| + HEADER_SIZE) + body
  }

  // ---- The two loops both ends share

  lemma {:induction false} WordSumConcat(a: seq<byte>, b: seq<byte>)
    requires |a| % 2 == 0
    ensures WordSum(a + b) == WordSum(a) + WordSum(b)
  {
    if a == [] {
      assert a + b == b;
    } else {
      assert (a + b)[2..] == a[2..] + b && (a + b)[..2] == a[..2];
      WordSumConcat(a[2..], b);
    }
  }

  lemma {:induction false} WordSumBound(s: seq<byte>)
    ensures WordSum(s) <= |s| / 2 * 0xffff
  {
    if |s| >= 2 {
      WordSumBound(s[2..]);
      assert |s| / 2 == |s[2..]| / 2 + 1;
    }
  }

  lemma WordSumWord(w: u16)
    ensures WordSum(Net16(w)) == w
  {
    assert Net16(w)[2..] == [];
    assert Net16(w)[..2] == Net16(w);
    Net16RoundTrip(w);
  }

  lemma SumAround(a: seq<byte>, w: u16, b: seq<byte>)
    requires |a| % 2 == 0
    ensures WordSum(a + Net16(w) + b) == WordSum(a) + w + WordSum(b)
  {
    WordSumConcat(a + Net16(w), b);
    WordSumConcat(a, Net16(w));
    WordSumWord(w);
  }

  lemma SumStep(s: seq<byte>, i: nat, j: nat)
    requires i <= j && j + 2 <= |s| && (j - i) % 2 == 0
    ensures WordSum(s[i..j + 2]) == WordSum(s[i..j]) + FromNet16(s[j..j + 2])
  {
    assert s[i..j + 2] == s[i..j] + s[j..j + 2];
    WordSumConcat(s[i..j], s[j..j + 2]);
    assert s[j..j + 2][..2] == s[j..j + 2];
  }

  lemma SumRest(s: seq<byte>, i: nat, j: nat)
    requires i <= j <= |s| <= j + 1 && (j - i) % 2 == 0
    ensures WordSum(s[i..j]) == WordSum(s[i..])
  {
    assert s[i..] == s[i..j] + s[j..];
    WordSumConcat(s[i..j], s[j..]);
  }

  lemma CarryLost(a: nat, w: nat)
    ensures (a % WORD32 + w) % WORD32 == (a + w) % WORD32
  {
  }

  lemma SumTurn(buffer: seq<byte>, offset: nat, at: nat, s: u32)
    requires offset <= at && at + 2 <= |buffer| && (at - offset) % 2 == 0 && s == WordSum(buffer[offset..at]) % WORD32
    ensures (s + FromNet16(buffer[at..at + 2])) % WORD32 == WordSum(buffer[offset..at + 2]) % WORD32
  {
    SumStep(buffer, offset, at);
    CarryLost(WordSum(buffer[offset..at]), FromNet16(buffer[at..at + 2]));
  }

  /** The summing loop of either end, from `offset` bytes into the buffer. */
  method SumWords(buffer: seq<byte>, offset: nat) returns (s: u32)
    requires offset <= |buffer|
    ensures s == WordSum(buffer[offset..]) % WORD32
  {
    assert WordSum(buffer[offset..offset]) == 0;
    hide WordSum;
    s := 0;
    var x := 0;
    while x < (|buffer| - offset) / 2
      invariant 0 <= x <= (|buffer| - offset) / 2
      invariant s == WordSum(buffer[offset..offset + 2 * x]) % WORD32
    {
      var at := offset + 2 * x;
      SumTurn(buffer, offset, at, s);
      s := (s + FromNet16(buffer[at..at + 2])) % WORD32;
      x := x + 1;
    }
    SumRest(buffer, offset, offset + 2 * x);
  }

  method FoldCarries(sum: u32) returns (s: u16)
    ensures s == Folded(sum)
  {
    var n: nat := sum;
    while n > 0xffff
      invariant Folded(n) == Folded(sum)
    {
      FoldStep(n);
      n := n / 0x1_0000 % 0x1_0000 + n % 0x1_0000;
    }
    s := n;
  }

  lemma FoldStep(n: nat)
    requires 0xffff < n < WORD32
    ensures 0 < n / 0x1_0000 % 0x1_0000 + n % 0x1_0000 < n
    ensures Folded(n / 0x1_0000 % 0x1_0000 + n % 0x1_0000) == Folded(n)
  {
    var hi, lo := n / 0x1_0000, n % 0x1_0000;
    assert n - 1 == 0xffff * hi + (hi + lo - 1);
    ModMultiple(hi + lo - 1, hi);
  }

  lemma ModMultiple(x: int, k: int)
    ensures (x + 0xffff * k) % 0xffff == x % 0xffff
  {
  }

  // ---- The two ends

  /** `make_rsvp_packet`: the header is laid out with an empty checksum field, summed, then patched. */
  method MakeRsvpPacket(body: seq<byte>, msgType: byte) returns (code: int, packet: seq<byte>)
    ensures |body| % 4 != 0 ==> code == ERROR_SIZE_NOT_4 && packet == body
    ensures |body| % 4 == 0 ==> code == |packet| && packet == RsvpPacket(body, msgType)
  {
    if |body| % 4 != 0 {
      return ERROR_SIZE_NOT_4, body;
    }
    var length := Net16((|body| + HEADER_SIZE) % 0x1_0000);
    packet := [0x10, msgType, 0, 0, 255, 0, length[0], length[1]] + body;
    HeaderBytes(packet, body, msgType, 0);
    var s := SumWords(packet, 0);
    assert packet[0..] == packet;
    var folded := FoldCarries(s);
    var checksum := Net16(0xffff - folded);
    packet := packet[2 := checksum[0]];
    packet := packet[3 := checksum[1]];
    HeaderBytes(packet, body, msgType, 0xffff - folded);
    code := |packet|;
  }

  lemma HeaderBytes(packet: seq<byte>, body: seq<byte>, msgType: byte, checksum: u16)
    requires |packet| == |body| + HEADER_SIZE && packet[HEADER_SIZE..] == body
    requires packet[0] == 0x10 && packet[1] == msgType && packet[4] == 255 && packet[5] == 0
    requires [packet[2], packet[3]] == Net16(checksum)
    requires [packet[6], packet[7]] == Net16(|packet| % 0x1_0000)
    ensures packet == Header(msgType, checksum, |packet|) + body
  {
    var header := Header(msgType, checksum, |packet|);
    assert header == [packet[0], packet[1], packet[2], packet[3], packet[4], packet[5], packet[6], packet[7]];
    assert packet == packet[..HEADER_SIZE] + packet[HEADER_SIZE..];
    assert packet[..HEADER_SIZE] == header;
  }

  function IpHeaderLength(buffer: seq<byte>): nat
    requires |buffer| > 0
  {
    buffer[0] % 0x10 * 4
  }

  const IP_HEADER_SIZE: nat := 20

  /** Too short for an IP header, for the one it declares, or for a common header although its sum is right. */
  predicate TooShort(buffer: seq<byte>) {
    || |buffer| < IP_HEADER_SIZE
    || IpHeaderLength(buffer) > |buffer| + 1
    || (IpHeaderLength(buffer) <= |buffer| &&
        var packet := buffer[IpHeaderLength(buffer)..]; Accepted(packet) && |packet| < HEADER_SIZE)
  }

  /** `parse_headers`, which does not look at the size of what it is given: `overran` says that it reads past the end.
      One byte short of the declared IP header, the word count is -1 / 2, which truncates to none. */
  method ParseHeaders(buffer: seq<byte>) returns (overran: bool, code: int, body: seq<byte>)
    ensures overran <==> TooShort(buffer)
    ensures !overran ==>
      if IpHeaderLength(buffer) > |buffer| then code == ERROR_CHECKSUM && body == buffer
      else
        var packet := buffer[IpHeaderLength(buffer)..];
        if Accepted(packet) then |packet| >= HEADER_SIZE && code == packet[1] && body == packet[HEADER_SIZE..]
        else code == ERROR_CHECKSUM && body == buffer
  {
    overran, code, body := false, ERROR_CHECKSUM, buffer;
    if |buffer| < IP_HEADER_SIZE {
      overran := true;
      return;
    }
    var ihlen := IpHeaderLength(buffer);
    if ihlen > |buffer| {
      overran := ihlen > |buffer| + 1;
      return;
    }
    var s := SumWords(buffer, ihlen);
    var folded := FoldCarries(s);
    if folded != 0xffff {
      return;
    }
    if ihlen + HEADER_SIZE > |buffer| {
      overran := true;
      return;
    }
    code := buffer[ihlen + 1];
    body := buffer[ihlen + HEADER_SIZE..];
    assert buffer[ihlen..][HEADER_SIZE..] == body;
  }

  // ---- What the pair promises

  lemma {:induction false} PatchedSum(body: seq<byte>, msgType: byte)
    ensures WordSum(RsvpPacket(body, msgType)) ==
            WordSum(Header(msgType, 0, |body| + HEADER_SIZE) + body) + Checksum(body, msgType)
  {
    var tail := HeaderTail(|body| + HEADER_SIZE) + body;
    SplitAtChecksum(body, msgType, 0);
    SplitAtChecksum(body, msgType, Checksum(body, msgType));
    SumAround([0x10, msgType], 0, tail);
    SumAround([0x10, msgType], Checksum(body, msgType), tail);
  }

  lemma SplitAtChecksum(body: seq<byte>, msgType: byte, w: u16)
    ensures Header(msgType, w, |body| + HEADER_SIZE) + body
            == [0x10, msgType] + Net16(w) + (HeaderTail(|body| + HEADER_SIZE) + body)
  {
  }

  lemma FoldedComplement(s: nat, c: nat)
    requires s > 0 && c == 0xffff - Folded(s)
    ensures Folded(s + c) == 0xffff
    ensures s + c >= WORD32 ==> Folded(s + c - WORD32) != 0xffff
  {
    var q := (s - 1) / 0xffff;
    assert s - 1 == 0xffff * q + (s - 1) % 0xffff;
    assert s + c == 0xffff * (q + 1);
    ModMultiple(-1, q + 1);
    if s + c >= WORD32 {
      ModMultiple(-2, q + 1 - 0x1_0001);
      assert s + c - WORD32 - 1 == -2 + 0xffff * (q + 1 - 0x1_0001);
    }
  }

  /** The sum of a packet fits an `unsigned int` up to 65537 words, eight times the agent's buffer. */
  predicate SumFits(body: seq<byte>) {
    |body| + HEADER_SIZE <= 2 * 0x1_0001
  }

  /** The receiver accepts its peer's packet exactly when adding the checksum does not carry out of the
      32-bit accumulator. */
  lemma AcceptedExactly(body: seq<byte>, msgType: byte)
    ensures Accepted(RsvpPacket(body, msgType)) <==> UncheckedSum(body, msgType) + Checksum(body, msgType) < WORD32
  {
    PatchedSum(body, msgType);
    var total := WordSum(Header(msgType, 0, |body| + HEADER_SIZE) + body);
    var s, c := UncheckedSum(body, msgType), Checksum(body, msgType);
    if s == 0 {
      assert (total + c) % WORD32 == c;
    } else {
      FoldedComplement(s, c);
      assert (total + c) % WORD32 == if s + c < WORD32 then s + c else s + c - WORD32;
    }
  }

  lemma AcceptedWhenSumFits(body: seq<byte>, msgType: byte)
    requires SumFits(body)
    ensures Accepted(RsvpPacket(body, msgType))
    ensures 0 < WordSum(RsvpPacket(body, msgType)) < WORD32
  {
    AcceptedExactly(body, msgType);
    PatchedSum(body, msgType);
    WordSumBound(RsvpPacket(body, msgType));
    WordSumBound(Header(msgType, 0, |body| + HEADER_SIZE) + body);
    var packet := RsvpPacket(body, msgType);
    assert packet == packet[..2] + packet[2..];
    assert packet[..2] == [0x10, msgType];
    WordSumConcat(packet[..2], packet[2..]);
    assert WordSum([0x10, msgType]) >= 0x1000 by { assert [0x10, msgType][..2] == [0x10, msgType]; }
  }

  /** Behind any IP header the receiver recovers the sender's message type and objects. */
  lemma HeadersRoundTrip(ip: seq<byte>, body: seq<byte>, msgType: byte)
    requires |ip| >= 20 && |ip| == ip[0] % 0x10 * 4
    requires SumFits(body)
    ensures var buffer := ip + RsvpPacket(body, msgType);
      var packet := buffer[IpHeaderLength(buffer)..];
      Accepted(packet) && packet[1] == msgType && packet[HEADER_SIZE..] == body
  {
    var buffer := ip + RsvpPacket(body, msgType);
    assert buffer[IpHeaderLength(buffer)..] == RsvpPacket(body, msgType);
    AcceptedWhenSumFits(body, msgType);
    assert RsvpPacket(body, msgType)[HEADER_SIZE..] == body;
  }

  function WithWord(packet: seq<byte>, i: nat, w: u16): (r: seq<byte>)
    requires 2 * i + 2 <= |packet|
    ensures |r| == |packet|
  {
    packet[..2 * i] + Net16(w) + packet[2 * i + 2..]
  }

  lemma SplitAtWord(packet: seq<byte>, i: nat)
    requires 2 * i + 2 <= |packet|
    ensures packet == packet[..2 * i] + Net16(FromNet16(packet[2 * i..2 * i + 2])) + packet[2 * i + 2..]
  {
    Net16Inverse(packet[2 * i..2 * i + 2]);
  }

  lemma {:induction false} WithWordSum(packet: seq<byte>, i: nat, w: u16)
    requires 2 * i + 2 <= |packet|
    ensures WordSum(WithWord(packet, i, w)) == WordSum(packet) - FromNet16(packet[2 * i..2 * i + 2]) + w
  {
    var v, tampered := FromNet16(packet[2 * i..2 * i + 2]), WithWord(packet, i, w);
    SplitAtWord(packet, i);
    SumsDiffer(i, packet[..2 * i], packet[2 * i + 2..], packet, tampered, v, w);
  }

  lemma SumsDiffer(i: nat, a: seq<byte>, b: seq<byte>, s: seq<byte>, t: seq<byte>, v: u16, w: u16)
    requires |a| == 2 * i && s == a + Net16(v) + b && t == a + Net16(w) + b
    ensures WordSum(t) == WordSum(s) - v + w
  {
    SumAround(a, v, b);
    SumAround(a, w, b);
  }

  /** Overwriting one word of a packet goes unnoticed exactly when the new word is congruent to the old
      one modulo 65535. */
  lemma TamperDetected(body: seq<byte>, msgType: byte, i: nat, w: u16)
    requires SumFits(body) && 2 * i + 2 <= |body| + HEADER_SIZE
    ensures var packet := RsvpPacket(body, msgType);
      Accepted(WithWord(packet, i, w)) <==> (w - FromNet16(packet[2 * i..2 * i + 2])) % 0xffff == 0
  {
    var packet := RsvpPacket(body, msgType);
    AcceptedWhenSumFits(body, msgType);
    WithWordSum(packet, i, w);
    WordSumBound(WithWord(packet, i, w));
    assert [packet[0], packet[1]] == [0x10, msgType];
    TamperedFold(packet, i, w);
  }

  lemma {:induction false} TamperedFold(packet: seq<byte>, i: nat, w: u16)
    requires 2 * i + 2 <= |packet| && packet[0] == 0x10
    requires 0 < WordSum(packet) < WORD32 && Accepted(packet)
    requires WordSum(WithWord(packet, i, w)) < WORD32
    ensures Accepted(WithWord(packet, i, w)) <==> (w - FromNet16(packet[2 * i..2 * i + 2])) % 0xffff == 0
  {
    var v, sum := FromNet16(packet[2 * i..2 * i + 2]), WordSum(packet);
    var tampered := WithWord(packet, i, w);
    WithWordSum(packet, i, w);
    AcceptedBelow(packet);
    AcceptedBelow(tampered);
    if sum - v + w > 0 {
      SameResidueAccepted(sum, v, w);
    } else if i == 0 {
      FirstWord(packet);
      assert false;
    } else {
      FirstWordPositive(packet, tampered);
    }
  }

  lemma AcceptedBelow(packet: seq<byte>)
    requires WordSum(packet) < WORD32
    ensures Accepted(packet) <==> Folded(WordSum(packet)) == 0xffff
  {
  }

  lemma FirstWord(packet: seq<byte>)
    requires |packet| >= 2 && packet[0] == 0x10
    ensures FromNet16(packet[0..2]) / 0x100 == 0x10
  {
  }

  lemma SameResidueAccepted(sum: nat, v: u16, w: u16)
    requires 0 < sum < WORD32 && Folded(sum) == 0xffff
    requires 0 < sum - v + w < WORD32
    ensures Folded(sum - v + w) == 0xffff <==> (w - v) % 0xffff == 0
  {
    FoldsToOnes(sum);
    DifferenceResidue(sum, w - v);
    FoldsToOnes(sum - v + w);
  }

  lemma FirstWordPositive(packet: seq<byte>, tampered: seq<byte>)
    requires |packet| == |tampered| >= 2 && packet[0] == tampered[0] == 0x10
    ensures WordSum(tampered) > 0
  {
    assert tampered == tampered[..2] + tampered[2..];
  }

  lemma FoldsToOnes(s: nat)
    requires s > 0
    ensures Folded(s) == 0xffff <==> s % 0xffff == 0
  {
    var q := (s - 1) / 0xffff;
    assert s == 0xffff * q + (s - 1) % 0xffff + 1;
    ModMultiple((s - 1) % 0xffff + 1, q);
  }

  lemma DifferenceResidue(s: int, d: int)
    requires s % 0xffff == 0
    ensures (s + d) % 0xffff == 0 <==> d % 0xffff == 0
  {
    ModMultiple(d, s / 0xffff);
  }
}
