/** Machine words and their byte order on the wire and in memory.

    The agent runs on a little-endian host: `htons`, `htonl` and their inverses swap, while an
    IPv4 address is kept in network order and copied to the wire unswapped. */
module Bytes {

  type byte = n: nat | n < 0x100
  type u16 = n: nat | n < 0x1_0000
  type u32 = n: nat | n < 0x1_0000_0000

  const WORD32: nat := 0x1_0000_0000

  /** `htons` followed by a copy: the most significant byte first. */
  function Net16(n: u16): (s: seq<byte>)
    ensures |s| == 2
  {
    [n / 0x100, n % 0x100]
  }

  function FromNet16(s: seq<byte>): u16
    requires |s| == 2
  {
    var hi: int, lo: int := s[0], s[1];
    hi * 0x100 + lo
  }

  /** `htonl` followed by a copy. */
  function Net32(n: u32): (s: seq<byte>)
    ensures |s| == 4
  {
    Net16(n / 0x1_0000) + Net16(n % 0x1_0000)
  }

  function FromNet32(s: seq<byte>): u32
    requires |s| == 4
  {
    var hi: int, lo: int := FromNet16(s[..2]), FromNet16(s[2..]);
    hi * 0x1_0000 + lo
  }

  /** A copy of a word as it lies in memory: the least significant byte first. */
  function Host16(n: u16): (s: seq<byte>)
    ensures |s| == 2
  {
    [n % 0x100, n / 0x100]
  }

  function FromHost16(s: seq<byte>): u16
    requires |s| == 2
  {
    var lo: int, hi: int := s[0], s[1];
    lo + hi * 0x100
  }

  function Host32(n: u32): (s: seq<byte>)
    ensures |s| == 4
  {
    Host16(n % 0x1_0000) + Host16(n / 0x1_0000)
  }

  function FromHost32(s: seq<byte>): u32
    requires |s| == 4
  {
    var lo: int, hi: int := FromHost16(s[..2]), FromHost16(s[2..]);
    lo + hi * 0x1_0000
  }

  /** The value read when a word stored in one byte order is loaded in the other. */
  function Swap32(n: u32): u32 {
    FromNet32(Host32(n))
  }

  lemma Net16RoundTrip(n: u16)
    ensures FromNet16(Net16(n)) == n
  {
  }

  lemma Net16Inverse(s: seq<byte>)
    requires |s| == 2
    ensures Net16(FromNet16(s)) == s
  {
  }

  lemma Net32RoundTrip(n: u32)
    ensures FromNet32(Net32(n)) == n
  {
    var s := Net32(n);
    assert s[..2] == Net16(n / 0x1_0000) && s[2..] == Net16(n % 0x1_0000);
  }

  lemma Host32RoundTrip(n: u32)
    ensures FromHost32(Host32(n)) == n
  {
    var s := Host32(n);
    assert s[..2] == Host16(n % 0x1_0000) && s[2..] == Host16(n / 0x1_0000);
  }

  lemma Net32Inverse(s: seq<byte>)
    requires |s| == 4
    ensures Net32(FromNet32(s)) == s
  {
    var hi, lo := FromNet16(s[..2]), FromNet16(s[2..]);
    assert FromNet32(s) / 0x1_0000 == hi && FromNet32(s) % 0x1_0000 == lo;
    assert Net16(hi) == s[..2] && Net16(lo) == s[2..];
  }

  /** Loading in the wrong order is harmless exactly for words whose bytes read the same both ways. */
  lemma SwapFixedPoints(n: u32)
    ensures Swap32(n) == n <==> Host32(n) == Net32(n)
  {
    Net32Inverse(Host32(n));
    Net32RoundTrip(n);
  }

  predicate LiesAt(packet: seq<byte>, at: nat, piece: seq<byte>) {
    at + |piece| <= |packet| && packet[at..at + |piece|] == piece
  }

  lemma PartsLie(packet: seq<byte>, at: nat, a: seq<byte>, b: seq<byte>)
    requires LiesAt(packet, at, a + b)
    ensures LiesAt(packet, at, a) && LiesAt(packet, at + |a|, b)
  {
    var all := a + b;
    assert a == all[..|a|] && b == all[|a|..];
    assert packet[at..at + |all|][..|a|] == packet[at..at + |a|];
    assert packet[at..at + |all|][|a|..] == packet[at + |a|..at + |a| + |b|];
  }

  function Pow2(n: nat): (p: nat)
    ensures p >= 1
  {
    if n == 0 then 1 else 2 * Pow2(n - 1)
  }

  lemma {:induction false} Pow2Monotone(a: nat, b: nat)
    requires a <= b
    ensures Pow2(a) <= Pow2(b)
    decreases b
  {
    if a != b { Pow2Monotone(a, b - 1); }
  }
}
