/** The bit-field packer of `floatformat.cpp`: `put_field` and `get_field` address a field by its distance
    from the most significant bit of a buffer stored in either byte order. */
module BitField {
  import opened Bytes

  datatype ByteOrder = Big | Little

  // ---- Shifts and masks

  function Shr(n: nat, s: nat): nat {
    if s == 0 then n else Shr(n / 2, s - 1)
  }

  function Shl(n: nat, s: nat): nat {
    if s == 0 then n else 2 * Shl(n, s - 1)
  }

  /** `n & ((1 << w) - 1)` */
  function Low(n: nat, w: nat): nat {
    if w == 0 then 0 else n % 2 + 2 * Low(n / 2, w - 1)
  }

  /** Bit `i` of a number, counted from the least significant. */
  function Bit(n: nat, i: nat): (b: nat)
    ensures b <= 1
  {
    if i == 0 then n % 2 else Bit(n / 2, i - 1)
  }

  lemma {:induction false} BitOfShr(n: nat, s: nat, i: nat)
    ensures Bit(Shr(n, s), i) == Bit(n, s + i)
  {
    if s > 0 { BitOfShr(n / 2, s - 1, i); }
  }

  /** Two numbers laid end to end, the lower one cut to `w` bits. */
  lemma {:induction false} BitOfJoin(lo: nat, hi: nat, w: nat, i: nat)
    ensures Bit(Low(lo, w) + Shl(hi, w), i) == if i < w then Bit(lo, i) else Bit(hi, i - w)
  {
    if w > 0 {
      var rest := Low(lo / 2, w - 1) + Shl(hi, w - 1);
      assert Low(lo, w) + Shl(hi, w) == lo % 2 + 2 * rest;
      if i > 0 { BitOfJoin(lo / 2, hi, w - 1, i - 1); }
    }
  }

  lemma {:induction false} LowOfLow(n: nat, a: nat, b: nat)
    requires b <= a
    ensures Low(Low(n, a), b) == Low(n, b)
  {
    if b > 0 { LowOfLow(n / 2, a - 1, b - 1); }
  }

  lemma {:induction false} LowOfShl(n: nat, s: nat, w: nat)
    ensures Low(Shl(n, s), s + w) == Shl(Low(n, w), s)
  {
    if s > 0 { LowOfShl(n, s - 1, w); }
  }

  lemma {:induction false} LowFits(n: nat, w: nat)
    requires Shr(n, w) == 0
    ensures Low(n, w) == n
  {
    if w > 0 { LowFits(n / 2, w - 1); }
  }

  lemma {:induction false} LowShr(n: nat, s: nat, w: nat)
    ensures Shr(Shr(n, s), w) == Shr(n, s + w)
  {
    if s > 0 { LowShr(n / 2, s - 1, w); }
  }

  lemma {:induction false} LowBound(n: nat, w: nat)
    ensures Low(n, w) < Shl(1, w)
  {
    if w > 0 { LowBound(n / 2, w - 1); }
  }

  lemma {:induction false} LowTopBit(n: nat, w: nat)
    requires w > 0
    ensures Low(n, w) == Low(n, w - 1) + Shl(Bit(n, w - 1), w - 1)
  {
    if w > 1 { LowTopBit(n / 2, w - 1); }
  }

  lemma {:induction false} ShlSum(a: nat, b: nat, s: nat)
    ensures Shl(a + b, s) == Shl(a, s) + Shl(b, s)
  {
    if s > 0 { ShlSum(a, b, s - 1); }
  }

  lemma {:induction false} ShlTwice(a: nat, s: nat, t: nat)
    ensures Shl(Shl(a, s), t) == Shl(a, s + t)
  {
    if t > 0 { ShlTwice(a, s, t - 1); }
  }

  lemma {:induction false} ShlMonotone(a: nat, b: nat, s: nat)
    requires a < b
    ensures Shl(a, s) < Shl(b, s)
  {
    if s > 0 { ShlMonotone(a, b, s - 1); }
  }

  lemma {:induction false} ShrBound(n: nat, w: nat)
    requires n < Shl(1, w)
    ensures Shr(n, w) == 0
  {
    if w > 0 { ShrBound(n / 2, w - 1); }
  }

  lemma ByteBounds(n: nat)
    ensures Low(n, 8) == n % 0x100
    ensures n < 0x100 ==> Shr(n, 8) == 0
  {
    ByteLow(n);
    if n < 0x100 { ShrBound(n, 8); }
  }

  lemma {:induction false} Split(n: nat, w: nat)
    ensures n == Low(n, w) + Shl(Shr(n, w), w)
  {
    if w > 0 { Split(n / 2, w - 1); }
  }

  lemma ByteLow(n: nat)
    ensures Low(n, 8) == n % 0x100
  {
    var hi := Shr(n, 8);
    Split(n, 8);
    LowBound(n, 8);
    assert Shl(1, 8) == 0x100;
    ShlTwice(hi, 4, 4);
    ShlFour(hi);
    ShlFour(16 * hi);
  }

  lemma ShlFour(n: nat)
    ensures Shl(n, 4) == 16 * n
  {
    assert Shl(n, 1) == 2 * n;
    assert Shl(n, 2) == 2 * Shl(n, 1);
    assert Shl(n, 3) == 2 * Shl(n, 2);
  }

  // ---- Bits of the buffer

  /** Where the k-th most significant byte of an n-byte buffer is stored. */
  function At(order: ByteOrder, n: nat, k: int): int {
    if order.Big? then k else n - 1 - k
  }

  /** Bit `i` of a buffer, counted from the most significant. */
  function BufferBit(data: seq<byte>, order: ByteOrder, i: nat): (b: nat)
    requires i < 8 * |data|
  {
    Bit(data[At(order, |data|, i / 8)], 7 - i % 8)
  }

  /** The number spelled by the `w` bits of the buffer that end just before bit `end`. */
  function Field(data: seq<byte>, order: ByteOrder, end: nat, w: nat): nat
    requires w <= end <= 8 * |data|
  {
    if w == 0 then 0
    else Field(data, order, end, w - 1) + Shl(BufferBit(data, order, end - w), w - 1)
  }

  /** `after` holds `value` in its `w` bits before `end` and is otherwise `before`. */
  ghost predicate Written(before: seq<byte>, after: seq<byte>, order: ByteOrder, end: nat, w: nat, value: nat)
    requires |before| == |after| && w <= end <= 8 * |before|
  {
    forall i :: 0 <= i < 8 * |before| ==>
      BufferBit(after, order, i) == if end - w <= i < end then Bit(value, end - 1 - i) else BufferBit(before, order, i)
  }

  /** The bits the first access covers, which may be more than a short field has. */
  function Touched(start: nat, len: nat): nat {
    var r := (start + len) % 8;
    if r > len then r else len
  }

  // ---- One byte of a field

  /** The first access: the low `r` bits of the value become the top `r` bits of the byte. */
  function LastByte(b: byte, stuff: nat, r: nat): nat
    requires 0 < r < 8
  {
    Low(b, 8 - r) + Low(Shl(Low(stuff, 8), 8 - r), 8)
  }

  /** The final access: the value's remaining high bits become the low `w` bits of the byte. */
  function FirstByte(b: byte, high: nat, w: nat): nat
    requires 0 < w < 8
  {
    Shl(Shr(b, w), w) + high
  }

  lemma LastByteBits(b: byte, stuff: nat, r: nat, q: nat)
    requires 0 < r < 8 && q < 8
    ensures Bit(LastByte(b, stuff, r), q) == if q < 8 - r then Bit(b, q) else Bit(stuff, q - (8 - r))
  {
    LowOfShl(Low(stuff, 8), 8 - r, r);
    LowOfLow(stuff, 8, r);
    BitOfJoin(b, Low(stuff, r), 8 - r, q);
    if q >= 8 - r {
      BitOfJoin(stuff, 0, r, q - (8 - r));
      ShlZero(r);
    }
  }

  lemma {:induction false} ShlZero(s: nat)
    ensures Shl(0, s) == 0
  {
    if s > 0 { ShlZero(s - 1); }
  }

  lemma LastByteIsByte(b: byte, stuff: nat, r: nat)
    requires 0 < r < 8
    ensures LastByte(b, stuff, r) < 0x100
  {
    LowOfShl(Low(stuff, 8), 8 - r, r);
    LowOfLow(stuff, 8, r);
    JoinBound(b, 8 - r, stuff, r);
  }

  /** A `w`-bit number above a `v`-bit number makes a number of `v + w` bits. */
  lemma JoinBound(lo: nat, v: nat, hi: nat, w: nat)
    requires v + w == 8
    ensures Low(lo, v) + Shl(Low(hi, w), v) < 0x100
  {
    LowBound(lo, v);
    LowBound(hi, w);
    var a := Low(hi, w);
    ShlMonotone(a, a + 1, v);
    ShlSum(a, 1, v);
    ShlTwice(1, w, v);
    if a + 1 < Shl(1, w) { ShlMonotone(a + 1, Shl(1, w), v); }
    assert Shl(1, 8) == 0x100;
  }

  lemma FirstByteBits(b: byte, high: nat, w: nat, q: nat)
    requires 0 < w < 8 && Shr(high, w) == 0 && q < 8
    ensures Bit(FirstByte(b, high, w), q) == if q < w then Bit(high, q) else Bit(b, q)
  {
    LowFits(high, w);
    BitOfJoin(high, Shr(b, w), w, q);
    if q >= w { BitOfShr(b, w, q - w); }
  }

  lemma FirstByteIsByte(b: byte, high: nat, w: nat)
    requires 0 < w < 8 && Shr(high, w) == 0
    ensures FirstByte(b, high, w) < 0x100
  {
    LowFits(high, w);
    ByteBounds(b);
    LowShr(b, w, 8 - w);
    LowFits(Shr(b, w), 8 - w);
    JoinBound(high, w, Shr(b, w), 8 - w);
  }

  lemma MiddleByteBits(stuff: nat, s: nat, q: nat)
    requires q < 8
    ensures Bit(Low(Shr(stuff, s), 8), q) == Bit(stuff, s + q)
  {
    BitOfJoin(Shr(stuff, s), 0, 8, q);
    ShlZero(8);
    BitOfShr(stuff, s, q);
  }

  // ---- The two routines

  /** `put_field`. When the field ends on a byte boundary the first access rewrites a byte, possibly the one
      past the buffer, with its own value; it is skipped here. */
  method PutField(data: array<byte>, order: ByteOrder, totalLen: nat, start: nat, len: nat, stuff: nat)
    requires totalLen == 8 * data.Length && 1 <= len <= 32 && start + len <= totalLen
    requires Shr(stuff, len) == 0
    modifies data
    ensures Written(old(data[..]), data[..], order, start + len, Touched(start, len), stuff)
  {
    ghost var before := data[..];
    var r := (start + len) % 8;
    var curByte: int := (start + len) / 8;
    if order.Little? {
      curByte := totalLen / 8 - curByte - 1;
    }
    if r != 0 {
      LastByteIsByte(data[curByte], stuff, r);
      data[curByte] := LastByte(data[curByte], stuff, r);
      WroteLast(before, data[..], order, start + len, stuff);
    }
    curByte := if order.Little? then curByte + 1 else curByte - 1;
    PutRest(data, order, curByte, start, len, r, stuff, before, (start + len) / 8 - 1);
  }

  /** The loop: move towards the most significant part of the field. */
  method PutRest(data: array<byte>, order: ByteOrder, startByte: int, start: nat, len: nat, r: nat, stuff: nat,
                 ghost before: seq<byte>, ghost k0: int)
    requires 1 <= len <= 32 && start + len <= 8 * data.Length && |before| == data.Length && r == (start + len) % 8
    requires Shr(stuff, len) == 0
    requires startByte == At(order, data.Length, k0) && start + len - r == 8 * (k0 + 1)
    requires Written(before, data[..], order, start + len, r, stuff)
    modifies data
    ensures Written(before, data[..], order, start + len, Touched(start, len), stuff)
  {
    ghost var end, k := start + len, k0;
    var curByte, curBitshift := startByte, r;
    while curBitshift < len
      invariant r <= curBitshift && (curBitshift > r ==> r < len)
      invariant curByte == At(order, data.Length, k) && end - curBitshift == 8 * (k + 1)
      invariant Written(before, data[..], order, end, Reached(curBitshift, start, len), stuff)
    {
      PutByte(data, order, curByte, end, len, curBitshift, stuff, before, k);
      curBitshift := curBitshift + 8;
      k := k - 1;
      curByte := if order.Little? then curByte + 1 else curByte - 1;
    }
    assert Reached(curBitshift, start, len) == Touched(start, len);
  }

  /** How many bits have been written when the next byte would take those from `shift` on. */
  function Reached(shift: nat, start: nat, len: nat): nat {
    if shift <= Touched(start, len) then shift else len
  }

  /** One turn of the loop. */
  method PutByte(data: array<byte>, order: ByteOrder, curByte: int, ghost end: nat, len: nat, shift: nat, stuff: nat,
                 ghost before: seq<byte>, ghost k: nat)
    requires |before| == data.Length && len <= end <= 8 * data.Length && shift < len
    requires curByte == At(order, data.Length, k) && end - shift == 8 * (k + 1)
    requires Shr(stuff, len) == 0
    requires Written(before, data[..], order, end, shift, stuff)
    modifies data
    ensures Written(before, data[..], order, end, if len - shift < 8 then len else shift + 8, stuff)
  {
    ghost var during := data[..];
    if len - shift < 8 {
      LowShr(stuff, shift, len - shift);
      FirstByteIsByte(data[curByte], Shr(stuff, shift), len - shift);
      data[curByte] := FirstByte(data[curByte], Shr(stuff, shift), len - shift);
      WroteFirst(before, during, data[..], order, end, shift, len - shift, stuff, k);
    } else {
      ByteBounds(Shr(stuff, shift));
      data[curByte] := Low(Shr(stuff, shift), 8);
      WroteMiddle(before, during, data[..], order, end, shift, stuff, k);
    }
  }

  /** `after` is `before` with its k-th most significant byte replaced. */
  ghost predicate OneByte(before: seq<byte>, after: seq<byte>, order: ByteOrder, k: nat, b: byte) {
    && |after| == |before|
    && 0 <= At(order, |before|, k) < |before|
    && after == before[At(order, |before|, k) := b]
  }

  lemma OneByteBits(before: seq<byte>, after: seq<byte>, order: ByteOrder, k: nat, b: byte)
    requires OneByte(before, after, order, k, b)
    ensures forall i :: 0 <= i < 8 * |before| ==>
      BufferBit(after, order, i) == if i / 8 == k then Bit(b, 7 - i % 8) else BufferBit(before, order, i)
  {
  }

  lemma WroteLast(before: seq<byte>, after: seq<byte>, order: ByteOrder, end: nat, stuff: nat)
    requires end <= 8 * |before| && end % 8 != 0
    requires LastByte(before[At(order, |before|, end / 8)], stuff, end % 8) < 0x100
    requires OneByte(before, after, order, end / 8, LastByte(before[At(order, |before|, end / 8)], stuff, end % 8))
    ensures Written(before, after, order, end, end % 8, stuff)
  {
    var k, r := end / 8, end % 8;
    var old8 := before[At(order, |before|, k)];
    OneByteBits(before, after, order, k, LastByte(old8, stuff, r));
    forall i | 0 <= i < 8 * |before|
      ensures BufferBit(after, order, i)
        == if end - r <= i < end then Bit(stuff, end - 1 - i) else BufferBit(before, order, i)
    {
      LastByteBits(old8, stuff, r, 7 - i % 8);
    }
  }

  lemma WroteMiddle(before: seq<byte>, during: seq<byte>, after: seq<byte>, order: ByteOrder, end: nat, s: nat,
      stuff: nat, k: nat)
    requires |before| == |during| && end <= 8 * |before| && end - s == 8 * (k + 1)
    requires Written(before, during, order, end, s, stuff)
    requires Low(Shr(stuff, s), 8) < 0x100
    requires OneByte(during, after, order, k, Low(Shr(stuff, s), 8))
    ensures Written(before, after, order, end, s + 8, stuff)
  {
    OneByteBits(during, after, order, k, Low(Shr(stuff, s), 8));
    forall i | 0 <= i < 8 * |before|
      ensures BufferBit(after, order, i)
        == if end - (s + 8) <= i < end then Bit(stuff, end - 1 - i) else BufferBit(before, order, i)
    {
      MiddleByteBits(stuff, s, 7 - i % 8);
    }
  }

  lemma WroteFirst(before: seq<byte>, during: seq<byte>, after: seq<byte>, order: ByteOrder, end: nat, s: nat, w: nat,
      stuff: nat, k: nat)
    requires |before| == |during| && end <= 8 * |before| && end - s == 8 * (k + 1) && 0 < w < 8
    requires Written(before, during, order, end, s, stuff) && Shr(Shr(stuff, s), w) == 0
    requires FirstByte(during[At(order, |before|, k)], Shr(stuff, s), w) < 0x100
    requires OneByte(during, after, order, k, FirstByte(during[At(order, |before|, k)], Shr(stuff, s), w))
    ensures Written(before, after, order, end, s + w, stuff)
  {
    var old8 := during[At(order, |before|, k)];
    OneByteBits(during, after, order, k, FirstByte(old8, Shr(stuff, s), w));
    forall i | 0 <= i < 8 * |before|
      ensures BufferBit(after, order, i)
        == if end - (s + w) <= i < end then Bit(stuff, end - 1 - i) else BufferBit(before, order, i)
    {
      FirstByteBits(old8, Shr(stuff, s), w, 7 - i % 8);
      BitOfShr(stuff, s, 7 - i % 8);
    }
  }

  /** `get_field`. The shifted bytes are C `int`s: where `unsigned long` is wider than 32 bits, a contribution
      that reaches bit 31 is sign-extended. */
  method GetField(data: array<byte>, order: ByteOrder, totalLen: nat, start: nat, len: nat, wideLong: bool)
      returns (result: nat)
    requires totalLen == 8 * data.Length && 1 <= len <= 32 && start + len <= totalLen
    ensures result == SignExtended(Field(data[..], order, start + len, Touched(start, len)), wideLong)
  {
    ghost var end := start + len;
    var r := (start + len) % 8;
    var curByte: int := (start + len) / 8;
    if order.Little? {
      curByte := totalLen / 8 - curByte - 1;
    }
    result := 0;
    if r != 0 {
      result := Shr(data[curByte], 8 - r);
      TopOfByte(data[..], order, end, r);
    }
    curByte := if order.Little? then curByte + 1 else curByte - 1;
    SmallField(data[..], order, end, r);
    result := GetRest(data, order, curByte, start, len, r, wideLong, result, (start + len) / 8 - 1);
  }

  /** The loop: gather the more significant bytes. */
  method GetRest(data: array<byte>, order: ByteOrder, startByte: int, start: nat, len: nat, r: nat, wideLong: bool,
      first: nat,
                 ghost k0: int)
    returns (result: nat)
    requires 1 <= len <= 32 && start + len <= 8 * data.Length && r == (start + len) % 8
    requires startByte == At(order, data.Length, k0) && start + len - r == 8 * (k0 + 1)
    requires first == SignExtended(Field(data[..], order, start + len, r), wideLong)
    ensures result == SignExtended(Field(data[..], order, start + len, Touched(start, len)), wideLong)
  {
    ghost var end, k := start + len, k0;
    hide SignExtended, Field, Shl, Part;
    result := first;
    var curByte, curBitshift := startByte, r;
    while curBitshift < len
      invariant r <= curBitshift && (curBitshift > r ==> r < len)
      invariant curByte == At(order, data.Length, k) && end - curBitshift == 8 * (k + 1)
      invariant result == SignExtended(Field(data[..], order, end, Reached(curBitshift, start, len)), wideLong)
    {
      var part := Part(data[curByte], len - curBitshift);
      GetByte(data[..], order, end, curBitshift, len, wideLong, k);
      result := result + SignExtended(Shl(part, curBitshift), wideLong);
      curBitshift := curBitshift + 8;
      k := k - 1;
      curByte := if order.Little? then curByte + 1 else curByte - 1;
    }
    assert Reached(curBitshift, start, len) == Touched(start, len);
  }

  /** One turn of the loop. */
  lemma GetByte(data: seq<byte>, order: ByteOrder, end: nat, s: nat, len: nat, wideLong: bool, k: nat)
    requires s < len <= 32 && len <= end <= 8 * |data| && end - s == 8 * (k + 1)
    ensures SignExtended(Field(data, order, end, s), wideLong)
            + SignExtended(Shl(Part(data[At(order, |data|, k)], len - s), s), wideLong)
            == SignExtended(Field(data, order, end, if len - s < 8 then len else s + 8), wideLong)
  {
    PartIsLow(data[At(order, |data|, k)], len - s);
    GetBits(data, order, end, s, if len - s < 8 then len - s else 8, wideLong, k);
  }

  /** The bits of the next byte that belong to a field with `left` bits to go. */
  function Part(b: byte, left: nat): nat {
    if left < 8 then Low(b, left) else b
  }

  lemma PartIsLow(b: byte, left: nat)
    ensures left < 8 ==> Part(b, left) == Low(b, left)
    ensures left >= 8 ==> Part(b, left) == Low(b, 8)
  {
    if left >= 8 { ByteLow(b); }
  }

  lemma GetBits(data: seq<byte>, order: ByteOrder, end: nat, s: nat, w: nat, wideLong: bool, k: nat)
    requires 0 < w <= 8 && s + w <= 32 && end <= 8 * |data| && end - s == 8 * (k + 1)
    ensures SignExtended(Field(data, order, end, s), wideLong)
            + SignExtended(Shl(Low(data[At(order, |data|, k)], w), s), wideLong)
            == SignExtended(Field(data, order, end, s + w), wideLong)
  {
    NextByte(data, order, end, s, w, k);
    Accumulate(data, order, end, s, w, wideLong);
  }

  const SIGN_BIT: nat := 0x8000_0000

  /** A 32-bit `int` pattern converted to `unsigned long`. */
  function SignExtended(n: nat, wideLong: bool): nat {
    if wideLong && n >= SIGN_BIT then n + 0xFFFF_FFFF_0000_0000 else n
  }

  lemma {:induction false} FieldBound(data: seq<byte>, order: ByteOrder, end: nat, w: nat)
    requires w <= end <= 8 * |data|
    ensures Field(data, order, end, w) < Shl(1, w)
  {
    if w > 0 {
      FieldBound(data, order, end, w - 1);
      var b := BufferBit(data, order, end - w);
      if b == 0 { ShlZero(w - 1); }
    }
  }

  lemma SmallField(data: seq<byte>, order: ByteOrder, end: nat, w: nat)
    requires w <= end <= 8 * |data| && w < 32
    ensures Field(data, order, end, w) < SIGN_BIT
  {
    FieldBound(data, order, end, w);
    ShlOneMonotone(w, 31);
    SignBitValue();
  }

  lemma {:induction false} ShlOneMonotone(v: nat, w: nat)
    requires v <= w
    ensures 1 <= Shl(1, v) <= Shl(1, w)
    decreases w
  {
    if v < w { ShlOneMonotone(v, w - 1); } else if v > 0 { ShlOneMonotone(v - 1, w - 1); }
  }

  lemma SignBitValue()
    ensures Shl(1, 31) == SIGN_BIT
  {
    assert Shl(1, 7) == 0x80;
    ShlEight(7);
    ShlEight(15);
    ShlEight(23);
  }

  lemma ShlEight(s: nat)
    ensures Shl(1, s + 8) == 0x100 * Shl(1, s)
  {
    assert Shl(1, s + 2) == 2 * Shl(1, s + 1);
    assert Shl(1, s + 4) == 2 * Shl(1, s + 3);
    assert Shl(1, s + 6) == 2 * Shl(1, s + 5);
    assert Shl(1, s + 8) == 2 * Shl(1, s + 7);
  }

  /** Only the last contribution can reach bit 31, and it does exactly when the whole field does. */
  lemma Accumulate(data: seq<byte>, order: ByteOrder, end: nat, s: nat, w: nat, wideLong: bool)
    requires s + w <= end <= 8 * |data| && 0 < w && s + w <= 32
    requires Field(data, order, end, s + w) >= Field(data, order, end, s)
    ensures SignExtended(Field(data, order, end, s), wideLong)
            + SignExtended(Field(data, order, end, s + w) - Field(data, order, end, s), wideLong)
            == SignExtended(Field(data, order, end, s + w), wideLong)
  {
    SmallField(data, order, end, s);
    SignBitValue();
    if s + w < 32 {
      SmallField(data, order, end, s + w);
    } else {
      SmallField(data, order, end, 31);
      FieldGrows(data, order, end, s, 31);
      if BufferBit(data, order, end - 32) == 0 { ShlZero(31); }
    }
  }

  lemma {:induction false} FieldGrows(data: seq<byte>, order: ByteOrder, end: nat, v: nat, w: nat)
    requires v <= w <= end <= 8 * |data|
    ensures Field(data, order, end, v) <= Field(data, order, end, w)
  {
    if v < w { FieldGrows(data, order, end, v, w - 1); }
  }

  lemma BitIndex(data: seq<byte>, order: ByteOrder, k: nat, q: nat, i: nat)
    requires k < |data| && q < 8 && i == 8 * k + 7 - q
    ensures BufferBit(data, order, i) == Bit(data[At(order, |data|, k)], q)
  {
    assert i / 8 == k && i % 8 == 7 - q;
  }

  /** The top `w` bits of the byte that holds the end of the field. */
  lemma {:induction false} TopBits(data: seq<byte>, order: ByteOrder, end: nat, w: nat)
    requires end <= 8 * |data| && w <= end % 8 && end % 8 != 0
    ensures Field(data, order, end, w) == Low(Shr(data[At(order, |data|, end / 8)], 8 - end % 8), w)
  {
    if w > 0 {
      TopBits(data, order, end, w - 1);
      var b := data[At(order, |data|, end / 8)];
      LowTopBit(Shr(b, 8 - end % 8), w);
      BitOfShr(b, 8 - end % 8, w - 1);
      BitIndex(data, order, end / 8, 8 - end % 8 + w - 1, end - w);
    }
  }

  lemma TopOfByte(data: seq<byte>, order: ByteOrder, end: nat, r: nat)
    requires end <= 8 * |data| && r == end % 8 && r > 0
    ensures Field(data, order, end, r) == Shr(data[At(order, |data|, end / 8)], 8 - r)
  {
    var b := data[At(order, |data|, end / 8)];
    TopBits(data, order, end, r);
    ByteBounds(b);
    LowShr(b, 8 - r, r);
    LowFits(Shr(b, 8 - r), r);
  }

  lemma ShiftedTopBit(b: nat, w: nat, s: nat)
    requires w > 0
    ensures Shl(Low(b, w), s) == Shl(Low(b, w - 1), s) + Shl(Bit(b, w - 1), s + w - 1)
  {
    LowTopBit(b, w);
    ShlSum(Low(b, w - 1), Shl(Bit(b, w - 1), w - 1), s);
    ShlTwice(Bit(b, w - 1), w - 1, s);
  }

  /** The next `w` bits are the low bits of the next byte. */
  lemma {:induction false} NextByte(data: seq<byte>, order: ByteOrder, end: nat, s: nat, w: nat, k: nat)
    requires end <= 8 * |data| && end - s == 8 * (k + 1) && w <= 8
    ensures Field(data, order, end, s + w)
            == Field(data, order, end, s) + Shl(Low(data[At(order, |data|, k)], w), s)
  {
    if w == 0 {
      ShlZero(s);
    } else {
      NextByte(data, order, end, s, w - 1, k);
      var b := data[At(order, |data|, k)];
      ShiftedTopBit(b, w, s);
      BitIndex(data, order, k, w - 1, end - (s + w));
    }
  }

  // ---- What the pair promises

  lemma {:induction false} FieldOfWritten(before: seq<byte>, after: seq<byte>, order: ByteOrder, end: nat, w: nat,
      value: nat, v: nat)
    requires |before| == |after| && v <= w <= end <= 8 * |before|
    requires Written(before, after, order, end, w, value)
    ensures Field(after, order, end, v) == Low(value, v)
  {
    if v > 0 {
      FieldOfWritten(before, after, order, end, w, value, v - 1);
      LowTopBit(value, v);
      assert BufferBit(after, order, end - v) == Bit(value, v - 1);
    }
  }

  /** What `get_field` returns after `put_field`: the value itself, unless `unsigned long` is wider than the
      32-bit `int` the bytes are shifted in and the value has bit 31 set. */
  lemma RoundTrip(before: seq<byte>, after: seq<byte>, order: ByteOrder, start: nat, len: nat, value: nat,
      wideLong: bool)
    requires |before| == |after| && 1 <= len <= 32 && start + len <= 8 * |before| && Shr(value, len) == 0
    requires Written(before, after, order, start + len, Touched(start, len), value)
    ensures SignExtended(Field(after, order, start + len, Touched(start, len)), wideLong) == value
            <==> !(wideLong && value >= SIGN_BIT)
  {
    var w := Touched(start, len);
    FieldOfWritten(before, after, order, start + len, w, value, w);
    LowShr(value, len, w - len);
    ShrZero(w - len);
    LowFits(value, w);
  }

  lemma {:induction false} ShrZero(s: nat)
    ensures Shr(0, s) == 0
  {
    if s > 0 { ShrZero(s - 1); }
  }

  /** Writing a field leaves every other bit alone exactly when the field is not strictly inside one byte, or
      the bits of that byte before it were clear already. */
  lemma OutsideUnchanged(before: seq<byte>, after: seq<byte>, order: ByteOrder, start: nat, len: nat, value: nat)
    requires |before| == |after| && 1 <= len <= 32 && start + len <= 8 * |before| && Shr(value, len) == 0
    requires Written(before, after, order, start + len, Touched(start, len), value)
    ensures (forall i :: 0 <= i < 8 * |before| && !(start <= i < start + len) ==>
              BufferBit(after, order, i) == BufferBit(before, order, i))
            <==> (forall i :: start + len - Touched(start, len) <= i < start ==> BufferBit(before, order, i) == 0)
  {
    var end, w := start + len, Touched(start, len);
    forall i | end - w <= i < start
      ensures BufferBit(after, order, i) == 0
    {
      BitOfShr(value, len, end - 1 - i - len);
      BitZero(end - 1 - i - len);
    }
  }

  lemma {:induction false} BitZero(i: nat)
    ensures Bit(0, i) == 0
  {
    if i > 0 { BitZero(i - 1); }
  }

  lemma NothingTouchedOutside(start: nat, len: nat)
    requires len >= 1
    ensures Touched(start, len) == len
      <==> !(start % 8 != 0 && (start + len) % 8 != 0 && start / 8 == (start + len) / 8)
  {
  }
}
