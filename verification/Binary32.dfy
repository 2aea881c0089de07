/** The hand-written binary32 encoder and decoder of `tools.cpp` (section 3.4 of IEEE 754-2008).

    A C `float` is modelled by its exact value: an integer significand times a power of two. */
module Binary32 {
  import opened Bytes

  const HIDDEN_BIT: nat := 0x80_0000
  const BIAS: int := 127
  const FRACTION_BITS: int := 23

  /** Denormals and NaNs, which the encoder does not reproduce, are kept as raw bits. */
  datatype Float =
    | Zero
    | Normal(negative: bool, significand: nat, exponent: int)
    | Infinity(negative: bool)
    | Raw(bits: u32)

  predicate IsNormal(f: Float) {
    f.Normal? && HIDDEN_BIT <= f.significand < 2 * HIDDEN_BIT && -149 <= f.exponent <= 104
  }

  /** A value the encoder is faithful for, but for its sign. */
  predicate Standard(f: Float) {
    f.Zero? || f.Infinity? || IsNormal(f)
  }

  function Power(k: int): real
    decreases if k < 0 then -k else k
  {
    if k == 0 then 1.0 else if k > 0 then 2.0 * Power(k - 1) else Power(k + 1) / 2.0
  }

  function Magnitude(f: Float): real
    requires f.Normal?
  {
    f.significand as real * Power(f.exponent)
  }

  /** The interchange format of the standard. */
  function Ieee(f: Float): u32
    requires Standard(f)
  {
    match f
    case Zero => 0
    case Infinity(negative) => (if negative then 0x8000_0000 else 0) + 255 * HIDDEN_BIT
    case Normal(negative, significand, exponent) =>
      (if negative then 0x8000_0000 else 0) + (exponent + FRACTION_BITS + BIAS) * HIDDEN_BIT
        + (significand - HIDDEN_BIT)
    case Raw(bits) => bits
  }

  // ---- Powers of two over the reals

  lemma PowerStep(k: int)
    ensures Power(k) == 2.0 * Power(k - 1)
  {
  }

  lemma {:induction false} PowerPositive(k: int)
    ensures Power(k) > 0.0
    decreases if k < 0 then -k else k
  {
    if k > 0 { PowerPositive(k - 1); } else if k < 0 { PowerPositive(k + 1); }
  }

  lemma {:induction false} PowerMonotone(j: int, k: int)
    requires j <= k
    ensures Power(j) <= Power(k)
    decreases k - j
  {
    if j < k {
      PowerMonotone(j, k - 1);
      PowerStep(k);
      PowerPositive(k - 1);
    }
  }

  lemma {:induction false} PowerIsPow2(k: nat)
    ensures Power(k) == Pow2(k) as real
  {
    if k > 0 { PowerIsPow2(k - 1); }
  }

  lemma {:induction false} PowerInverse(k: nat)
    ensures Power(0 - k) * Pow2(k) as real == 1.0
  {
    if k > 0 {
      PowerInverse(k - 1);
      ScaleHalves(Power(-(k - 1)), Pow2(k - 1) as real);
    }
  }

  lemma ScaleHalves(x: real, y: real)
    ensures x / 2.0 * (2.0 * y) == x * y
  {
  }

  lemma Halve(m: nat, k: int)
    ensures m as real * Power(k) / 2.0 == m as real * Power(k - 1)
  {
    PowerStep(k);
    ScaleHalves(m as real, Power(k - 1));
    assert m as real * Power(k) == m as real * (2.0 * Power(k - 1));
  }

  // ---- The scaled mantissa

  lemma Multiply(a: real, b: real, c: real)
    requires 0.0 <= a <= b && 0.0 <= c
    ensures a * c <= b * c
  {
  }

  /** Below 2^24, scaling by 2^k reaches `INT_MAX` only for k above 6. */
  lemma LargeMantissa(m: nat, k: int)
    requires m < 2 * HIDDEN_BIT && m as real * Power(k) >= 2147483647.0
    ensures k > 6
  {
    if k <= 6 {
      var p := Power(k);
      assert p <= 64.0 by { PowerMonotone(k, 6); PowerIsPow2(6); }
      PowerPositive(k);
      Multiply(m as real, 16777215.0, p);
      Bounded(m as real * p, p, 64.0);
    }
  }

  lemma SmallMantissa(m: nat, k: int)
    requires m < 2 * HIDDEN_BIT && k < 0
    ensures m as real * Power(k) <= 8388607.5
  {
    var p := Power(k);
    assert p <= 0.5 by { PowerMonotone(k, -1); assert Power(-1) == 0.5; }
    PowerPositive(k);
    Multiply(m as real, 16777215.0, p);
    Bounded(m as real * p, p, 0.5);
  }

  lemma Bounded(x: real, p: real, bound: real)
    requires x <= 16777215.0 * p && p <= bound
    ensures x <= 16777215.0 * bound
  {
  }

  lemma WholeMantissa(m: nat, k: nat)
    ensures m as real * Power(k) == (m * Pow2(k)) as real
    ensures (m as real * Power(k)).Floor == m * Pow2(k)
  {
    PowerIsPow2(k);
    MultiplyCast(m, Pow2(k));
  }

  lemma MultiplyCast(a: int, b: int)
    ensures a as real * b as real == (a * b) as real
  {
  }

  /** n holds the value m times 2^k exactly. */
  predicate Scaled(n: nat, m: nat, k: int) {
    if k >= 0 then n == m * Pow2(k) else n * Pow2(-k) == m
  }

  lemma ScaledFromReal(n: nat, m: nat, k: int)
    requires n as real == m as real * Power(k)
    ensures Scaled(n, m, k)
  {
    if k >= 0 {
      WholeMantissa(m, k);
    } else {
      PowerInverse(-k);
      Cancel(n as real, m as real, Power(k), Pow2(-k) as real);
      MultiplyCast(n, Pow2(-k));
    }
  }

  lemma Cancel(n: real, m: real, p: real, q: real)
    requires n == m * p && p * q == 1.0
    ensures n * q == m
  {
    assert n * q == m * (p * q);
  }

  lemma ScaledUp(n: nat, m: nat, k: int)
    requires Scaled(n, m, k) && k < 0
    ensures Scaled(2 * n, m, k + 1)
  {
    assert Pow2(-k) == 2 * Pow2(-(k + 1));
    assert 2 * n * Pow2(-(k + 1)) == n * Pow2(-k);
  }

  lemma ScaledDown(n: nat, m: nat, k: int)
    requires Scaled(n, m, k) && k > 0
    ensures n % 2 == 0 && Scaled(n / 2, m, k - 1)
  {
    assert n == 2 * (m * Pow2(k - 1));
  }

  lemma ScaledBounds(n: nat, m: nat, k: int)
    requires Scaled(n, m, k) && m < 2 * HIDDEN_BIT
    ensures n >= 2 * HIDDEN_BIT ==> k > 0
    ensures k > 0 && m >= HIDDEN_BIT ==> n >= 2 * HIDDEN_BIT
    ensures k == 0 ==> n == m
    ensures k < 0 ==> 2 * n <= m
  {
    if k > 0 {
      Pow2Monotone(1, k);
      Doubles(m, Pow2(k));
    } else if k < 0 {
      Pow2Monotone(1, -k);
      Doubles(n, Pow2(-k));
    }
  }

  lemma Doubles(x: nat, p: nat)
    requires p >= 2
    ensures x * 2 <= x * p
  {
  }

  // ---- The encoder

  /** The exponent `frexpf` returns. */
  function FrexpExponent(f: Float): int
    requires f.Normal?
  {
    f.exponent + FRACTION_BITS + 1
  }

  /** It is the one the C library defines: the fraction lies in [1/2, 1). */
  lemma FrexpDefinition(f: Float)
    requires IsNormal(f)
    ensures Power(FrexpExponent(f) - 1) <= Magnitude(f) < Power(FrexpExponent(f))
  {
    var e := f.exponent;
    PowerPositive(e);
    PowerShift(e);
    assert FrexpExponent(f) == e + 24 && FrexpExponent(f) - 1 == e + 23;
    Between(f.significand as real, Power(e), Magnitude(f), Power(FrexpExponent(f) - 1), Power(FrexpExponent(f)));
  }

  lemma Between(m: real, p: real, x: real, lo: real, hi: real)
    requires 8388608.0 <= m < 16777216.0 && p > 0.0
    requires x == m * p && lo == 8388608.0 * p && hi == 16777216.0 * p
    ensures lo <= x < hi
  {
    Multiply(8388608.0, m, p);
    assert (16777216.0 - m) * p > 0.0;
  }

  lemma PowerShift(e: int)
    ensures Power(e + 23) == 8388608.0 * Power(e) && Power(e + 24) == 16777216.0 * Power(e)
  {
    PowerStep(e + 1); PowerStep(e + 2); PowerStep(e + 3); PowerStep(e + 4);
    PowerShift4(e, e + 4);
    PowerShift4(e + 4, e + 8);
    PowerShift4(e + 8, e + 12);
    PowerShift4(e + 12, e + 16);
    PowerShift4(e + 16, e + 20);
    PowerShift4(e + 20, e + 24);
    PowerStep(e + 24);
  }

  lemma PowerShift4(j: int, k: int)
    requires k == j + 4
    ensures Power(k) == 16.0 * Power(j)
  {
    PowerStep(k); PowerStep(k - 1); PowerStep(k - 2); PowerStep(k - 3);
  }

  /** The first loop: bring the mantissa below `INT_MAX`. */
  method HalveMantissa(m: nat, e: int) returns (mant: real, ghost k: int)
    requires HIDDEN_BIT <= m < 2 * HIDDEN_BIT
    ensures mant == m as real * Power(k) && mant < 2147483647.0
    ensures k == e || k >= 6
  {
    mant := m as real * Power(e);
    k := e;
    while mant >= 2147483647.0
      invariant mant == m as real * Power(k)
      invariant k == e || k >= 6
      decreases k
    {
      LargeMantissa(m, k);
      Halve(m, k);
      mant := mant / 2.0;
      k := k - 1;
    }
  }

  /** A scaled significand that is not whole has a negative scale, and is below 2^23. */
  lemma FractionalMantissa(m: nat, k: int, mant: real)
    requires m < 2 * HIDDEN_BIT && mant == m as real * Power(k)
    ensures mant != mant.Floor as real ==> k < 0 && mant <= 16777215.0
  {
    if k < 0 { SmallMantissa(m, k); } else { WholeMantissa(m, k); }
  }

  /** The second loop: double until nothing is left behind the binary point. */
  method DoubleMantissa(m: nat, start: real, ghost scale: int) returns (ibuf: u32, ghost k: int)
    requires HIDDEN_BIT <= m < 2 * HIDDEN_BIT
    requires start == m as real * Power(scale) && start < 2147483647.0
    ensures 0 < ibuf < 0x8000_0000 && Scaled(ibuf, m, k)
  {
    var mant := start;
    k := scale;
    FractionalMantissa(m, k, mant);
    while mant != mant.Floor as real && mant <= 16777215.0
      invariant mant == m as real * Power(k) && mant < 2147483647.0
      invariant mant != mant.Floor as real ==> k < 0 && mant <= 16777215.0
      decreases -k
    {
      Halve(m, k + 1);
      mant := mant * 2.0;
      k := k + 1;
      FractionalMantissa(m, k, mant);
    }
    PowerPositive(k);
    MantissaPositive(m, Power(k));
    ibuf := mant.Floor;
    ScaledFromReal(ibuf, m, k);
  }

  lemma MantissaPositive(m: nat, p: real)
    requires m >= 1 && p > 0.0
    ensures m as real * p > 0.0
  {
  }

  /** The last two loops: shift the leading one to bit 23. */
  method Normalise(start: u32, m: nat, ghost scale: int) returns (ibuf: u32)
    requires HIDDEN_BIT <= m < 2 * HIDDEN_BIT && start > 0 && Scaled(start, m, scale)
    ensures ibuf == m
  {
    ghost var k := scale;
    ibuf := start;
    while ibuf / 0x100_0000 != 0
      invariant Scaled(ibuf, m, k) && ibuf > 0
      decreases ibuf
    {
      ScaledBounds(ibuf, m, k);
      ScaledDown(ibuf, m, k);
      ibuf := ibuf / 2;
      k := k - 1;
    }
    ScaledBounds(ibuf, m, k);
    while ibuf / 0x80_0000 == 0
      invariant k <= 0 && Scaled(ibuf, m, k) && ibuf > 0
      decreases -k
    {
      ScaledBounds(ibuf, m, k);
      ScaledUp(ibuf, m, k);
      ibuf := 2 * ibuf;
      k := k + 1;
    }
    ScaledBounds(ibuf, m, k);
  }

  /** The value that the bytes stand for when the sign the encoder never sets for a positive value is odd or even. */
  function Left(f: Float, junk: int): (left: Float)
    requires Standard(f)
    ensures Standard(left)
  {
    if f.Zero? then f else f.(negative := f.negative || junk % 2 == 1)
  }

  predicate Positive(f: Float) {
    (f.Normal? || f.Infinity?) && !f.negative
  }

  lemma LeftExactly(f: Float, junk: int)
    requires Standard(f)
    ensures Net32(Ieee(Left(f, junk))) == Net32(Ieee(f)) <==> (Positive(f) ==> junk % 2 == 0)
  {
    Net32RoundTrip(Ieee(f));
    Net32RoundTrip(Ieee(Left(f, junk)));
  }

  lemma ZeroBytes()
    ensures Net32(Ieee(Zero)) == [0, 0, 0, 0]
  {
  }

  lemma InfinityAssembled(s: int)
    ensures 255 * 0x80_0000 + s % 2 * 0x8000_0000 == Ieee(Infinity(s % 2 == 1))
  {
  }

  /** `write_ieee_float`. The sign `s` is never initialised for a positive value: `junk` is what the stack held.
      The bytes are those of the value exactly when that junk does not set the sign bit. */
  method WriteIeeeFloat(value: Float, junk: int) returns (data: seq<byte>)
    requires Standard(value)
    ensures data == Net32(Ieee(Left(value, junk)))
    ensures data == Net32(Ieee(value)) <==> (Positive(value) ==> junk % 2 == 0)
  {
    LeftExactly(value, junk);
    ZeroBytes();
    InfinityAssembled(junk);
    InfinityAssembled(1);
    hide Ieee, Net32;
    data := [0, 0, 0, 0];
    if value.Zero? {
      return;
    }
    var s := junk;
    if value.negative {
      s := 1;
    }
    if value.Infinity? {
      data := Net32(255 * 0x80_0000 + s % 2 * 0x8000_0000);
      return;
    }
    var word := NormalWord(value, s);
    data := Net32(word);
  }

  /** The rest of `write_ieee_float`, with the sign it has come by. */
  method NormalWord(value: Float, s: int) returns (word: u32)
    requires IsNormal(value)
    ensures word == Ieee(value.(negative := s % 2 == 1))
  {
    Assembled(value, s);
    hide Ieee, Power, Scaled;
    var exp := FrexpExponent(value);
    var ibuf: u32;
    ghost var k: int;
    var mant: real;
    mant, k := HalveMantissa(value.significand, value.exponent);
    ibuf, k := DoubleMantissa(value.significand, mant, k);
    ibuf := Normalise(ibuf, value.significand, k);
    ibuf := ibuf % 0x80_0000;
    exp := exp - 1;
    exp := exp + BIAS;
    word := ibuf + exp * 0x80_0000 + s % 2 * 0x8000_0000;
  }

  /** The fields of the word are disjoint, so or-ing them in is adding them. */
  lemma Assembled(f: Float, s: int)
    requires IsNormal(f)
    ensures f.significand % 0x80_0000 + (FrexpExponent(f) - 1 + BIAS) * 0x80_0000 + s % 2 * 0x8000_0000
            == Ieee(f.(negative := s % 2 == 1))
  {
  }

  // ---- The decoder

  /** `read_ieee_float`. With all ones in the exponent it returns plus or minus `DBL_MAX`, which a `float` rounds to
      infinity, NaNs included. */
  function ReadIeeeFloat(data: seq<byte>): Float
    requires |data| == 4
  {
    var src := FromNet32(data);
    var s, e, f := src / 0x8000_0000, src / 0x80_0000 % 0x100, src % 0x80_0000;
    if e == 255 then Infinity(f == 0 && s == 1)
    else if 0 < e then Normal(s == 1, f + HIDDEN_BIT, e - BIAS - FRACTION_BITS)
    else if f == 0 then Zero
    else Raw(src)
  }

  /** Decoding what the standard prescribes for a value gives the value back. */
  lemma ReadsBack(f: Float)
    requires Standard(f)
    ensures ReadIeeeFloat(Net32(Ieee(f))) == f
  {
    Net32RoundTrip(Ieee(f));
    if f.Normal? {
      var sign := if f.negative then 1 else 0;
      BitFields(sign, f.exponent + FRACTION_BITS + BIAS, f.significand - HIDDEN_BIT);
    }
  }

  lemma BitFields(s: nat, e: nat, f: nat)
    requires s <= 1 && e < 0x100 && f < 0x80_0000
    ensures var src := s * 0x8000_0000 + e * 0x80_0000 + f;
      src / 0x8000_0000 == s && src / 0x80_0000 % 0x100 == e && src % 0x80_0000 == f
  {
  }
}
