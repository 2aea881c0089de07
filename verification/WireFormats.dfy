/** The primitive writers and readers of `rsvp_packet.cpp`, and the straight-line sequences of them that make up
    most of its `add_` and `parse_` routines. */
module WireFormats {
  import opened Bytes
  import opened Binary32
  import opened Parameters
  import opened Configuration

  const INFINITY_BITS: u32 := 0x7f80_0000

  /** How one parameter value is laid out. */
  datatype Codec =
    | AddrC       // add_addr, get_addr: the word as it lies in memory
    | IntC        // add_int, get_int
    | ShortC      // add_short, get_short
    | CharC       // add_char, get_char
    | FloatC      // add_float, get_float
    | Low24C      // three bytes, most significant first
    | SignedCharC // a short read through a `char*` before `add_short`
    | StatusC     // the R bit in the first of four bytes, T, A and D in the last

  function Width(c: Codec): nat {
    match c
    case AddrC => 4 case IntC => 4 case ShortC => 2 case CharC => 1
    case FloatC => 4 case Low24C => 3 case SignedCharC => 2 case StatusC => 4
  }

  function KindFor(c: Codec): Kind {
    match c
    case AddrC => UI case IntC => UI case ShortC => US case CharC => UC
    case FloatC => F case Low24C => UI case SignedCharC => US case StatusC => UC
  }

  /** Floats are zero, normal or infinite. */
  predicate Encodable(v: Value) {
    v.Real? ==> Standard(v.f)
  }

  /** What `add_float` appends when the sign that the encoder never sets is even. Infinity has no sign here. */
  function FloatBytes(f: Float): (s: seq<byte>)
    requires Standard(f)
    ensures |s| == 4
  {
    if f.Infinity? then Net32(INFINITY_BITS) else Net32(Ieee(f))
  }

  function LowBytes(x: nat): (s: seq<byte>)
    ensures |s| == 3
  {
    [x / 0x1_0000 % 0x100, x / 0x100 % 0x100, x % 0x100]
  }

  /** `*(char*)` of a little-endian short, converted back to `unsigned short`. */
  function ThroughSignedChar(s: u16): u16 {
    if s % 0x100 < 0x80 then s % 0x100 else 0xFF00 + s % 0x100
  }

  function Encode(c: Codec, v: Value): (s: seq<byte>)
    requires KindOf(v) == KindFor(c) && Encodable(v)
    ensures |s| == Width(c)
  {
    match c
    case AddrC => Host32(v.i)
    case IntC => Net32(v.i)
    case ShortC => Net16(v.s)
    case CharC => [v.c]
    case FloatC => FloatBytes(v.f)
    case Low24C => LowBytes(v.i)
    case SignedCharC => Net16(ThroughSignedChar(v.s))
    case StatusC => [if v.c / 8 % 2 == 1 then 0x80 else 0, 0, 0, v.c % 8]
  }

  function Decode(c: Codec, s: seq<byte>): (v: Value)
    requires |s| == Width(c)
    ensures KindOf(v) == KindFor(c)
  {
    match c
    case AddrC => Int(FromHost32(s))
    case IntC => Int(FromNet32(s))
    case ShortC => Short(FromNet16(s))
    case CharC => Char(s[0])
    case FloatC => Real(if s == Net32(INFINITY_BITS) then Infinity(false) else ReadIeeeFloat(s))
    case Low24C => Int(FromNet32([0] + s))
    case SignedCharC => Short(FromNet16(s))
    case StatusC => Char(s[0] / 0x80 * 8 + s[3] % 8)
  }

  /** What a value becomes when it is written one way and read another. */
  function Wired(w: Codec, r: Codec, v: Value): Value
    requires KindOf(v) == KindFor(w) && Encodable(v) && Width(w) == Width(r)
  {
    Decode(r, Encode(w, v))
  }

  lemma FloatWired(f: Float)
    requires Standard(f)
    ensures Decode(FloatC, FloatBytes(f)) == Real(if f.Infinity? then Infinity(false) else f)
  {
    if !f.Infinity? {
      ReadsBack(f);
      Net32RoundTrip(Ieee(f));
      Net32RoundTrip(INFINITY_BITS);
    }
  }

  lemma Low24Wired(x: u32)
    ensures FromNet32([0] + LowBytes(x)) == x % 0x100_0000
  {
    var s := [0] + LowBytes(x);
    assert s[..2] == [0, x / 0x1_0000 % 0x100];
    assert s[2..] == [x / 0x100 % 0x100, x % 0x100];
    LowParts(x);
  }

  lemma LowParts(x: nat)
    ensures x % 0x100_0000 == x / 0x1_0000 % 0x100 * 0x1_0000 + x % 0x1_0000
    ensures x % 0x1_0000 == x / 0x100 % 0x100 * 0x100 + x % 0x100
  {
    HighPart(x / 0x1_0000, x % 0x1_0000);
    MiddlePart(x / 0x100, x % 0x100);
  }

  lemma HighPart(q: nat, r: nat)
    requires r < 0x1_0000
    ensures (q * 0x1_0000 + r) % 0x100_0000 == q % 0x100 * 0x1_0000 + r
  {
    var k, low := q / 0x100, q % 0x100;
    assert q * 0x1_0000 + r == k * 0x100_0000 + (low * 0x1_0000 + r);
  }

  lemma MiddlePart(q: nat, r: nat)
    requires r < 0x100
    ensures (q * 0x100 + r) % 0x1_0000 == q % 0x100 * 0x100 + r
  {
    var k, low := q / 0x100, q % 0x100;
    assert q * 0x100 + r == k * 0x1_0000 + (low * 0x100 + r);
  }

  lemma StatusWired(v: byte)
    ensures Decode(StatusC, Encode(StatusC, Char(v))) == Char(v % 16)
  {
  }

  /** Every layout read back by its own reader: faithful, or cut to the bits it has room for. */
  lemma WiredValue(c: Codec, v: Value)
    requires KindOf(v) == KindFor(c) && Encodable(v)
    ensures Wired(c, c, v) ==
      match c
      case Low24C => Int(v.i % 0x100_0000)
      case SignedCharC => Short(ThroughSignedChar(v.s))
      case StatusC => Char(v.c % 16)
      case FloatC => Real(if v.f.Infinity? then Infinity(false) else v.f)
      case _ => v
  {
    match c
    case AddrC => Host32RoundTrip(v.i);
    case IntC => Net32RoundTrip(v.i);
    case ShortC => Net16RoundTrip(v.s);
    case CharC =>
    case FloatC => FloatWired(v.f);
    case Low24C => Low24Wired(v.i);
    case SignedCharC => Net16RoundTrip(ThroughSignedChar(v.s));
    case StatusC => StatusWired(v.c);
  }

  // ---- Straight-line routines

  datatype Write = Put(w: Codec, p: Param) | Lit(bytes: seq<byte>)

  /** `Took` adds a value worked out from the n bytes it passes over. */
  datatype Read = Get(r: Codec, p: Param) | Skip(n: nat) | Took(n: nat, p: Param, v: Value)

  /** The writer finds what it casts to. */
  predicate Readable(w: Write, conf: Store) {
    w.Put? ==> w.p in conf && conf[w.p] != [] && KindOf(conf[w.p][0]) == KindFor(w.w) && Encodable(conf[w.p][0])
  }

  predicate AllReadable(writes: seq<Write>, conf: Store) {
    forall i :: 0 <= i < |writes| ==> Readable(writes[i], conf)
  }

  function Written(w: Write, conf: Store): seq<byte>
    requires Readable(w, conf)
  {
    if w.Put? then Encode(w.w, conf[w.p][0]) else w.bytes
  }

  /** The bytes the writes from the i-th on append. */
  function EmittedFrom(writes: seq<Write>, i: nat, conf: Store): seq<byte>
    requires i <= |writes| && AllReadable(writes, conf)
    decreases |writes| - i
  {
    if i == |writes| then [] else Written(writes[i], conf) + EmittedFrom(writes, i + 1, conf)
  }

  function Emission(writes: seq<Write>, conf: Store): seq<byte>
    requires AllReadable(writes, conf)
  {
    EmittedFrom(writes, 0, conf)
  }

  function WidthOf(w: Write): nat {
    if w.Put? then Width(w.w) else |w.bytes|
  }

  function WidthFrom(writes: seq<Write>, i: nat): nat
    requires i <= |writes|
    decreases |writes| - i
  {
    if i == |writes| then 0 else WidthOf(writes[i]) + WidthFrom(writes, i + 1)
  }

  lemma {:induction false} EmittedWidth(writes: seq<Write>, i: nat, conf: Store)
    requires i <= |writes| && AllReadable(writes, conf)
    ensures |EmittedFrom(writes, i, conf)| == WidthFrom(writes, i)
    decreases |writes| - i
  {
    if i < |writes| {
      assert Readable(writes[i], conf);
      EmittedWidth(writes, i + 1, conf);
    }
  }

  /** How parsing can end: past the end of the packet, without ending, or with what has been added. */
  datatype Parse = Overrun | Endless | Parsed(store: Store)

  /** Where reading has got to: past the end of the packet, at a refused addition, or on to the next. */
  datatype Step = Beyond | Stop(store: Store) | Next(store: Store, at: nat)

  function Added(change: Change, at: nat): Step {
    if change.code != 0 then Stop(change.store) else Next(change.store, at)
  }

  function ReadOne(get: Read, packet: seq<byte>, at: nat, conf: Store): Step {
    if at + ReadWidth(get) > |packet| then Beyond
    else
      match get
      case Skip(n) => Next(conf, at + n)
      case Get(r, p) => Added(AddTo(conf, TypeOf(p), p, Decode(r, packet[at..at + Width(r)])), at + Width(r))
      case Took(n, p, v) => Added(AddTo(conf, TypeOf(p), p, v), at + n)
  }

  function ReadWidth(get: Read): nat {
    match get
    case Skip(n) => n
    case Get(r, _) => Width(r)
    case Took(n, _, _) => n
  }

  /** The reads from the i-th on, at offset `at` of the packet. */
  function RunReads(gets: seq<Read>, i: nat, packet: seq<byte>, at: nat, conf: Store): (r: Step)
    requires i <= |gets|
    ensures r.Next? ==> r.at >= at
    decreases |gets| - i
  {
    if i == |gets| then Next(conf, at)
    else
      var step := ReadOne(gets[i], packet, at, conf);
      if step.Next? then RunReads(gets, i + 1, packet, step.at, step.store) else step
  }

  /** A refused addition makes the routine return early, and no caller looks at why. */
  function Finish(step: Step): Parse {
    match step
    case Beyond => Overrun
    case Stop(store) => Parsed(store)
    case Next(store, _) => Parsed(store)
  }

  // ---- Reading back what was written

  /** The read takes what the write appends. */
  predicate Matches(w: Write, r: Read) {
    WidthOf(w) == ReadWidth(r) && (r.Get? ==> w.Put?)
  }

  predicate Aligned(writes: seq<Write>, gets: seq<Read>) {
    |gets| <= |writes| && forall i :: 0 <= i < |gets| ==> Matches(writes[i], gets[i])
  }

  function KindRead(r: Read): Kind
    requires !r.Skip?
  {
    if r.Get? then KindFor(r.r) else KindOf(r.v)
  }

  predicate Distinct(gets: seq<Read>) {
    forall i, j :: 0 <= i < j < |gets| && !gets[i].Skip? && !gets[j].Skip? ==> gets[i].p != gets[j].p
  }

  /** Each read fills a scalar of its own type, and no two the same one. */
  predicate WellTyped(gets: seq<Read>) {
    Typed(gets) && Distinct(gets)
  }

  predicate Typed(gets: seq<Read>) {
    forall i :: 0 <= i < |gets| && !gets[i].Skip? ==> TypeOf(gets[i].p) == Scalar(KindRead(gets[i]))
  }

  /** What a read recovers of what was written. */
  function RecoveredValue(w: Write, r: Read, conf: Store): Value
    requires Matches(w, r) && Readable(w, conf) && !r.Skip?
  {
    if r.Took? then r.v else Wired(w.w, r.r, conf[w.p][0])
  }

  function RecoveredFrom(writes: seq<Write>, gets: seq<Read>, i: nat, conf: Store): Store
    requires Aligned(writes, gets) && AllReadable(writes, conf) && i <= |gets|
    decreases |gets| - i
  {
    if i == |gets| then map[]
    else
      var rest := RecoveredFrom(writes, gets, i + 1, conf);
      if gets[i].Skip? then rest else map[gets[i].p := [RecoveredValue(writes[i], gets[i], conf)]] + rest
  }

  function After(acc: Store, w: Write, r: Read, conf: Store): Store
    requires Matches(w, r) && Readable(w, conf)
  {
    if r.Skip? then acc else acc[r.p := [RecoveredValue(w, r, conf)]]
  }

  /** What the reads from the i-th on make of a store: they add one value after the other, up to the first parameter
      that is already there. */
  function Filled(writes: seq<Write>, gets: seq<Read>, i: nat, conf: Store, acc: Store): Store
    requires Aligned(writes, gets) && AllReadable(writes, conf) && i <= |gets|
    decreases |gets| - i
  {
    if i == |gets| || Refused(gets[i], acc) then acc
    else
      assert Matches(writes[i], gets[i]) && Readable(writes[i], conf);
      Filled(writes, gets, i + 1, conf, After(acc, writes[i], gets[i], conf))
  }

  predicate Refused(r: Read, acc: Store) {
    !r.Skip? && r.p in acc
  }

  lemma FilledStep(writes: seq<Write>, gets: seq<Read>, i: nat, conf: Store, acc: Store)
    requires Aligned(writes, gets) && AllReadable(writes, conf) && i < |gets|
    ensures Matches(writes[i], gets[i]) && Readable(writes[i], conf)
    ensures Filled(writes, gets, i, conf, acc)
            == if Refused(gets[i], acc) then acc
              else Filled(writes, gets, i + 1, conf, After(acc, writes[i], gets[i], conf))
  {
  }

  lemma {:induction false} FilledKeeps(writes: seq<Write>, gets: seq<Read>, i: nat, conf: Store, acc: Store, p: Param)
    requires Aligned(writes, gets) && AllReadable(writes, conf) && i <= |gets| && p in acc
    ensures p in Filled(writes, gets, i, conf, acc)
    decreases |gets| - i
  {
    if i < |gets| && !Refused(gets[i], acc) {
      FilledKeeps(writes, gets, i + 1, conf, After(acc, writes[i], gets[i], conf), p);
    }
  }

  lemma ReadsOne(w: Write, r: Read, conf: Store, packet: seq<byte>, at: nat, here: Store)
    requires Matches(w, r) && Readable(w, conf) && LiesAt(packet, at, Written(w, conf))
    requires !r.Skip? ==> TypeOf(r.p) == Scalar(KindRead(r))
    ensures ReadOne(r, packet, at, here)
            == if Refused(r, here) then Stop(here) else Next(After(here, w, r, conf), at + ReadWidth(r))
    ensures |Written(w, conf)| == ReadWidth(r)
  {
  }

  lemma MergeAssociates(a: Store, b: Store, c: Store)
    ensures a + b + c == a + (b + c)
  {
  }

  lemma MergeOne(acc: Store, p: Param, values: seq<Value>, rest: Store)
    ensures acc + (map[p := values] + rest) == acc[p := values] + rest
  {
  }

  lemma AfterRecovers(writes: seq<Write>, gets: seq<Read>, i: nat, conf: Store, acc: Store)
    requires Aligned(writes, gets) && AllReadable(writes, conf) && i < |gets|
    ensures Matches(writes[i], gets[i]) && Readable(writes[i], conf)
    ensures After(acc, writes[i], gets[i], conf) + RecoveredFrom(writes, gets, i + 1, conf)
            == acc + RecoveredFrom(writes, gets, i, conf)
  {
    if !gets[i].Skip? {
      MergeOne(acc, gets[i].p, [RecoveredValue(writes[i], gets[i], conf)], RecoveredFrom(writes, gets, i + 1, conf));
    }
  }

  lemma EmittedStep(writes: seq<Write>, i: nat, conf: Store, packet: seq<byte>, at: nat)
    requires AllReadable(writes, conf) && i < |writes| && LiesAt(packet, at, EmittedFrom(writes, i, conf))
    ensures Readable(writes[i], conf) && LiesAt(packet, at, Written(writes[i], conf))
    ensures LiesAt(packet, at + |Written(writes[i], conf)|, EmittedFrom(writes, i + 1, conf))
  {
    PartsLie(packet, at, Written(writes[i], conf), EmittedFrom(writes, i + 1, conf));
  }

  lemma RunStep(gets: seq<Read>, i: nat, packet: seq<byte>, at: nat, conf: Store, next: Store)
    requires i < |gets| && ReadOne(gets[i], packet, at, conf) == Next(next, at + ReadWidth(gets[i]))
    ensures RunReads(gets, i, packet, at, conf) == RunReads(gets, i + 1, packet, at + ReadWidth(gets[i]), next)
  {
  }

  /** Parsing what a routine wrote, wherever it lies in a packet and whatever was there before, adds each value as it
      comes through its two layouts, and stops at the first parameter that is already there. */
  lemma {:induction false} ReadsFill(writes: seq<Write>, gets: seq<Read>, i: nat, conf: Store, packet: seq<byte>,
      at: nat,
      acc: Store)
    requires Aligned(writes, gets) && AllReadable(writes, conf) && Typed(gets) && i <= |gets|
    requires LiesAt(packet, at, EmittedFrom(writes, i, conf))
    ensures Finish(RunReads(gets, i, packet, at, acc)) == Parsed(Filled(writes, gets, i, conf, acc))
    decreases |gets| - i
  {
    hide LiesAt, ReadOne, Written, EmittedFrom;
    if i < |gets| {
      EmittedStep(writes, i, conf, packet, at);
      ReadsOne(writes[i], gets[i], conf, packet, at, acc);
      if !Refused(gets[i], acc) {
        var next := After(acc, writes[i], gets[i], conf);
        RunStep(gets, i, packet, at, acc, next);
        ReadsFill(writes, gets, i + 1, conf, packet, at + ReadWidth(gets[i]), next);
      }
    }
  }

  /** How far the reads from the i-th on get. */
  function Reach(gets: seq<Read>, i: nat, acc: Store): (n: nat)
    requires i <= |gets|
    ensures i <= n <= |gets|
    ensures n < |gets| ==> Refused(gets[n], acc)
    ensures forall j :: i <= j < n ==> !Refused(gets[j], acc)
    decreases |gets| - i
  {
    if i == |gets| || Refused(gets[i], acc) then i else Reach(gets, i + 1, acc)
  }

  lemma {:induction false} ReachKept(gets: seq<Read>, i: nat, acc: Store, p: Param, values: seq<Value>)
    requires i <= |gets| && forall j :: i <= j < |gets| && !gets[j].Skip? ==> gets[j].p != p
    ensures Reach(gets, i, acc[p := values]) == Reach(gets, i, acc)
    decreases |gets| - i
  {
    if i < |gets| && !Refused(gets[i], acc) { ReachKept(gets, i + 1, acc, p, values); }
  }

  /** What is added is what the reads before the first refused one recover, all of it or a part. */
  lemma {:induction false} FilledExactly(writes: seq<Write>, gets: seq<Read>, i: nat, conf: Store, acc: Store)
    requires Aligned(writes, gets) && AllReadable(writes, conf) && Distinct(gets) && i <= |gets|
    ensures Filled(writes, gets, i, conf, acc)
            == acc + RecoveredFrom(writes, gets[..Reach(gets, i, acc)], i, conf)
    decreases |gets| - i
  {
    var n := Reach(gets, i, acc);
    if i == n {
      assert acc + map[] == acc;
    } else {
      AfterRecovers(writes, gets[..n], i, conf, acc);
      var next := After(acc, writes[i], gets[i], conf);
      if !gets[i].Skip? { ReachKept(gets, i + 1, acc, gets[i].p, [RecoveredValue(writes[i], gets[i], conf)]); }
      FilledExactly(writes, gets, i + 1, conf, next);
    }
  }

  /** The parameters a routine recovers, and their values. */
  lemma {:induction false} RecoveredAt(writes: seq<Write>, gets: seq<Read>, i: nat, conf: Store, j: nat)
    requires Aligned(writes, gets) && AllReadable(writes, conf) && WellTyped(gets) && i <= j < |gets| && !gets[j].Skip?
    ensures gets[j].p in RecoveredFrom(writes, gets, i, conf)
    ensures RecoveredFrom(writes, gets, i, conf)[gets[j].p] == [RecoveredValue(writes[j], gets[j], conf)]
    decreases j - i
  {
    if i < j {
      RecoveredAt(writes, gets, i + 1, conf, j);
    } else {
      RecoveredKeys(writes, gets, i + 1, conf, gets[i].p);
    }
  }

  lemma {:induction false} RecoveredKeys(writes: seq<Write>, gets: seq<Read>, i: nat, conf: Store, p: Param)
    requires Aligned(writes, gets) && AllReadable(writes, conf) && i <= |gets|
    ensures p in RecoveredFrom(writes, gets, i, conf)
      <==> exists j :: i <= j < |gets| && !gets[j].Skip? && gets[j].p == p
    decreases |gets| - i
  {
    if i < |gets| {
      RecoveredKeys(writes, gets, i + 1, conf, p);
      if !gets[i].Skip? && gets[i].p == p {
        assert i <= i < |gets|;
      }
    }
  }
}
