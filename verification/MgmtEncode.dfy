/** The encoding constructor of the agent, which goes through the parameters by a table of its own, and what the
    decoding constructor makes of the message it writes. */
module MgmtEncode {
  import opened Bytes
  import opened Options
  import opened MgmtCodec
  import opened MgmtEro
  import opened MgmtLoops
  import opened MgmtStore
  import Parameters
  import Configuration

  /** A parameter, and the `add_` call that puts it in the packet. */
  datatype Made = Made(p: Param, shape: Shape)

  /** What each type of object is made from. The route, types 13 to 15, and the part numbers, 21 and 22, are made
      otherwise. */
  function Source(otype: nat): Option<Made> {
    match otype
    case 1 => Some(Made(Parameters.RC_SESSION_DEST_ADDR, OfAddr))
    case 2 => Some(Made(Parameters.RC_EXTENDED_IPV4_ADDR, OfAddr))
    case 3 => Some(Made(Parameters.RC_CONTROL_OUT_IF_ADDR, OfAddr))
    case 4 => Some(Made(Parameters.RC_REFRESH_PERIOD, OfInt))
    case 5 => Some(Made(Parameters.RC_TOKEN_BUCKET_RATE, OfFloat))
    case 6 => Some(Made(Parameters.RC_TOKEN_BUCKET_SIZE, OfFloat))
    case 7 => Some(Made(Parameters.RC_PEAK_DATA_RATE, OfFloat))
    case 8 => Some(Made(Parameters.RC_UPSTREAM_LABEL, OfInt))
    case 9 => Some(Made(Parameters.RC_LSP_ENC_TYPE, OfByte))
    case 10 => Some(Made(Parameters.RC_LSP_SWITCHING_TYPE, OfByte))
    case 11 => Some(Made(Parameters.RC_LSP_GPID, OfShort))
    case 12 => Some(Made(Parameters.RC_SESSION_NAME, OfText))
    case 16 => Some(Made(Parameters.RC_RSVP_HOP_TLVS, OfAddr))
    case 17 => Some(Made(Parameters.RC_ERROR_NODE_ADDR, OfAddr))
    case 18 => Some(Made(Parameters.RC_ERROR_FLAGS, OfByte))
    case 19 => Some(Made(Parameters.RC_ERROR_CODE, OfByte))
    case 20 => Some(Made(Parameters.RC_ERROR_VALUE, OfShort))
    case 23 => Some(Made(Parameters.RC_TUNNEL_ID, OfShort))
    case 24 => Some(Made(Parameters.RC_TR_D_ADDR, OfAddr))
    case 25 => Some(Made(Parameters.RC_TR_RD_ADDR, OfAddr))
    case 26 => Some(Made(Parameters.RC_CONTROL_OUT_IF_HANDLE, OfInt))
    case 27 => Some(Made(Parameters.RC_TNA_SRC_ADDR, OfAddr))
    case 28 => Some(Made(Parameters.RC_TNA_DST_ADDR, OfAddr))
    case 29 => Some(Made(Parameters.RC_CALL_ID_LOCAL_ID1, OfInt))
    case 30 => Some(Made(Parameters.RC_CALL_ID_LOCAL_ID2, OfInt))
    case 31 => Some(Made(Parameters.RC_SENDER_SRC_ID, OfShort))
    case 32 => Some(Made(Parameters.RC_SETUP_PRIORITY, OfByte))
    case 33 => Some(Made(Parameters.RC_HOLDING_PRIORITY, OfByte))
    case 34 => Some(Made(Parameters.RC_PATH_STATUS, OfShort))
    case 35 => Some(Made(Parameters.RC_SERVICE_LEVEL, OfByte))
    case 36 => Some(Made(Parameters.RC_ETHERNET_CIR, OfFloat))
    case 37 => Some(Made(Parameters.RC_ETHERNET_CBS, OfFloat))
    case 38 => Some(Made(Parameters.RC_ETHERNET_EIR, OfFloat))
    case 39 => Some(Made(Parameters.RC_ETHERNET_EBS, OfFloat))
    case 40 => Some(Made(Parameters.RC_ETHERNET_SW_GRANUALITY, OfShort))
    case 41 => Some(Made(Parameters.RC_ETHERNET_INDEX, OfByte))
    case 42 => Some(Made(Parameters.RC_ETHERNET_PROFILE, OfByte))
    case _ => None
  }

  // ---- What a parameter is written as

  /** A float that some four bytes of memory hold. */
  predicate InMemory(x: Parameters.Value) {
    x.Real? ==> BitsOf(x.f) < 0x1_0000_0000 && FloatOf(BitsOf(x.f)) == x.f
  }

  /** A configuration as the store keeps it: values of the declared types, hops of the size of `struct rc_ero`. */
  predicate Stored(m: Store) {
    forall p :: p in m ==>
      && Configuration.Shaped(m[p], Parameters.TypeOf(p))
      && (forall i :: 0 <= i < |m[p]| ==> InMemory(m[p][i]))
      && (p == Parameters.RC_ERO ==> forall i :: 0 <= i < |m[p]| ==> |m[p][i].bytes| == Parameters.ERO_SIZE)
  }

  /** What the `add_` call is given: the path status is read as a short, whatever it was stored as. */
  function Cast(shape: Shape, x: Parameters.Value): Value {
    match x
    case Char(c) => Byte(c)
    case Short(s) => Short(s)
    case Int(i) => if shape.OfShort? then Short(i % 0x1_0000) else if shape.OfAddr? then Addr(i) else Int(i)
    case Real(f) => Float(BitsOf(f) % 0x1_0000_0000)
    case Text(text) => Text(text)
    case Block(bytes) => Text(bytes)
  }

  /** The types for which the constructor has an `if`, and not a loop. */
  predicate Single(t: nat) {
    Source(t).Some? && t != OBJECT_HOP_ADDR
  }

  /** The declared type of what is written in this shape. */
  function KindFor(shape: Shape): Parameters.Kind {
    match shape
    case OfByte => Parameters.UC
    case OfShort => Parameters.US
    case OfInt => Parameters.UI
    case OfAddr => Parameters.UI
    case OfFloat => Parameters.F
    case OfText => Parameters.CS
  }

  lemma SourceShape(t: nat)
    requires Source(t).Some?
    ensures var p, shape := Source(t).value.p, Source(t).value.shape;
      && ShapeOf(t) == Some(shape) && !Parameters.TypeOf(p).Untyped? && p != Parameters.RC_ERO
      && (Parameters.TypeOf(p).Table? <==> t == OBJECT_HOP_ADDR)
      && (t != OBJECT_PATH_STATE ==> Parameters.TypeOf(p).kind == KindFor(shape))
      && (t == OBJECT_PATH_STATE ==> Parameters.TypeOf(p).kind == Parameters.UI && shape == OfShort)
  {
  }

  lemma {:induction false} NameWhole(text: Parameters.CString)
    ensures Parameters.CStringOf(text) == text
  {
    WholeName(text);
  }

  lemma CastKept(shape: Shape, x: Parameters.Value)
    requires Parameters.KindOf(x) == KindFor(shape) && InMemory(x)
    ensures ShapeOfValue(Cast(shape, x)) == shape && Filed(Cast(shape, x)) == x
  {
    hide FloatOf, BitsOf, Parameters.CStringOf;
    if x.Text? { NameWhole(x.text); }
  }

  /** An object made from a parameter is well formed, and filing it makes the parameter again. */
  lemma CastBack(t: nat, x: Parameters.Value)
    requires Source(t).Some? && Parameters.KindOf(x) == Parameters.TypeOf(Source(t).value.p).kind && InMemory(x)
    ensures WellFormed(Object(t, Cast(Source(t).value.shape, x)))
    ensures t != OBJECT_PATH_STATE ==> Filed(Cast(Source(t).value.shape, x)) == x
  {
    SourceShape(t);
    hide Source, Parameters.TypeOf, ShapeOf, Filed, InMemory;
    if t != OBJECT_PATH_STATE { CastKept(Source(t).value.shape, x); }
  }

  // ---- The message

  /** The `if` for the type: an object if the parameter is present. */
  function OneObject(m: Store, t: nat): seq<Object> {
    if Single(t) && Source(t).value.p in m && m[Source(t).value.p] != [] then
      [Object(t, Cast(Source(t).value.shape, m[Source(t).value.p][0]))]
    else []
  }

  function SingleObjects(m: Store, from: nat, to: nat): seq<Object>
    requires from <= to
  {
    if from == to then [] else SingleObjects(m, from, to - 1) + OneObject(m, to - 1)
  }

  /** A stored hop, as the constructor reads it through `struct rc_ero`. */
  function HopOf(x: Parameters.Value): Hop {
    if x.Block? && |x.bytes| == Parameters.ERO_SIZE then Hop(FromHost32(x.bytes[..4]), x.bytes[4], x.bytes[5])
    else Hop(0, 0, 0)
  }

  function HopsOf(xs: seq<Parameters.Value>): (hops: seq<Hop>)
    ensures |hops| == |xs| && forall i :: 0 <= i < |xs| ==> hops[i] == HopOf(xs[i])
  {
    seq(|xs|, i requires 0 <= i < |xs| => HopOf(xs[i]))
  }

  function TlvObjects(xs: seq<Parameters.Value>): (objects: seq<Object>)
    ensures |objects| == |xs|
    ensures forall i :: 0 <= i < |xs| ==> objects[i] == Object(OBJECT_HOP_ADDR, Cast(OfAddr, xs[i]))
  {
    seq(|xs|, i requires 0 <= i < |xs| => Object(OBJECT_HOP_ADDR, Cast(OfAddr, xs[i])))
  }

  /** The numbers of a message in parts, when they make sense. */
  function PartObjects(num: int, count: int): seq<Object> {
    if 0 <= num < count then
      [Object(21, Int(num % 0x1_0000_0000)), Object(22, Int(count % 0x1_0000_0000))]
    else []
  }

  const FIRST_AFTER_NAME: nat := 13
  const FIRST_AFTER_HOPS: nat := 17

  /** What the constructor puts in the packet, in order. */
  function Encoded(m: Store, num: int, count: int): seq<Object> {
    Before(m, num, count) + RouteObjects(HopsOf(Configuration.ValuesIn(m, Parameters.RC_ERO))) + Behind(m)
  }

  function Before(m: Store, num: int, count: int): seq<Object> {
    PartObjects(num, count) + SingleObjects(m, 1, FIRST_AFTER_NAME)
  }

  function Behind(m: Store): seq<Object> {
    TlvObjects(Configuration.ValuesIn(m, Parameters.RC_RSVP_HOP_TLVS))
    + SingleObjects(m, FIRST_AFTER_HOPS, LAST_TYPE + 1)
  }

  // ---- Which objects there are

  lemma {:induction false} SingleMembers(m: Store, from: nat, to: nat, o: Object)
    requires from <= to
    ensures o in SingleObjects(m, from, to) <==> from <= o.otype < to && OneObject(m, o.otype) == [o]
  {
    if from < to {
      SingleMembers(m, from, to - 1, o);
      assert o in OneObject(m, to - 1) <==> OneObject(m, to - 1) == [o];
    }
  }

  lemma {:induction false} RouteMembers(hops: seq<Hop>, o: Object)
    ensures o in RouteObjects(hops) ==> o.otype in {OBJECT_ERO_ADDR, OBJECT_ERO_PREF, OBJECT_ERO_SL}
  {
    if hops != [] {
      RouteMembers(hops[..|hops| - 1], o);
      assert o in HopObjects(hops[|hops| - 1]) ==> o.otype in {OBJECT_ERO_ADDR, OBJECT_ERO_PREF, OBJECT_ERO_SL};
    }
  }

  /** The pieces of the message. */
  lemma InPieces(m: Store, num: int, count: int, o: Object)
    ensures o in Encoded(m, num, count) <==>
      || o in PartObjects(num, count) || o in SingleObjects(m, 1, FIRST_AFTER_NAME)
      || o in RouteObjects(HopsOf(Configuration.ValuesIn(m, Parameters.RC_ERO)))
      || o in TlvObjects(Configuration.ValuesIn(m, Parameters.RC_RSVP_HOP_TLVS))
      || o in SingleObjects(m, FIRST_AFTER_HOPS, LAST_TYPE + 1)
  {
    hide PartObjects, SingleObjects, RouteObjects, TlvObjects, HopsOf;
  }

  lemma TypeRange(t: nat)
    requires Single(t)
    ensures 1 <= t < FIRST_AFTER_NAME || FIRST_AFTER_HOPS <= t <= LAST_TYPE
    ensures t !in {21, 22, OBJECT_ERO_ADDR, OBJECT_ERO_PREF, OBJECT_ERO_SL, OBJECT_HOP_ADDR}
  {
  }

  /** The one object of a type that is not collected. */
  lemma EncodedMembers(m: Store, num: int, count: int, o: Object)
    requires Single(o.otype)
    ensures o in Encoded(m, num, count) <==> OneObject(m, o.otype) == [o]
  {
    TypeRange(o.otype);
    hide Single, Encoded, SingleObjects, RouteObjects, OneObject;
    InPieces(m, num, count, o);
    RouteMembers(HopsOf(Configuration.ValuesIn(m, Parameters.RC_ERO)), o);
    SingleMembers(m, 1, FIRST_AFTER_NAME, o);
    SingleMembers(m, FIRST_AFTER_HOPS, LAST_TYPE + 1, o);
  }

  lemma FirstEncoded(m: Store, num: int, count: int, t: nat)
    requires Single(t)
    ensures var one := OneObject(m, t);
      FirstOf(Encoded(m, num, count), t) == if one == [] then None else Some(one[0].value)
  {
    var objects, one := Encoded(m, num, count), OneObject(m, t);
    FirstIsOne(objects, t);
    if one != [] {
      EncodedMembers(m, num, count, one[0]);
      assert one[0] in objects;
    }
    if FirstOf(objects, t).Some? {
      EncodedMembers(m, num, count, Object(t, FirstOf(objects, t).value));
    }
  }

  lemma RouteFits(hops: seq<Hop>, o: Object)
    requires o in RouteObjects(hops)
    ensures WellFormed(o) && |Payload(o.value)| < 0x80
  {
    var k :| 0 <= k < |RouteObjects(hops)| && RouteObjects(hops)[k] == o;
    RouteWellFormed(hops, k);
  }

  lemma HopFits(m: Store, o: Object)
    requires Stored(m) && o in TlvObjects(Configuration.ValuesIn(m, Parameters.RC_RSVP_HOP_TLVS))
    ensures o.otype == OBJECT_HOP_ADDR && WellFormed(o) && |Payload(o.value)| == 4
  {
    var xs := Configuration.ValuesIn(m, Parameters.RC_RSVP_HOP_TLVS);
    var k :| 0 <= k < |xs| && o == Object(OBJECT_HOP_ADDR, Cast(OfAddr, xs[k]));
    assert Parameters.KindOf(xs[k]) == Parameters.UI;
  }

  lemma SingleFits(m: Store, t: nat)
    requires Stored(m) && OneObject(m, t) != []
    ensures OneObject(m, t)[0].otype == t && WellFormed(OneObject(m, t)[0])
    ensures t != OBJECT_PATH_STATE ==> m[Source(t).value.p] == [Filed(OneObject(m, t)[0].value)]
  {
    SourceShape(t);
    CastBack(t, m[Source(t).value.p][0]);
  }

  lemma EncodedFits(m: Store, num: int, count: int)
    requires Stored(m)
    ensures AllWellFormed(Encoded(m, num, count))
  {
    forall o | o in Encoded(m, num, count)
      ensures WellFormed(o)
    {
      ObjectFitsIn(m, num, count, o);
    }
  }

  lemma PartFits(num: int, count: int, o: Object)
    requires o in PartObjects(num, count)
    ensures WellFormed(o) && |Payload(o.value)| == 4
  {
  }

  lemma ObjectFitsIn(m: Store, num: int, count: int, o: Object)
    requires Stored(m) && o in Encoded(m, num, count)
    ensures WellFormed(o)
    ensures NamesFit(m) ==> |Payload(o.value)| < 0x100
  {
    hide Stored, Encoded, PartObjects, SingleObjects, RouteObjects, TlvObjects, OneObject, WellFormed, Payload,
      NamesFit;
    var hops := HopsOf(Configuration.ValuesIn(m, Parameters.RC_ERO));
    InPieces(m, num, count, o);
    SingleMembers(m, 1, FIRST_AFTER_NAME, o);
    SingleMembers(m, FIRST_AFTER_HOPS, LAST_TYPE + 1, o);
    if o in PartObjects(num, count) {
      PartFits(num, count, o);
    } else if o in RouteObjects(hops) {
      RouteFits(hops, o);
    } else if o in TlvObjects(Configuration.ValuesIn(m, Parameters.RC_RSVP_HOP_TLVS)) {
      HopFits(m, o);
    } else {
      SingleFits(m, o.otype);
      if NamesFit(m) { SingleSendable(m, o.otype); }
    }
  }

  /** Names are short enough for their size byte. */
  predicate NamesFit(m: Store) {
    forall p :: p in m && m[p] != [] && m[p][0].Text? ==> |m[p][0].text| < 0x100
  }

  lemma SingleSendable(m: Store, t: nat)
    requires Stored(m) && NamesFit(m) && OneObject(m, t) != []
    ensures |Payload(OneObject(m, t)[0].value)| < 0x100
  {
    SingleFits(m, t);
    SourceShape(t);
    PayloadBack(OneObject(m, t)[0].value);
  }

  // ---- What comes back

  /** The parameters that an object of the type is filed under have the value of the parameter it was made from. */
  lemma SingleBack(m: Store, num: int, count: int, t: nat, p: Param)
    requires Stored(m) && Single(t) && p in ParamsOf(t)
    ensures Configuration.ValuesIn(KeepAll(Encoded(m, num, count)), p)
      == if t == OBJECT_PATH_STATE then [] else Configuration.ValuesIn(m, Source(t).value.p)
  {
    var objects := Encoded(m, num, count);
    EncodedFits(m, num, count);
    KeepAllAt(objects, t, p);
    FirstEncoded(m, num, count, t);
    SourceShape(t);
    if OneObject(m, t) != [] { SingleFits(m, t); }
  }

  lemma {:induction false} NotFiled(objects: seq<Object>, p: Param)
    requires AllWellFormed(objects) && forall k :: 0 <= k < |objects| ==> p !in ParamsOf(objects[k].otype)
    ensures p !in KeepAll(objects)
  {
    if objects != [] {
      var init, last := objects[..|objects| - 1], objects[|objects| - 1];
      NotFiled(init, p);
      if ParamsOf(last.otype) != [] { TypesMatch(last, ParamsOf(last.otype)[0]); }
      AddEachAt(KeepAll(init), ParamsOf(last.otype), Filed(last.value), p);
    }
  }

  lemma {:induction false} HopAddressesJoin(a: seq<Object>, b: seq<Object>)
    ensures HopAddresses(a + b) == HopAddresses(a) + HopAddresses(b)
    decreases |b|
  {
    if b == [] {
      assert a + b == a;
    } else {
      assert (a + b)[..|a + b| - 1] == a + b[..|b| - 1];
      HopAddressesJoin(a, b[..|b| - 1]);
    }
  }

  lemma {:induction false} NoHopAddresses(objects: seq<Object>)
    requires forall k :: 0 <= k < |objects| ==> objects[k].otype != OBJECT_HOP_ADDR
    ensures HopAddresses(objects) == []
  {
    if objects != [] { NoHopAddresses(objects[..|objects| - 1]); }
  }

  lemma {:induction false} TlvAddresses(xs: seq<Parameters.Value>)
    requires forall i :: 0 <= i < |xs| ==> xs[i].Int?
    ensures HopAddresses(TlvObjects(xs)) == xs
  {
    if xs != [] {
      TlvAddresses(xs[..|xs| - 1]);
      assert TlvObjects(xs)[..|xs| - 1] == TlvObjects(xs[..|xs| - 1]);
    }
  }

  lemma NeitherHops(m: Store, num: int, count: int, o: Object)
    ensures o in Before(m, num, count) || o in SingleObjects(m, FIRST_AFTER_HOPS, LAST_TYPE + 1)
      ==> o.otype !in {OBJECT_ERO_ADDR, OBJECT_ERO_PREF, OBJECT_ERO_SL, OBJECT_HOP_ADDR}
  {
    SingleMembers(m, 1, FIRST_AFTER_NAME, o);
    SingleMembers(m, FIRST_AFTER_HOPS, LAST_TYPE + 1, o);
  }

  lemma NoneAmong(objects: seq<Object>)
    requires forall o :: o in objects ==> o.otype != OBJECT_HOP_ADDR
    ensures HopAddresses(objects) == []
  {
    NoHopAddresses(objects);
  }

  lemma FourParts(a: seq<Object>, b: seq<Object>, c: seq<Object>, d: seq<Object>)
    requires forall o :: o in a || o in b || o in d ==> o.otype != OBJECT_HOP_ADDR
    ensures HopAddresses(a + b + (c + d)) == HopAddresses(c)
  {
    HopAddressesJoin(a + b, c + d);
    HopAddressesJoin(a, b);
    HopAddressesJoin(c, d);
    NoneAmong(a);
    NoneAmong(b);
    NoneAmong(d);
    assert HopAddresses(c) + [] == HopAddresses(c);
  }

  lemma OnlyTheseHops(m: Store, num: int, count: int)
    ensures HopAddresses(Encoded(m, num, count))
      == HopAddresses(TlvObjects(Configuration.ValuesIn(m, Parameters.RC_RSVP_HOP_TLVS)))
  {
    var hops := HopsOf(Configuration.ValuesIn(m, Parameters.RC_ERO));
    var last := SingleObjects(m, FIRST_AFTER_HOPS, LAST_TYPE + 1);
    forall o | o in Before(m, num, count) || o in RouteObjects(hops) || o in last
      ensures o.otype != OBJECT_HOP_ADDR
    {
      NeitherHops(m, num, count, o);
      RouteMembers(hops, o);
    }
    hide Before, RouteObjects, SingleObjects, TlvObjects, HopAddresses;
    FourParts(Before(m, num, count), RouteObjects(hops),
      TlvObjects(Configuration.ValuesIn(m, Parameters.RC_RSVP_HOP_TLVS)), last);
  }

  /** The list of hops comes back in order. */
  lemma HopsBack(m: Store, num: int, count: int)
    requires Stored(m)
    ensures Configuration.ValuesIn(KeepAll(Encoded(m, num, count)), Parameters.RC_RSVP_HOP_TLVS)
      == Configuration.ValuesIn(m, Parameters.RC_RSVP_HOP_TLVS)
  {
    EncodedFits(m, num, count);
    KeepAllHops(Encoded(m, num, count));
    OnlyTheseHops(m, num, count);
    var xs := Configuration.ValuesIn(m, Parameters.RC_RSVP_HOP_TLVS);
    forall i | 0 <= i < |xs|
      ensures xs[i].Int?
    {
      assert Parameters.KindOf(xs[i]) == Parameters.UI;
    }
    TlvAddresses(xs);
  }

  /** And so does the route. */
  lemma RouteEncodedBack(m: Store, num: int, count: int)
    requires Stored(m)
    ensures Route(Encoded(m, num, count)) == HopsOf(Configuration.ValuesIn(m, Parameters.RC_ERO))
  {
    forall o: Object
      ensures o in Before(m, num, count) || o in Behind(m)
        ==> o.otype !in {OBJECT_ERO_ADDR, OBJECT_ERO_PREF, OBJECT_ERO_SL}
    {
      NeitherHops(m, num, count, o);
      if o in TlvObjects(Configuration.ValuesIn(m, Parameters.RC_RSVP_HOP_TLVS)) { HopFits(m, o); }
    }
    RouteBack(Before(m, num, count), HopsOf(Configuration.ValuesIn(m, Parameters.RC_ERO)), Behind(m));
  }

  // ---- The configuration

  /** The parameter whose value a decoded parameter has: its own, but for the data interfaces, which are those of the
      control interface, and the source of a call, which is the TNA. The path status has none. */
  function Origin(p: Param): Option<Param> {
    if p in {Parameters.RC_DATA_IN_IF_ADDR, Parameters.RC_DATA_OUT_IF_ADDR} then Some(Parameters.RC_CONTROL_OUT_IF_ADDR)
    else if p in {Parameters.RC_DATA_IN_IF_HANDLE, Parameters.RC_DATA_OUT_IF_HANDLE} then
      Some(Parameters.RC_CONTROL_OUT_IF_HANDLE)
    else if p == Parameters.RC_CALL_ID_SRC_TN_ADDR then Some(Parameters.RC_TNA_SRC_ADDR)
    else if p == Parameters.RC_ERO || (p != Parameters.RC_PATH_STATUS && IsSource(p)) then Some(p)
    else None
  }

  predicate IsSource(p: Param) {
    exists t | 1 <= t <= LAST_TYPE :: Source(t).Some? && Source(t).value.p == p
  }

  /** The value of a stored hop without its padding. */
  function Unpadded(m: Store, p: Param): seq<Parameters.Value> {
    var xs := Configuration.ValuesIn(m, p);
    if p == Parameters.RC_ERO then Blocks(HopsOf(xs)) else xs
  }

  lemma Files(t: nat)
    requires Source(t).Some?
    ensures Source(t).value.p in ParamsOf(t)
    ensures t == 3 ==> Parameters.RC_DATA_IN_IF_ADDR in ParamsOf(t) && Parameters.RC_DATA_OUT_IF_ADDR in ParamsOf(t)
    ensures t == 26 ==>
      Parameters.RC_DATA_IN_IF_HANDLE in ParamsOf(t) && Parameters.RC_DATA_OUT_IF_HANDLE in ParamsOf(t)
    ensures t == 27 ==> Parameters.RC_CALL_ID_SRC_TN_ADDR in ParamsOf(t)
  {
  }

  lemma FiledFrom(t: nat, p: Param)
    requires p in ParamsOf(t)
    ensures Source(t).Some? && p != Parameters.RC_ERO
    ensures p == Source(t).value.p
      || (t == 3 && p in {Parameters.RC_DATA_IN_IF_ADDR, Parameters.RC_DATA_OUT_IF_ADDR})
      || (t == 26 && p in {Parameters.RC_DATA_IN_IF_HANDLE, Parameters.RC_DATA_OUT_IF_HANDLE})
      || (t == 27 && p == Parameters.RC_CALL_ID_SRC_TN_ADDR)
  {
  }

  /** The parameters that are filed without an object of their own. */
  predicate Copied(p: Param) {
    p in {Parameters.RC_DATA_IN_IF_ADDR, Parameters.RC_DATA_OUT_IF_ADDR, Parameters.RC_DATA_IN_IF_HANDLE,
          Parameters.RC_DATA_OUT_IF_HANDLE, Parameters.RC_CALL_ID_SRC_TN_ADDR}
  }

  lemma SourceNotCopied(t: nat)
    requires Source(t).Some?
    ensures !Copied(Source(t).value.p) && (Source(t).value.p == Parameters.RC_PATH_STATUS <==> t == OBJECT_PATH_STATE)
    ensures 1 <= t <= LAST_TYPE
  {
  }

  predicate FiledSomewhere(p: Param) {
    exists t | 1 <= t <= LAST_TYPE :: p in ParamsOf(t)
  }

  lemma OriginFiled(p: Param)
    ensures Origin(p).Some? && p != Parameters.RC_ERO ==> FiledSomewhere(p)
  {
    Files(3);
    Files(26);
    Files(27);
    if IsSource(p) {
      var t :| 1 <= t <= LAST_TYPE && Source(t).Some? && Source(t).value.p == p;
      Files(t);
    }
  }

  /** The parameter that a decoded parameter has its value from is the one its object was made from. */
  lemma OriginIsSource(t: nat, p: Param)
    requires p in ParamsOf(t)
    ensures Source(t).Some? && p != Parameters.RC_ERO && Source(t).value.p != Parameters.RC_ERO
    ensures Origin(p) == if t == OBJECT_PATH_STATE then None else Some(Source(t).value.p)
    ensures t == OBJECT_HOP_ADDR ==> p == Parameters.RC_RSVP_HOP_TLVS == Source(t).value.p
  {
    FiledFrom(t, p);
    SourceNotCopied(t);
    SourceShape(t);
  }

  lemma FiledBack(m: Store, num: int, count: int, t: nat, p: Param)
    requires Stored(m) && p in ParamsOf(t)
    ensures Configuration.ValuesIn(KeepAll(Encoded(m, num, count)), p)
      == if Origin(p).Some? then Configuration.ValuesIn(m, Origin(p).value) else []
    ensures p != Parameters.RC_ERO && Origin(p) != Some(Parameters.RC_ERO)
  {
    OriginIsSource(t, p);
    hide Source, Origin, ParamsOf, Encoded, KeepAll, Stored;
    if t == OBJECT_HOP_ADDR {
      HopsBack(m, num, count);
    } else {
      SingleBack(m, num, count, t, p);
    }
  }

  lemma NeverFiled(m: Store, num: int, count: int, p: Param)
    requires Stored(m) && !FiledSomewhere(p)
    ensures p !in KeepAll(Encoded(m, num, count))
  {
    var objects := Encoded(m, num, count);
    EncodedFits(m, num, count);
    forall k | 0 <= k < |objects|
      ensures p !in ParamsOf(objects[k].otype)
    {
      if p in ParamsOf(objects[k].otype) {
        FiledFrom(objects[k].otype, p);
        SourceNotCopied(objects[k].otype);
      }
    }
    NotFiled(objects, p);
  }

  /** Decoding what the agent encodes gives every parameter it writes back under the name it had, the path status
      excepted, and puts nothing else in the configuration but the copies. */
  lemma EncodedComesBack(m: Store, num: int, count: int, p: Param)
    requires Stored(m)
    ensures Configuration.ValuesIn(AgentStore(Encoded(m, num, count)), p)
      == if Origin(p).Some? then Unpadded(m, Origin(p).value) else []
  {
    if p == Parameters.RC_ERO {
      RouteComesBack(m, num, count);
    } else {
      OthersComeBack(m, num, count, p);
      RouteLeavesOthers(m, num, count, p);
    }
  }

  lemma RouteComesBack(m: Store, num: int, count: int)
    requires Stored(m)
    ensures Configuration.ValuesIn(AgentStore(Encoded(m, num, count)), Parameters.RC_ERO)
      == Unpadded(m, Parameters.RC_ERO)
    ensures Origin(Parameters.RC_ERO) == Some(Parameters.RC_ERO)
  {
    EncodedFits(m, num, count);
    NoRouteYet(Encoded(m, num, count));
    RouteEncodedBack(m, num, count);
  }

  lemma RouteLeavesOthers(m: Store, num: int, count: int, p: Param)
    requires p != Parameters.RC_ERO
    ensures Configuration.ValuesIn(AgentStore(Encoded(m, num, count)), p)
      == Configuration.ValuesIn(KeepAll(Encoded(m, num, count)), p)
  {
  }

  lemma OthersComeBack(m: Store, num: int, count: int, p: Param)
    requires Stored(m) && p != Parameters.RC_ERO
    ensures Configuration.ValuesIn(KeepAll(Encoded(m, num, count)), p)
      == if Origin(p).Some? then Unpadded(m, Origin(p).value) else []
  {
    OriginFiled(p);
    if FiledSomewhere(p) {
      var t :| 1 <= t <= LAST_TYPE && p in ParamsOf(t);
      hide Origin, Encoded, KeepAll, ParamsOf;
      FiledBack(m, num, count, t, p);
    } else {
      NeverFiled(m, num, count, p);
    }
  }

  /** A hop comes back but for its two bytes of padding. */
  lemma HopComesBack(m: Store, i: nat)
    requires Stored(m) && Parameters.RC_ERO in m && i < |m[Parameters.RC_ERO]|
    ensures var h := m[Parameters.RC_ERO][i]; var back := Unpadded(m, Parameters.RC_ERO);
      |back| == |m[Parameters.RC_ERO]| && h.Block? && |h.bytes| == Parameters.ERO_SIZE
      && back[i] == Parameters.Block(h.bytes[..6] + [0, 0])
  {
    var h := m[Parameters.RC_ERO][i];
    assert Parameters.KindOf(h) == Parameters.VS;
    Host32Back(h.bytes[..4]);
    assert h.bytes[..6] == h.bytes[..4] + [h.bytes[4], h.bytes[5]];
  }

  lemma Host16Back(s: seq<byte>)
    requires |s| == 2
    ensures Host16(FromHost16(s)) == s
  {
  }

  lemma Host32Back(s: seq<byte>)
    requires |s| == 4
    ensures Host32(FromHost32(s)) == s
  {
    var lo, hi := FromHost16(s[..2]), FromHost16(s[2..]);
    assert FromHost32(s) % 0x1_0000 == lo && FromHost32(s) / 0x1_0000 == hi;
    Host16Back(s[..2]);
    Host16Back(s[2..]);
    assert s == s[..2] + s[2..];
    hide Host16, FromHost16;
  }

  // ---- Through the packet

  lemma EncodedSendable(m: Store, num: int, count: int)
    requires Stored(m) && NamesFit(m)
    ensures Sendable(Encoded(m, num, count))
  {
    hide Encoded, WellFormed, Payload;
    forall o | o in Encoded(m, num, count)
      ensures WellFormed(o) && |Payload(o.value)| < 0x100
    {
      ObjectFitsIn(m, num, count, o);
    }
  }

  /** The same through a packet, as long as the objects can be counted and names have fewer than 256 bytes. */
  lemma AgentReadsItself(m: Store, h: Header, num: int, count: int, p: Param)
    requires Stored(m) && NamesFit(m) && |Encoded(m, num, count)| < 0x100
    ensures Sendable(Encoded(m, num, count)) && |Packet(Agent, h, Encoded(m, num, count))| >= 5
    ensures var read := Read(AgentReader, Packet(Agent, h, Encoded(m, num, count)));
      && read.Some?
      && Configuration.ValuesIn(AgentStore(read.value), p)
        == if Origin(p).Some? then Unpadded(m, Origin(p).value) else []
  {
    var objects := Encoded(m, num, count);
    EncodedSendable(m, num, count);
    Interoperates(Agent, AgentReader, h, objects);
    KeepAllWithout(objects);
    SameRoute(objects);
    EncodedComesBack(m, num, count, p);
  }

  // ---- The encoding constructor

  method AddPresent(m: Store, objects: seq<Object>, t: nat) returns (r: seq<Object>)
    ensures r == objects + OneObject(m, t)
  {
    if Single(t) && Source(t).value.p in m && m[Source(t).value.p] != [] {
      r := objects + [Object(t, Cast(Source(t).value.shape, m[Source(t).value.p][0]))];
    } else {
      r := objects;
    }
  }

  /** The `if` statements for a range of types. */
  method AddRange(m: Store, objects: seq<Object>, from: nat, to: nat) returns (r: seq<Object>)
    requires from <= to
    ensures r == objects + SingleObjects(m, from, to)
  {
    r := objects;
    for t := from to to
      invariant r == objects + SingleObjects(m, from, t)
    {
      r := AddPresent(m, r, t);
    }
  }

  /** The loop over the hops of the route. */
  method AddRoute(m: Store, objects: seq<Object>) returns (r: seq<Object>)
    requires Stored(m)
    ensures r == objects + RouteObjects(HopsOf(Configuration.ValuesIn(m, Parameters.RC_ERO)))
  {
    r := objects;
    var t := 0;
    ghost var hops := HopsOf(Configuration.ValuesIn(m, Parameters.RC_ERO));
    assert hops[..0] == [];
    hide RouteObjects, Stored;
    NoObjects();
    while Configuration.PresentAt(m, Parameters.TypeOf(Parameters.RC_ERO), Parameters.RC_ERO, t)
      invariant t <= |hops|
      invariant r == objects + RouteObjects(hops[..t])
      decreases |hops| - t
    {
      OneMoreHop(hops, t);
      Regroup(objects, RouteObjects(hops[..t]), HopObjects(hops[t]));
      r := r + HopObjects(HopOf(m[Parameters.RC_ERO][t]));
      t := t + 1;
    }
    assert hops[..t] == hops;
  }

  lemma NoObjects()
    ensures RouteObjects([]) == []
  {
  }

  lemma OneMoreHop(hops: seq<Hop>, t: nat)
    requires t < |hops|
    ensures RouteObjects(hops[..t + 1]) == RouteObjects(hops[..t]) + HopObjects(hops[t])
  {
    assert hops[..t + 1][..t] == hops[..t];
  }

  /** The loop over the hops of a list. */
  method AddTlvs(m: Store, objects: seq<Object>) returns (r: seq<Object>)
    requires Stored(m)
    ensures r == objects + TlvObjects(Configuration.ValuesIn(m, Parameters.RC_RSVP_HOP_TLVS))
  {
    r := objects;
    var t := 0;
    ghost var xs := Configuration.ValuesIn(m, Parameters.RC_RSVP_HOP_TLVS);
    while Configuration.PresentAt(m, Parameters.TypeOf(Parameters.RC_RSVP_HOP_TLVS), Parameters.RC_RSVP_HOP_TLVS, t)
      invariant t <= |xs|
      invariant r == objects + TlvObjects(xs[..t])
      decreases |xs| - t
    {
      assert TlvObjects(xs[..t + 1])[..t] == TlvObjects(xs[..t]);
      r := r + [Object(OBJECT_HOP_ADDR, Cast(OfAddr, m[Parameters.RC_RSVP_HOP_TLVS][t]))];
      t := t + 1;
    }
    assert xs[..t] == xs;
  }

  /** The encoding constructor. */
  method EncodeAgent(m: Store, h: Header, num: int, count: int) returns (packet: seq<byte>)
    requires Stored(m) && NamesFit(m)
    ensures Sendable(Encoded(m, num, count)) && packet == Packet(Agent, h, Encoded(m, num, count))
  {
    EncodedSendable(m, num, count);
    var objects := EncodeObjects(m, num, count);
    var built := Build(Agent, h, objects);
    packet := built.value;
  }

  method EncodeObjects(m: Store, num: int, count: int) returns (objects: seq<Object>)
    requires Stored(m)
    ensures objects == Encoded(m, num, count)
  {
    objects := [];
    if 0 <= num < count {
      objects := [Object(21, Int(num % 0x1_0000_0000)), Object(22, Int(count % 0x1_0000_0000))];
    }
    hide SingleObjects, RouteObjects, TlvObjects;
    objects := AddRange(m, objects, 1, FIRST_AFTER_NAME);
    objects := AddRoute(m, objects);
    ghost var tlvs := TlvObjects(Configuration.ValuesIn(m, Parameters.RC_RSVP_HOP_TLVS));
    Regroup(objects, tlvs, SingleObjects(m, FIRST_AFTER_HOPS, LAST_TYPE + 1));
    objects := AddTlvs(m, objects);
    objects := AddRange(m, objects, FIRST_AFTER_HOPS, LAST_TYPE + 1);
  }

  lemma Regroup(a: seq<Object>, b: seq<Object>, c: seq<Object>)
    ensures a + b + c == a + (b + c)
  {
  }
}
