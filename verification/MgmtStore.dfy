/** What the agent and the C++ library keep of the objects of a management packet. The agent files each object under one
    to three parameters of its configuration, which keeps the first value; the library has a field for each type, which
    keeps the last. */
module MgmtStore {
  import opened Bytes
  import opened Options
  import opened MgmtCodec
  import opened MgmtEro
  import opened MgmtLoops
  import opened Binary32
  import Parameters
  import Configuration

  type Param = Parameters.Param
  type Store = Configuration.Store

  const OBJECT_HOP_ADDR: nat := 16
  const OBJECT_PATH_STATE: nat := 34

  /** The types the agent collects in lists. */
  const LISTED: set<nat> := {OBJECT_ERO_ADDR, OBJECT_ERO_PREF, OBJECT_ERO_SL, OBJECT_HOP_ADDR}

  // ---- Values

  const MINUS_ZERO: u32 := 0x8000_0000

  predicate IsNan(bits: u32) {
    bits / 0x80_0000 % 0x100 == 255 && bits % 0x80_0000 != 0
  }

  /** A float with these bits in memory. */
  function FloatOf(bits: u32): Float {
    if bits == MINUS_ZERO || IsNan(bits) then Raw(bits) else ReadIeeeFloat(Net32(bits))
  }

  function BitsOf(f: Float): nat {
    if f.Raw? then f.bits else if Standard(f) then Ieee(f) else 0
  }

  lemma BitFieldsOf(bits: u32)
    ensures var s, e, f := bits / 0x8000_0000, bits / 0x80_0000 % 0x100, bits % 0x80_0000;
      s <= 1 && bits == s * 0x8000_0000 + e * 0x80_0000 + f
  {
    var top := bits / 0x80_0000;
    assert bits == top * 0x80_0000 + bits % 0x80_0000;
    assert top == top / 0x100 * 0x100 + top % 0x100;
    assert top / 0x100 == bits / 0x8000_0000;
  }

  lemma FloatKept(bits: u32)
    ensures BitsOf(FloatOf(bits)) == bits
  {
    Net32RoundTrip(bits);
    BitFieldsOf(bits);
    FieldsKept(bits, bits / 0x8000_0000, bits / 0x80_0000 % 0x100, bits % 0x80_0000);
    hide IsNan, Net32, FromNet32;
  }

  /** What the parts of a float make of it, put together again. */
  lemma FieldsKept(bits: u32, s: nat, e: nat, f: nat)
    requires s <= 1 && e < 0x100 && f < 0x80_0000 && bits == s * 0x8000_0000 + e * 0x80_0000 + f
    ensures e == 255 && f == 0 ==> BitsOf(Infinity(s == 1)) == bits
    ensures 0 < e < 255 ==> BitsOf(Normal(s == 1, f + HIDDEN_BIT, e - BIAS - FRACTION_BITS)) == bits
    ensures e == 0 && f == 0 && bits != MINUS_ZERO ==> bits == 0
  {
    assert HIDDEN_BIT == 0x80_0000;
  }

  lemma SameFloat(a: u32, b: u32)
    requires FloatOf(a) == FloatOf(b)
    ensures a == b
  {
    FloatKept(a);
    FloatKept(b);
  }

  /** A name ends at its first zero byte. */
  function Shown(v: Value): Value {
    match v
    case Text(text) => Text(Parameters.CStringOf(text))
    case _ => v
  }

  /** The value as a parameter. */
  function Filed(v: Value): Parameters.Value {
    match v
    case Byte(c) => Parameters.Char(c)
    case Short(s) => Parameters.Short(s)
    case Int(i) => Parameters.Int(i)
    case Addr(a) => Parameters.Int(a)
    case Float(bits) => Parameters.Real(FloatOf(bits))
    case Text(text) => Parameters.Text(Parameters.CStringOf(text))
  }

  /** The parameter value says what the object said. */
  predicate Says(x: Parameters.Value, v: Value) {
    match v
    case Byte(c) => x == Parameters.Char(c)
    case Short(s) => x == Parameters.Short(s)
    case Int(i) => x == Parameters.Int(i)
    case Addr(a) => x == Parameters.Int(a)
    case Float(bits) => x == Parameters.Real(FloatOf(bits))
    case Text(text) => x.Text? && x.text == text
  }

  lemma SaysShown(kept: Value, v: Value)
    requires ShapeOfValue(kept) == ShapeOfValue(v)
    ensures Says(Filed(kept), v) <==> Shown(kept) == v
  {
    if kept.Float? && FloatOf(kept.bits) == FloatOf(v.bits) { SameFloat(kept.bits, v.bits); }
  }

  // ---- Which parameters an object is filed under

  function ParamsOf(otype: nat): seq<Param> {
    match otype
    case 1 => [Parameters.RC_SESSION_DEST_ADDR]
    case 2 => [Parameters.RC_EXTENDED_IPV4_ADDR]
    case 3 => [Parameters.RC_CONTROL_OUT_IF_ADDR, Parameters.RC_DATA_IN_IF_ADDR, Parameters.RC_DATA_OUT_IF_ADDR]
    case 4 => [Parameters.RC_REFRESH_PERIOD]
    case 5 => [Parameters.RC_TOKEN_BUCKET_RATE]
    case 6 => [Parameters.RC_TOKEN_BUCKET_SIZE]
    case 7 => [Parameters.RC_PEAK_DATA_RATE]
    case 8 => [Parameters.RC_UPSTREAM_LABEL]
    case 9 => [Parameters.RC_LSP_ENC_TYPE]
    case 10 => [Parameters.RC_LSP_SWITCHING_TYPE]
    case 11 => [Parameters.RC_LSP_GPID]
    case 12 => [Parameters.RC_SESSION_NAME]
    case 16 => [Parameters.RC_RSVP_HOP_TLVS]
    case 17 => [Parameters.RC_ERROR_NODE_ADDR]
    case 18 => [Parameters.RC_ERROR_FLAGS]
    case 19 => [Parameters.RC_ERROR_CODE]
    case 20 => [Parameters.RC_ERROR_VALUE]
    case 23 => [Parameters.RC_TUNNEL_ID]
    case 24 => [Parameters.RC_TR_D_ADDR]
    case 25 => [Parameters.RC_TR_RD_ADDR]
    case 26 => [Parameters.RC_CONTROL_OUT_IF_HANDLE, Parameters.RC_DATA_OUT_IF_HANDLE, Parameters.RC_DATA_IN_IF_HANDLE]
    case 27 => [Parameters.RC_TNA_SRC_ADDR, Parameters.RC_CALL_ID_SRC_TN_ADDR]
    case 28 => [Parameters.RC_TNA_DST_ADDR]
    case 29 => [Parameters.RC_CALL_ID_LOCAL_ID1]
    case 30 => [Parameters.RC_CALL_ID_LOCAL_ID2]
    case 31 => [Parameters.RC_SENDER_SRC_ID]
    case 32 => [Parameters.RC_SETUP_PRIORITY]
    case 33 => [Parameters.RC_HOLDING_PRIORITY]
    case 34 => [Parameters.RC_PATH_STATUS]
    case 35 => [Parameters.RC_SERVICE_LEVEL]
    case 36 => [Parameters.RC_ETHERNET_CIR]
    case 37 => [Parameters.RC_ETHERNET_CBS]
    case 38 => [Parameters.RC_ETHERNET_EIR]
    case 39 => [Parameters.RC_ETHERNET_EBS]
    case 40 => [Parameters.RC_ETHERNET_SW_GRANUALITY]
    case 41 => [Parameters.RC_ETHERNET_INDEX]
    case 42 => [Parameters.RC_ETHERNET_PROFILE]
    case _ => []
  }

  lemma NoOther(t: nat, u: nat, p: Param)
    requires p in ParamsOf(t) && t < u
    ensures p !in ParamsOf(u)
  {
  }

  /** Every parameter comes from one type of object. */
  lemma OneSource(t: nat, u: nat, p: Param)
    requires p in ParamsOf(t) && p in ParamsOf(u)
    ensures t == u
  {
    if t < u {
      NoOther(t, u, p);
    } else if u < t {
      NoOther(u, t, p);
    }
  }

  predicate Apart(ps: seq<Param>) {
    forall i, j :: 0 <= i < j < |ps| ==> ps[i] != ps[j]
  }

  /** The parameters have the type of the value, but for the path status: it is declared an `unsigned int` and added
      as an `unsigned short`. */
  lemma TypesMatch(o: Object, p: Param)
    requires WellFormed(o) && p in ParamsOf(o.otype)
    ensures !Parameters.TypeOf(p).Untyped? && Apart(ParamsOf(o.otype)) && p != Parameters.RC_ERO
    ensures Parameters.TypeOf(p).kind == Parameters.KindOf(Filed(o.value)) <==> o.otype != OBJECT_PATH_STATE
    ensures Parameters.TypeOf(p).Table? <==> o.otype == OBJECT_HOP_ADDR
    ensures !Filed(o.value).Block?
  {
  }

  // ---- The agent

  function AddEach(m: Store, ps: seq<Param>, x: Parameters.Value): Store
    decreases |ps|
  {
    if ps == [] then m else AddEach(Configuration.AddTo(m, Parameters.TypeOf(ps[0]), ps[0], x).store, ps[1..], x)
  }

  /** One turn of the decoding switch, as far as the configuration goes. */
  function Keep(m: Store, o: Object): Store {
    AddEach(m, ParamsOf(o.otype), Filed(o.value))
  }

  function KeepAll(objects: seq<Object>): Store {
    if objects == [] then map[] else Keep(KeepAll(objects[..|objects| - 1]), objects[|objects| - 1])
  }

  /** A hop as the parameter holds it; nothing reads the two bytes of padding. */
  function Block(h: Hop): (x: Parameters.Value)
    ensures x.Block? && |x.bytes| == Parameters.ERO_SIZE
  {
    Parameters.Block(Host32(h.address) + [h.prefixLength, h.loose, 0, 0])
  }

  function Blocks(hops: seq<Hop>): (xs: seq<Parameters.Value>)
    ensures |xs| == |hops| && forall i :: 0 <= i < |hops| ==> xs[i] == Block(hops[i])
  {
    seq(|hops|, i requires 0 <= i < |hops| => Block(hops[i]))
  }

  function WithRoute(m: Store, hops: seq<Hop>): Store {
    if hops == [] then m else m[Parameters.RC_ERO := Blocks(hops)]
  }

  /** The configuration that the decoding constructor of the agent leaves. */
  function AgentStore(objects: seq<Object>): Store {
    WithRoute(KeepAll(objects), Route(objects))
  }

  predicate SameAt(m: Store, m': Store, p: Param) {
    (p in m <==> p in m') && (p in m ==> m[p] == m'[p])
  }

  lemma {:induction false} AddEachAt(m: Store, ps: seq<Param>, x: Parameters.Value, p: Param)
    requires Apart(ps)
    ensures SameAt(AddEach(m, ps, x), if p in ps then Configuration.AddTo(m, Parameters.TypeOf(p), p, x).store
      else m, p)
    decreases |ps|
  {
    if ps != [] {
      var next := Configuration.AddTo(m, Parameters.TypeOf(ps[0]), ps[0], x).store;
      AddEachAt(next, ps[1..], x, p);
      assert ps == [ps[0]] + ps[1..];
    }
  }

  /** The value of the first object of the type. */
  function FirstOf(objects: seq<Object>, t: nat): Option<Value> {
    if objects == [] then None
    else
      var before, o := FirstOf(objects[..|objects| - 1], t), objects[|objects| - 1];
      if before.None? && o.otype == t then Some(o.value) else before
  }

  function LastOf(objects: seq<Object>, t: nat): Option<Value> {
    if objects == [] then None
    else if objects[|objects| - 1].otype == t then Some(objects[|objects| - 1].value)
    else LastOf(objects[..|objects| - 1], t)
  }

  lemma {:induction false} FirstIsOne(objects: seq<Object>, t: nat)
    ensures FirstOf(objects, t).Some? <==> exists i :: 0 <= i < |objects| && objects[i].otype == t
    ensures FirstOf(objects, t).Some?
      ==> exists i :: 0 <= i < |objects| && objects[i] == Object(t, FirstOf(objects, t).value)
    ensures LastOf(objects, t).Some? <==> FirstOf(objects, t).Some?
    ensures LastOf(objects, t).Some?
      ==> exists i :: 0 <= i < |objects| && objects[i] == Object(t, LastOf(objects, t).value)
  {
    if objects != [] {
      FirstIsOne(objects[..|objects| - 1], t);
      assert objects[|objects| - 1].otype == t ==> objects[|objects| - 1] == Object(t, objects[|objects| - 1].value);
    }
  }

  lemma KeepAt(m: Store, o: Object, t: nat, p: Param)
    requires WellFormed(o) && p in ParamsOf(t) && t != OBJECT_HOP_ADDR
    ensures SameAt(Keep(m, o), if o.otype == t && t != OBJECT_PATH_STATE && p !in m then m[p := [Filed(o.value)]]
      else m, p)
  {
    if o.otype == t {
      TypesMatch(o, p);
    } else if p in ParamsOf(o.otype) {
      OneSource(t, o.otype, p);
    }
    if ParamsOf(o.otype) != [] { TypesMatch(o, ParamsOf(o.otype)[0]); }
    AddEachAt(m, ParamsOf(o.otype), Filed(o.value), p);
  }

  /** A parameter has the value of the first object filed under it. */
  lemma {:induction false} KeepAllAt(objects: seq<Object>, t: nat, p: Param)
    requires AllWellFormed(objects) && p in ParamsOf(t) && t != OBJECT_HOP_ADDR
    ensures p in KeepAll(objects) <==> t != OBJECT_PATH_STATE && FirstOf(objects, t).Some?
    ensures p in KeepAll(objects) ==> KeepAll(objects)[p] == [Filed(FirstOf(objects, t).value)]
  {
    if objects != [] {
      var init, last := objects[..|objects| - 1], objects[|objects| - 1];
      KeepAllAt(init, t, p);
      KeepAt(KeepAll(init), last, t, p);
    }
  }

  /** The addresses of the hops a message lists one by one. */
  function HopAddresses(objects: seq<Object>): seq<Parameters.Value> {
    if objects == [] then []
    else
      var rest, o := HopAddresses(objects[..|objects| - 1]), objects[|objects| - 1];
      if o.otype == OBJECT_HOP_ADDR then rest + [Filed(o.value)] else rest
  }

  lemma KeepHop(m: Store, o: Object)
    requires WellFormed(o)
    ensures Configuration.ValuesIn(Keep(m, o), Parameters.RC_RSVP_HOP_TLVS)
            == Configuration.ValuesIn(m, Parameters.RC_RSVP_HOP_TLVS)
              + if o.otype == OBJECT_HOP_ADDR then [Filed(o.value)] else []
  {
    var p := Parameters.RC_RSVP_HOP_TLVS;
    assert p in ParamsOf(OBJECT_HOP_ADDR);
    if o.otype == OBJECT_HOP_ADDR {
      TypesMatch(o, p);
    } else if p in ParamsOf(o.otype) {
      OneSource(OBJECT_HOP_ADDR, o.otype, p);
    }
    if ParamsOf(o.otype) != [] { TypesMatch(o, ParamsOf(o.otype)[0]); }
    AddEachAt(m, ParamsOf(o.otype), Filed(o.value), p);
  }

  lemma {:induction false} KeepAllHops(objects: seq<Object>)
    requires AllWellFormed(objects)
    ensures Configuration.ValuesIn(KeepAll(objects), Parameters.RC_RSVP_HOP_TLVS) == HopAddresses(objects)
  {
    if objects != [] {
      KeepAllHops(objects[..|objects| - 1]);
      KeepHop(KeepAll(objects[..|objects| - 1]), objects[|objects| - 1]);
    }
  }

  lemma {:induction false} NoRouteYet(objects: seq<Object>)
    requires AllWellFormed(objects)
    ensures Parameters.RC_ERO !in KeepAll(objects)
  {
    if objects != [] {
      var init, last := objects[..|objects| - 1], objects[|objects| - 1];
      NoRouteYet(init);
      if ParamsOf(last.otype) != [] { TypesMatch(last, ParamsOf(last.otype)[0]); }
      if Parameters.RC_ERO in ParamsOf(last.otype) { TypesMatch(last, Parameters.RC_ERO); }
      AddEachAt(KeepAll(init), ParamsOf(last.otype), Filed(last.value), Parameters.RC_ERO);
    }
  }

  // ---- What the agent keeps

  predicate KeptUnder(m: Store, ps: seq<Param>, v: Value) {
    forall p :: p in ps ==> p in m && |m[p]| == 1 && Says(m[p][0], v)
  }

  /** The object is filed, and every parameter it is filed under says what it said. */
  predicate Kept(m: Store, o: Object) {
    ParamsOf(o.otype) != [] && KeptUnder(m, ParamsOf(o.otype), o.value)
  }

  lemma UnderAll(m: Store, ps: seq<Param>, x: Parameters.Value, v: Value, present: bool)
    requires ps != [] && forall p :: p in ps ==> (p in m <==> present) && (p in m ==> m[p] == [x])
    ensures KeptUnder(m, ps, v) <==> present && Says(x, v)
  {
    assert ps[0] in ps;
  }

  lemma FiledWhere(t: nat)
    requires ShapeOf(t).Some? && t !in LISTED
    ensures ParamsOf(t) == [] <==> t in MULTI_PART
  {
  }

  lemma RouteApart(objects: seq<Object>, t: nat, p: Param)
    requires AllWellFormed(objects) && p in ParamsOf(t) && t != OBJECT_HOP_ADDR
    requires FirstOf(objects, t).Some? && WellFormed(Object(t, FirstOf(objects, t).value))
    ensures p in AgentStore(objects) <==> t != OBJECT_PATH_STATE
    ensures p in AgentStore(objects) ==> AgentStore(objects)[p] == [Filed(FirstOf(objects, t).value)]
  {
    KeepAllAt(objects, t, p);
    TypesMatch(Object(t, FirstOf(objects, t).value), p);
  }

  /** A single object is kept exactly when its type is kept at all and the first object of that type said the same, as
      far as its first zero byte. */
  lemma {:induction false} AgentKeeps(objects: seq<Object>, k: nat)
    requires AllWellFormed(objects) && k < |objects| && objects[k].otype !in LISTED
    ensures FirstOf(objects, objects[k].otype).Some?
    ensures Kept(AgentStore(objects), objects[k]) <==>
            objects[k].otype !in MULTI_PART && objects[k].otype != OBJECT_PATH_STATE
            && Shown(FirstOf(objects, objects[k].otype).value) == objects[k].value
  {
    var t, m := objects[k].otype, AgentStore(objects);
    FirstIsOne(objects, t);
    var first := FirstOf(objects, t).value;
    assert WellFormed(objects[k]) && WellFormed(Object(t, first));
    FiledWhere(t);
    KeepsFirst(objects, t, ParamsOf(t), first, objects[k].value, m);
  }

  lemma {:induction false} KeepsFirst(objects: seq<Object>, t: nat, ps: seq<Param>, first: Value, v: Value, m: Store)
    requires AllWellFormed(objects) && ps == ParamsOf(t) && t !in LISTED && m == AgentStore(objects)
    requires FirstOf(objects, t) == Some(first) && WellFormed(Object(t, first)) && WellFormed(Object(t, v))
    ensures ps != [] ==> (KeptUnder(m, ps, v) <==> t != OBJECT_PATH_STATE && Shown(first) == v)
  {
    forall p | p in ps
      ensures p in m <==> t != OBJECT_PATH_STATE
      ensures p in m ==> m[p] == [Filed(first)]
    {
      RouteApart(objects, t, p);
    }
    SaysShown(first, v);
    if ps != [] { UnderAll(m, ps, Filed(first), v, t != OBJECT_PATH_STATE); }
  }

  /** The stored route has a hop for every address, every prefix length and every flag the message listed. */
  predicate RouteKept(m: Store, objects: seq<Object>) {
    var xs := Configuration.ValuesIn(m, Parameters.RC_ERO);
    && |xs| == |Addresses(objects)| == |Prefixes(objects)| == |Looses(objects)|
    && forall i :: 0 <= i < |xs| ==>
         xs[i].Block? && Host32(Addresses(objects)[i]) + [Prefixes(objects)[i], Looses(objects)[i]] <= xs[i].bytes
  }

  lemma {:induction false} RouteKeptExactly(objects: seq<Object>)
    requires AllWellFormed(objects)
    ensures RouteKept(AgentStore(objects), objects)
      <==> |Addresses(objects)| == |Prefixes(objects)| == |Looses(objects)|
  {
    NoRouteYet(objects);
  }

  predicate HopsKept(m: Store, objects: seq<Object>) {
    Configuration.ValuesIn(m, Parameters.RC_RSVP_HOP_TLVS) == HopAddresses(objects)
  }

  lemma HopsAlwaysKept(objects: seq<Object>)
    requires AllWellFormed(objects)
    ensures HopsKept(AgentStore(objects), objects)
  {
    KeepAllHops(objects);
  }

  predicate AllKept(m: Store, objects: seq<Object>) {
    && (forall k :: 0 <= k < |objects| && objects[k].otype !in LISTED ==> Kept(m, objects[k]))
    && HopsKept(m, objects) && RouteKept(m, objects)
  }

  /** A name without a zero byte. */
  predicate Plain(v: Value) {
    v.Text? ==> 0 !in v.text
  }

  lemma {:induction false} WholeName(text: seq<byte>)
    ensures Parameters.CStringOf(text) == text <==> 0 !in text
    decreases |text|
  {
    if text != [] && text[0] != 0 {
      WholeName(text[1..]);
      assert text == [text[0]] + text[1..];
    }
  }

  lemma ShownWhole(v: Value)
    ensures Shown(v) == v <==> Plain(v)
  {
    if v.Text? { WholeName(v.text); }
  }

  /** No type has two values, but for those the reader collects. */
  predicate Agreeing(objects: seq<Object>, collected: set<nat>) {
    forall i, j :: 0 <= i < j < |objects| && objects[i].otype == objects[j].otype && objects[i].otype !in collected
      ==> objects[i].value == objects[j].value
  }

  /** What the sender of a message must keep to for the agent to keep all of it. */
  predicate Keepable(objects: seq<Object>) {
    && (forall k :: 0 <= k < |objects| ==>
          objects[k].otype !in MULTI_PART && objects[k].otype != OBJECT_PATH_STATE && Plain(objects[k].value))
    && Agreeing(objects, LISTED)
    && |Addresses(objects)| == |Prefixes(objects)| == |Looses(objects)|
  }

  lemma FirstWins(objects: seq<Object>, k: nat)
    requires Agreeing(objects, LISTED) && k < |objects| && objects[k].otype !in LISTED
    ensures FirstOf(objects, objects[k].otype) == Some(objects[k].value)
  {
    var t := objects[k].otype;
    FirstIsOne(objects, t);
    var i :| 0 <= i < |objects| && objects[i] == Object(t, FirstOf(objects, t).value);
    assert objects[i].otype == objects[k].otype;
  }

  lemma {:induction false} KeptTells(objects: seq<Object>, k: nat)
    requires AllWellFormed(objects) && AllKept(AgentStore(objects), objects) && k < |objects|
    requires objects[k].otype !in LISTED
    ensures objects[k].otype !in MULTI_PART && objects[k].otype != OBJECT_PATH_STATE && Plain(objects[k].value)
    ensures FirstOf(objects, objects[k].otype) == Some(objects[k].value)
  {
    AgentKeeps(objects, k);
    FirstIsOne(objects, objects[k].otype);
    var first := FirstOf(objects, objects[k].otype).value;
    var i :| 0 <= i < |objects| && objects[i] == Object(objects[k].otype, first);
    AgentKeeps(objects, i);
    ShownWhole(first);
  }

  /** Whatever objects it reads, the agent keeps every value of them if and only if there is no part number and no path
      status among them, no name with a zero byte, no type with two values, and the route is complete. */
  lemma AgentKeepsAll(objects: seq<Object>)
    requires AllWellFormed(objects)
    ensures AllKept(AgentStore(objects), objects) <==> Keepable(objects)
  {
    var m := AgentStore(objects);
    RouteKeptExactly(objects);
    HopsAlwaysKept(objects);
    if AllKept(m, objects) {
      forall k | 0 <= k < |objects|
        ensures objects[k].otype !in MULTI_PART && objects[k].otype != OBJECT_PATH_STATE && Plain(objects[k].value)
      {
        assert WellFormed(objects[k]);
        if objects[k].otype !in LISTED { KeptTells(objects, k); }
      }
      forall i, j | 0 <= i < j < |objects| && objects[i].otype == objects[j].otype && objects[i].otype !in LISTED
        ensures objects[i].value == objects[j].value
      {
        KeptTells(objects, i);
        KeptTells(objects, j);
      }
    }
    if Keepable(objects) {
      forall k | 0 <= k < |objects| && objects[k].otype !in LISTED
        ensures Kept(m, objects[k])
      {
        AgentKeeps(objects, k);
        FirstWins(objects, k);
        ShownWhole(objects[k].value);
      }
    }
  }

  // ---- Through the codec

  lemma KeepNothing(m: Store, o: Object)
    requires o.otype in MULTI_PART
    ensures Keep(m, o) == m
  {
  }

  lemma {:induction false} WithoutLast(objects: seq<Object>, o: Object)
    ensures Without(MULTI_PART, objects + [o])
      == Without(MULTI_PART, objects) + if o.otype in MULTI_PART then [] else [o]
  {
    if objects == [] {
      assert [] + [o] == [o] && [o][1..] == [];
    } else {
      WithoutLast(objects[1..], o);
      assert (objects + [o])[1..] == objects[1..] + [o];
    }
  }

  lemma KeepAllLast(objects: seq<Object>, o: Object)
    ensures KeepAll(objects + [o]) == Keep(KeepAll(objects), o)
  {
    assert (objects + [o])[..|objects|] == objects;
  }

  function Folded(keep: (Store, Object) -> Store, objects: seq<Object>): Store {
    if objects == [] then map[] else keep(Folded(keep, objects[..|objects| - 1]), objects[|objects| - 1])
  }

  lemma FoldedLast(keep: (Store, Object) -> Store, objects: seq<Object>, o: Object)
    ensures Folded(keep, objects + [o]) == keep(Folded(keep, objects), o)
  {
    assert (objects + [o])[..|objects|] == objects;
  }

  lemma {:induction false} KeepAllFolds(objects: seq<Object>)
    ensures KeepAll(objects) == Folded(Keep, objects)
  {
    if objects != [] {
      KeepAllFolds(objects[..|objects| - 1]);
      KeepAllLast(objects[..|objects| - 1], objects[|objects| - 1]);
      assert objects == objects[..|objects| - 1] + [objects[|objects| - 1]];
    }
  }

  lemma {:induction false} FoldedWithout(keep: (Store, Object) -> Store, objects: seq<Object>)
    requires forall m: Store, o: Object :: o.otype in MULTI_PART ==> keep(m, o) == m
    ensures Folded(keep, Without(MULTI_PART, objects)) == Folded(keep, objects)
  {
    if objects != [] {
      var init, last := objects[..|objects| - 1], objects[|objects| - 1];
      assert objects == init + [last];
      FoldedWithout(keep, init);
      WithoutLast(init, last);
      FoldedLast(keep, init, last);
      if last.otype in MULTI_PART {
        assert Without(MULTI_PART, init) + [] == Without(MULTI_PART, init);
      } else {
        FoldedLast(keep, Without(MULTI_PART, init), last);
      }
    }
  }

  lemma {:induction false} KeepAllWithout(objects: seq<Object>)
    ensures KeepAll(Without(MULTI_PART, objects)) == KeepAll(objects)
  {
    forall m: Store, o: Object | o.otype in MULTI_PART
      ensures Keep(m, o) == m
    {
      KeepNothing(m, o);
    }
    FoldedWithout(Keep, objects);
    KeepAllFolds(objects);
    KeepAllFolds(Without(MULTI_PART, objects));
  }

  /** Whoever sends the agent a message of up to 255 objects, its configuration then holds every value if and only if
      the message is one it can keep. */
  lemma AgentUnderstands(w: Writer, h: Header, objects: seq<Object>)
    requires Sendable(objects) && Small(AgentReader, objects)
    requires forall k :: 0 <= k < |objects| ==> Writes(w, objects[k])
    ensures |Packet(w, h, objects)| >= 5
    ensures var read := Read(AgentReader, Packet(w, h, objects));
      read.Some? && (AllKept(AgentStore(read.value), objects) <==> Keepable(objects))
  {
    Interoperates(w, AgentReader, h, objects);
    KeepAllWithout(objects);
    SameRoute(objects);
    assert AllWellFormed(objects);
    AgentKeepsAll(objects);
  }

  // ---- The C++ library

  const NAME_LENGTH: nat := 50

  type Fields = map<nat, Value>

  /** What a field has room for: the flag of a hop is a `bool`. */
  function Narrowed(o: Object): Value {
    if o.otype == OBJECT_ERO_SL && o.value.Byte? then Byte(if o.value.c == 1 then 1 else 0) else Shown(o.value)
  }

  /** A name that leaves no room for its terminator is copied past the end of its field. */
  predicate TooLong(o: Object) {
    o.value.Text? && |o.value.text| >= NAME_LENGTH
  }

  /** The fields in use after decoding; `None` once a name has been copied past the end of its field. */
  function LibraryFields(objects: seq<Object>): Option<Fields> {
    if objects == [] then Some(map[])
    else
      var before, o := LibraryFields(objects[..|objects| - 1]), objects[|objects| - 1];
      if before.None? || TooLong(o) then None else Some(before.value[o.otype := Narrowed(o)])
  }

  lemma {:induction false} LibraryAt(objects: seq<Object>, t: nat)
    ensures LibraryFields(objects).Some? <==> forall k :: 0 <= k < |objects| ==> !TooLong(objects[k])
    ensures LibraryFields(objects).Some? ==> (t in LibraryFields(objects).value <==> LastOf(objects, t).Some?)
    ensures LibraryFields(objects).Some? && LastOf(objects, t).Some? ==>
      LibraryFields(objects).value[t] == Narrowed(Object(t, LastOf(objects, t).value))
  {
    if objects != [] { LibraryAt(objects[..|objects| - 1], t); }
  }

  /** The flag of a hop is held as the reader of a route takes it: loose exactly when the byte is 1. */
  lemma LooseHeld(objects: seq<Object>, c: byte)
    requires LibraryFields(objects).Some? && LastOf(objects, OBJECT_ERO_SL) == Some(Byte(c))
    ensures OBJECT_ERO_SL in LibraryFields(objects).value
    ensures LibraryFields(objects).value[OBJECT_ERO_SL] == Byte(if c == 1 then 1 else 0)
  {
    LibraryAt(objects, OBJECT_ERO_SL);
  }

  predicate Held(fields: Fields, o: Object) {
    o.otype in fields && fields[o.otype] == o.value
  }

  /** An object is held exactly when the last of its type, as far as its field has room for it, said the same. */
  lemma LibraryHolds(objects: seq<Object>, k: nat)
    requires k < |objects| && LibraryFields(objects).Some?
    ensures LastOf(objects, objects[k].otype).Some?
    ensures Held(LibraryFields(objects).value, objects[k]) <==>
            Narrowed(Object(objects[k].otype, LastOf(objects, objects[k].otype).value)) == objects[k].value
  {
    LibraryAt(objects, objects[k].otype);
    FirstIsOne(objects, objects[k].otype);
  }

  /** An object whose field has room for it. */
  predicate Fitting(o: Object) {
    && (o.value.Text? ==> |o.value.text| < 50) && Plain(o.value)
    && (o.otype == OBJECT_ERO_SL && o.value.Byte? ==> o.value.c <= 1)
  }

  predicate Holdable(objects: seq<Object>) {
    (forall k :: 0 <= k < |objects| ==> Fitting(objects[k])) && Agreeing(objects, {})
  }

  predicate AllHeld(fields: Option<Fields>, objects: seq<Object>) {
    fields.Some? && forall k :: 0 <= k < |objects| ==> Held(fields.value, objects[k])
  }

  lemma NarrowedWhole(o: Object)
    requires !TooLong(o)
    ensures Narrowed(o) == o.value <==> Fitting(o)
  {
    ShownWhole(o.value);
  }

  lemma {:induction false} HeldTells(objects: seq<Object>, k: nat)
    requires AllHeld(LibraryFields(objects), objects) && k < |objects|
    ensures Fitting(objects[k]) && LastOf(objects, objects[k].otype) == Some(objects[k].value)
  {
    var t := objects[k].otype;
    LibraryHolds(objects, k);
    FirstIsOne(objects, t);
    var last := LastOf(objects, t).value;
    var i :| 0 <= i < |objects| && objects[i] == Object(t, last);
    LibraryHolds(objects, i);
    LibraryAt(objects, t);
    NarrowedWhole(objects[i]);
  }

  /** Whatever objects it reads, the library holds every value of them if and only if each fits its field and no type
      has two values. */
  lemma LibraryHoldsAll(objects: seq<Object>)
    ensures AllHeld(LibraryFields(objects), objects) <==> Holdable(objects)
  {
    LibraryAt(objects, 0);
    if AllHeld(LibraryFields(objects), objects) {
      forall k | 0 <= k < |objects|
        ensures Fitting(objects[k]) && LastOf(objects, objects[k].otype) == Some(objects[k].value)
      {
        HeldTells(objects, k);
      }
    }
    if Holdable(objects) {
      forall k | 0 <= k < |objects|
        ensures Held(LibraryFields(objects).value, objects[k])
      {
        assert Fitting(objects[k]);
        LibraryHolds(objects, k);
        FirstIsOne(objects, objects[k].otype);
        NarrowedWhole(objects[k]);
      }
    }
  }

  /** Whoever sends the library a message of up to 255 objects, its fields then hold every value if and only if the
      message is one they have room for. */
  lemma LibraryUnderstands(w: Writer, h: Header, objects: seq<Object>)
    requires Sendable(objects) && Small(LibraryReader, objects)
    requires forall k :: 0 <= k < |objects| ==> Writes(w, objects[k])
    ensures |Packet(w, h, objects)| >= 5
    ensures var read := Read(LibraryReader, Packet(w, h, objects));
      read.Some? && (AllHeld(LibraryFields(read.value), objects) <==> Holdable(objects))
  {
    Interoperates(w, LibraryReader, h, objects);
    LibraryHoldsAll(objects);
  }

  /** Keeping the first value of a type and keeping the last come to the same when no type has two: then the two readers
      understand the same of every object, but for the types and values that only one of them has room for. */
  lemma {:induction false} SameConfiguration(objects: seq<Object>, k: nat)
    requires AllWellFormed(objects) && Agreeing(objects, {}) && k < |objects| && objects[k].otype !in LISTED
    requires forall i :: 0 <= i < |objects| ==> !TooLong(objects[i])
    ensures LibraryFields(objects).Some?
      && (Held(LibraryFields(objects).value, objects[k]) <==> Plain(objects[k].value))
    ensures Kept(AgentStore(objects), objects[k]) <==>
            Held(LibraryFields(objects).value, objects[k])
            && objects[k].otype !in MULTI_PART && objects[k].otype != OBJECT_PATH_STATE
  {
    LibraryAt(objects, 0);
    LibraryHolds(objects, k);
    FirstIsOne(objects, objects[k].otype);
    ShownWhole(objects[k].value);
    FirstWins(objects, k);
    AgentKeeps(objects, k);
  }

  lemma StatusRefused(o: Object)
    requires o.otype == OBJECT_PATH_STATE && o.value.Short?
    ensures AgentStore([o]) == map[]
  {
    var p := Parameters.RC_PATH_STATUS;
    NoStreams([o]);
    KeepAllLast([], o);
    assert [] + [o] == [o];
    assert ParamsOf(o.otype) == [p] && [p][1..] == [];
    assert Configuration.AddTo(map[], Parameters.TypeOf(p), p, Filed(o.value)).store == map[];
    assert AddEach(map[], [p], Filed(o.value)) == AddEach(map[], [], Filed(o.value));
  }

  lemma StatusHeld(o: Object)
    requires o.otype == OBJECT_PATH_STATE && o.value.Short?
    ensures LibraryFields([o]) == Some(map[OBJECT_PATH_STATE := o.value]) && Without(MULTI_PART, [o]) == [o]
  {
    assert [o][..0] == [] && [o][1..] == [];
  }

  /** A path status reaches the library, but not the agent. */
  lemma PathStatusLost(w: Writer, h: Header, status: u16)
    ensures var sent := [Object(OBJECT_PATH_STATE, Short(status))];
      && Sendable(sent) && |Packet(w, h, sent)| >= 5
      && Read(AgentReader, Packet(w, h, sent)) == Some(sent) && AgentStore(sent) == map[]
      && Read(LibraryReader, Packet(w, h, sent)) == Some(sent)
      && LibraryFields(sent) == Some(map[OBJECT_PATH_STATE := Short(status)])
  {
    var o := Object(OBJECT_PATH_STATE, Short(status));
    StatusHeld(o);
    StatusRefused(o);
    Interoperates(w, AgentReader, h, [o]);
    Interoperates(w, LibraryReader, h, [o]);
  }

  // ---- The decoding constructors

  ghost predicate Typed(conf: Configuration.RsvpConfiguration)
    reads conf, conf.data, conf.voidSize
  {
    conf.Valid() && forall p: Param :: conf.types[p] == Parameters.TypeOf(p)
  }

  /** One case of the agent's decoding switch: an addition for each parameter, whatever comes of it. */
  method KeepIn(conf: Configuration.RsvpConfiguration, o: Object)
    requires Typed(conf) && WellFormed(o)
    modifies conf, conf.data, conf.voidSize
    ensures Typed(conf) && conf.contents == Keep(old(conf.contents), o)
  {
    var ps, x := ParamsOf(o.otype), Filed(o.value);
    ghost var before := conf.contents;
    assert ps[0..] == ps;
    for t := 0 to |ps|
      invariant Typed(conf)
      invariant AddEach(before, ps, x) == AddEach(conf.contents, ps[t..], x)
    {
      assert ps[t..][0] == ps[t] && ps[t..][1..] == ps[t + 1..];
      var code := conf.Add(ps[t], x);
    }
    assert ps[|ps|..] == [];
  }

  lemma HopKept(m: Store, route: seq<Hop>, t: nat)
    requires Parameters.RC_ERO !in m && t < |route|
    ensures Configuration.AddTo(WithRoute(m, route[..t]), Parameters.TypeOf(Parameters.RC_ERO), Parameters.RC_ERO,
              Block(route[t])) == Configuration.Change(0, WithRoute(m, route[..t + 1]))
  {
    assert route[..t + 1] == route[..t] + [route[t]];
    assert Blocks(route[..t + 1]) == Blocks(route[..t]) + [Block(route[t])];
  }

  /** The additions of the route. */
  method KeepRoute(conf: Configuration.RsvpConfiguration, route: seq<Hop>)
    requires Typed(conf) && Parameters.RC_ERO !in conf.contents
    modifies conf, conf.data, conf.voidSize
    ensures Typed(conf) && conf.contents == WithRoute(old(conf.contents), route)
  {
    ghost var before := conf.contents;
    assert WithRoute(before, route[..0]) == before;
    hide WithRoute, Blocks;
    for t := 0 to |route|
      invariant Typed(conf)
      invariant conf.contents == WithRoute(before, route[..t])
    {
      HopKept(before, route, t);
      var code := conf.Add(Parameters.RC_ERO, Block(route[t]));
    }
    assert route[..|route|] == route;
  }

  /** The counters of the decoding loop and the array of hops so far. */
  datatype Progress = Progress(ero: seq<Hop>, addrCount: nat, prefCount: nat, slCount: nat)

  predicate Gathered(g: Progress, acc: seq<Object>) {
    && Collected(g.ero, Addresses(acc), Prefixes(acc), Looses(acc))
    && g.addrCount == |Addresses(acc)| && g.prefCount == |Prefixes(acc)| && g.slCount == |Looses(acc)|
  }

  ghost predicate Decoded(conf: Configuration.RsvpConfiguration, acc: seq<Object>)
    reads conf, conf.data, conf.voidSize
  {
    Typed(conf) && AllWellFormed(acc) && conf.contents == KeepAll(acc)
  }

  /** The decoding switch. */
  method Take(conf: Configuration.RsvpConfiguration, g: Progress, o: Object, memory: Hop, ghost acc: seq<Object>)
      returns (g': Progress)
    requires WellFormed(o) && Decoded(conf, acc) && Gathered(g, acc)
    modifies conf, conf.data, conf.voidSize
    ensures Decoded(conf, acc + [o]) && Gathered(g', acc + [o])
  {
    KeepAllLast(acc, o);
    KeepIn(conf, o);
    var ero, addrCount, prefCount, slCount := Collect(g.ero, g.addrCount, g.prefCount, g.slCount, o, memory, acc);
    g' := Progress(ero, addrCount, prefCount, slCount);
  }

  /** What follows the decoding loop. */
  method Complete(conf: Configuration.RsvpConfiguration, g: Progress, ghost acc: seq<Object>)
    requires Decoded(conf, acc) && Gathered(g, acc)
    modifies conf, conf.data, conf.voidSize
    ensures Typed(conf) && conf.contents == AgentStore(acc)
  {
    NoRouteYet(acc);
    var route := CutRoute(g.ero, g.addrCount, g.prefCount, g.slCount, acc);
    KeepRoute(conf, route);
  }

  lemma NothingDecoded()
    ensures Gathered(Progress([], 0, 0, 0), []) && KeepAll([]) == map[] && AllWellFormed([])
  {
  }

  /** The start of a turn of the decoding loop: the object at the cursor, and how far to go on from there. */
  method NextObject(ignored: set<nat>, b: seq<byte>, at: nat, last: nat, left: nat, ghost acc: seq<Object>)
      returns (met: Met, step: nat)
    requires left > 0
    ensures met.PastEnd? ==> CppObjects(ignored, b, at, last, left).None?
    ensures met.Unknown? ==> CppObjects(ignored, b, at, last, left) == CppObjects(ignored, b, at + step, step, left - 1)
    ensures met.Known? ==> WellFormed(met.o)
    ensures met.Known? ==> Continued(acc, CppObjects(ignored, b, at, last, left))
                           == Continued(acc + [met.o], CppObjects(ignored, b, at + step, step, left - 1))
  {
    if at + 4 > |b| {
      return PastEnd, last;
    }
    step := CppStep(b[at + 2], b[at + 3], last);
    met := MeetBut(ignored, b, at);
    if met.Known? {
      OneMore(acc, met.o, CppObjects(ignored, b, at + step, step, left - 1));
    }
  }

  lemma AllTaken(acc: seq<Object>)
    ensures Continued(acc, Some([])) == Some(acc)
  {
    assert acc + [] == acc;
  }

  /** Between turns: what is still to be read makes up what there was to read. */
  ghost predicate Partway(conf: Configuration.RsvpConfiguration, g: Progress, acc: seq<Object>, b: seq<byte>, at: nat,
      last: nat, left: nat)
    requires |b| >= 5
    reads conf, conf.data, conf.voidSize
  {
    Decoded(conf, acc) && Gathered(g, acc)
      && Read(AgentReader, b) == Continued(acc, CppObjects(MULTI_PART, b, at, last, left))
  }

  method Turn(conf: Configuration.RsvpConfiguration, g: Progress, ghost acc: seq<Object>, b: seq<byte>, at: nat,
      last: nat, left: nat, memory: Hop)
    returns (more: bool, g': Progress, ghost acc': seq<Object>, step: nat)
    requires |b| >= 5 && left > 0 && Partway(conf, g, acc, b, at, last, left)
    modifies conf, conf.data, conf.voidSize
    ensures more ==> Partway(conf, g', acc', b, at + step, step, left - 1)
    ensures !more ==> Typed(conf) && Read(AgentReader, b).None?
  {
    var met: Met;
    g', acc' := g, acc;
    met, step := NextObject(MULTI_PART, b, at, last, left, acc);
    more := !met.PastEnd?;
    if met.Known? {
      g' := Take(conf, g, met.o, memory, acc);
      acc' := acc + [met.o];
    }
  }

  lemma Begun(conf: Configuration.RsvpConfiguration, b: seq<byte>)
    requires |b| >= 5 && Typed(conf) && conf.contents == map[]
    ensures Partway(conf, Progress([], 0, 0, 0), [], b, 5, 5, b[4])
  {
    NothingDecoded();
    NoneYet(CppObjects(MULTI_PART, b, 5, 5, b[4]));
  }

  /** What follows the decoding loop. */
  method CompleteRead(conf: Configuration.RsvpConfiguration, g: Progress, ghost acc: seq<Object>, b: seq<byte>, at: nat,
      last: nat)
    requires |b| >= 5 && Partway(conf, g, acc, b, at, last, 0)
    modifies conf, conf.data, conf.voidSize
    ensures Typed(conf) && Read(AgentReader, b).Some?
    ensures conf.contents == AgentStore(Read(AgentReader, b).value)
  {
    AllTaken(acc);
    Complete(conf, g, acc);
  }

  /** The decoding loop. */
  method DecodeLoop(conf: Configuration.RsvpConfiguration, b: seq<byte>, memory: Hop)
    returns (ok: bool, g: Progress, ghost acc: seq<Object>, at: nat, step: nat)
    requires |b| >= 5 && Partway(conf, Progress([], 0, 0, 0), [], b, 5, 5, b[4])
    modifies conf, conf.data, conf.voidSize
    ensures ok ==> Partway(conf, g, acc, b, at + step, step, 0)
    ensures !ok ==> Typed(conf) && Read(AgentReader, b).None?
  {
    hide Partway, Read, Typed;
    ok, g, acc, at, step := true, Progress([], 0, 0, 0), [], 0, 5;
    var left := b[4];
    while left > 0
      invariant ok && Partway(conf, g, acc, b, at + step, step, left)
      decreases left
    {
      at := at + step;
      ok, g, acc, step := Turn(conf, g, acc, b, at, step, left, memory);
      if !ok {
        return;
      }
      left := left - 1;
    }
  }

  method DecodeInto(conf: Configuration.RsvpConfiguration, b: seq<byte>, memory: Hop) returns (ok: bool)
    requires |b| >= 5 && Typed(conf) && conf.contents == map[]
    modifies conf, conf.data, conf.voidSize
    ensures Typed(conf)
    ensures ok <==> Read(AgentReader, b).Some?
    ensures ok ==> conf.contents == AgentStore(Read(AgentReader, b).value)
  {
    Begun(conf, b);
    hide Partway, Read, Typed, AgentStore;
    var g, at, step;
    ghost var acc;
    ok, g, acc, at, step := DecodeLoop(conf, b, memory);
    if ok {
      CompleteRead(conf, g, acc, b, at + step, step);
    }
  }

  /** The agent's constructor; `ok` is false when it reads past the end. */
  method DecodeAgent(b: seq<byte>, memory: Hop)
      returns (conf: Configuration.RsvpConfiguration, ok: bool, head: Head)
    requires |b| >= 5
    ensures head == Heading(AgentReader, b)
    ensures fresh(conf) && fresh(conf.data) && fresh(conf.voidSize) && Typed(conf)
    ensures ok <==> Read(AgentReader, b).Some?
    ensures ok ==> conf.contents == AgentStore(Read(AgentReader, b).value)
  {
    conf := new Configuration.RsvpConfiguration();
    head := Head(FromNet16(b[..2]), b[2], b[3]);
    ok := DecodeInto(conf, b, memory);
  }

  lemma StaysTooLong(acc: seq<Object>, o: Object, rest: Option<seq<Object>>)
    requires TooLong(o)
    ensures Continued(acc + [o], rest).Some? ==> LibraryFields(Continued(acc + [o], rest).value).None?
  {
    if rest.Some? {
      LibraryAt(acc + [o] + rest.value, 0);
      assert (acc + [o] + rest.value)[|acc|] == o;
    }
  }

  lemma LibraryLast(objects: seq<Object>, o: Object)
    requires LibraryFields(objects).Some? && !TooLong(o)
    ensures LibraryFields(objects + [o]) == Some(LibraryFields(objects).value[o.otype := Narrowed(o)])
  {
    assert (objects + [o])[..|objects|] == objects;
  }

  /** What comes of a packet: `None` when the library reads past its end, or copies a name past the end of its field. */
  function LibraryResult(b: seq<byte>): Option<Fields>
    requires |b| >= 5
  {
    var read := Read(LibraryReader, b);
    if read.Some? then LibraryFields(read.value) else None
  }

  ghost predicate Reading(used: Fields, acc: seq<Object>, b: seq<byte>, at: nat, last: nat, left: nat)
    requires |b| >= 5
  {
    LibraryFields(acc) == Some(used) && Read(LibraryReader, b) == Continued(acc, CppObjects({}, b, at, last, left))
  }

  method FieldTurn(used: Fields, ghost acc: seq<Object>, b: seq<byte>, at: nat, last: nat, left: nat)
    returns (more: bool, used': Fields, ghost acc': seq<Object>, step: nat)
    requires |b| >= 5 && left > 0 && Reading(used, acc, b, at, last, left)
    ensures more ==> Reading(used', acc', b, at + step, step, left - 1)
    ensures !more ==> LibraryResult(b).None?
  {
    var met: Met;
    more, used', acc' := true, used, acc;
    met, step := NextObject({}, b, at, last, left, acc);
    if met.PastEnd? {
      more := false;
    } else if met.Known? && TooLong(met.o) {
      StaysTooLong(acc, met.o, CppObjects({}, b, at + step, step, left - 1));
      more := false;
    } else if met.Known? {
      LibraryLast(acc, met.o);
      used' := used[met.o.otype := Narrowed(met.o)];
      acc' := acc + [met.o];
    }
  }

  /** The library's constructor. */
  method DecodeLibrary(b: seq<byte>) returns (conf: Option<Fields>, head: Head)
    requires |b| >= 5
    ensures head == Heading(LibraryReader, b)
    ensures conf == LibraryResult(b)
  {
    head := Head(FromNet16(b[..2]), b[2], b[3]);
    var used: Fields := map[];
    ghost var acc: seq<Object> := [];
    var at: nat, step: nat, left: nat := 0, 5, b[4];
    NoneYet(CppObjects({}, b, 5, 5, left));
    while left > 0
      invariant Reading(used, acc, b, at + step, step, left)
      decreases left
    {
      at := at + step;
      var more;
      more, used, acc, step := FieldTurn(used, acc, b, at, step, left);
      if !more {
        conf := None;
        return;
      }
      left := left - 1;
    }
    AllTaken(acc);
    conf := Some(used);
  }
}
