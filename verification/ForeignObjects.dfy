/** What the parsers make of objects the agent never writes itself: interface TLVs of every kind (section 9.1 of RFC
    3471), routes and UNI objects with subobjects it does not know, scopes, lists of message ids, and call identifiers
    with addresses that are not IPv4. */
module ForeignObjects {
  import opened Bytes
  import opened Parameters
  import opened Configuration
  import opened WireFormats
  import opened ObjectList
  import opened ObjectFormats
  import opened ObjectRecovery

  // ---- The TLVs of a hop

  /** An address, a component interface towards the receiver or towards the sender, or a kind the parser does not
      know. */
  datatype Tlv =
    | Ipv4(addr: u32)
    | Downstream(addr: u32, handle: u32)
    | Upstream(addr: u32, handle: u32)
    | Unknown(kind: u16, content: seq<byte>)

  predicate TlvOk(t: Tlv) {
    t.Unknown? ==> t.kind !in {1, 3, 4, 5} && |t.content| < 0xFFF0
  }

  function TlvBytes(t: Tlv): (s: seq<byte>)
    requires TlvOk(t)
    ensures |s| >= 4
  {
    match t
    case Ipv4(addr) => Net16(1) + Net16(8) + Host32(addr)
    case Downstream(addr, handle) => Net16(4) + Net16(12) + (Host32(addr) + Net32(handle))
    case Upstream(addr, handle) => Net16(5) + Net16(12) + (Host32(addr) + Net32(handle))
    case Unknown(kind, content) => Net16(kind) + Net16(|content| + 4) + content
  }

  /** Where the parser has got to after a TLV at `at`. */
  function TlvRead(t: Tlv, at: nat, acc: Store): Step {
    match t
    case Ipv4(addr) => WordRead(RC_DATA_OUT_IF_ADDR, addr, at + 4, acc)
    case Downstream(addr, handle) => PairRead(RC_DATA_OUT_IF_ADDR, addr, RC_DATA_OUT_IF_HANDLE, handle, at + 4, acc)
    case Upstream(addr, handle) => PairRead(RC_DATA_IN_IF_ADDR, addr, RC_DATA_IN_IF_HANDLE, handle, at + 4, acc)
    case Unknown(_, content) => Next(acc, at + 4 + |content|)
  }

  function AllTlvBytes(tlvs: seq<Tlv>): seq<byte>
    requires forall i :: 0 <= i < |tlvs| ==> TlvOk(tlvs[i])
  {
    if tlvs == [] then [] else TlvBytes(tlvs[0]) + AllTlvBytes(tlvs[1..])
  }

  /** Each TLV adds what it says, until one says what has been said before. */
  function TlvsAdd(tlvs: seq<Tlv>, acc: Store): Store {
    if tlvs == [] then acc
    else
      match TlvRead(tlvs[0], 0, acc)
      case Next(store, _) => TlvsAdd(tlvs[1..], store)
      case Stop(store) => store
      case Beyond => acc
  }

  lemma TlvHead(packet: seq<byte>, at: nat, kind: u16, length: u16, content: seq<byte>)
    requires LiesAt(packet, at, Net16(kind) + Net16(length) + content)
    ensures at + 4 + |content| <= |packet| && LiesAt(packet, at + 4, content)
    ensures FromNet16(packet[at..at + 2]) == kind && FromNet16(packet[at + 2..at + 4]) == length
  {
    PartsLie(packet, at, Net16(kind) + Net16(length), content);
    PartsLie(packet, at, Net16(kind), Net16(length));
    Net16RoundTrip(kind);
    Net16RoundTrip(length);
  }

  lemma OneRead(get: Read, packet: seq<byte>, at: nat, acc: Store)
    ensures RunReads([get], 0, packet, at, acc) == ReadOne(get, packet, at, acc)
  {
    var step := ReadOne(get, packet, at, acc);
    if step.Next? { assert RunReads([get], 1, packet, step.at, step.store) == step; }
  }

  lemma AddressTlv(addr: u32, packet: seq<byte>, at: nat, acc: Store)
    requires LiesAt(packet, at, Net16(1) + Net16(8) + Host32(addr))
    ensures at + 4 <= |packet|
    ensures RunReads(TlvReads(FromNet16(packet[at..at + 2]), FromNet16(packet[at + 2..at + 4])), 0, packet, at + 4, acc)
      == WordRead(RC_DATA_OUT_IF_ADDR, addr, at + 4, acc)
  {
    TlvHead(packet, at, 1, 8, Host32(addr));
    assert TlvReads(1, 8) == [Get(AddrC, RC_DATA_OUT_IF_ADDR)];
    hide LiesAt, RunReads, ReadOne, TlvReads;
    ReadAddr(RC_DATA_OUT_IF_ADDR, addr, packet, at + 4, acc);
    OneRead(Get(AddrC, RC_DATA_OUT_IF_ADDR), packet, at + 4, acc);
  }

  lemma InterfaceTlv(kind: u16, p: Param, q: Param, addr: u32, handle: u32, packet: seq<byte>, at: nat, acc: Store)
    requires (kind, p, q)
      in {(4, RC_DATA_OUT_IF_ADDR, RC_DATA_OUT_IF_HANDLE), (5, RC_DATA_IN_IF_ADDR, RC_DATA_IN_IF_HANDLE)}
    requires LiesAt(packet, at, Net16(kind) + Net16(12) + (Host32(addr) + Net32(handle)))
    ensures at + 4 <= |packet|
    ensures RunReads(TlvReads(FromNet16(packet[at..at + 2]), FromNet16(packet[at + 2..at + 4])), 0, packet, at + 4, acc)
      == PairRead(p, addr, q, handle, at + 4, acc)
  {
    TlvHead(packet, at, kind, 12, Host32(addr) + Net32(handle));
    assert TlvReads(kind, 12) == [Get(AddrC, p), Get(IntC, q)];
    assert TypeOf(p) == TypeOf(q) == Scalar(UI);
    hide LiesAt, RunReads, ReadOne, TlvReads;
    PartsLie(packet, at + 4, Host32(addr), Net32(handle));
    ReadPair(p, addr, q, handle, packet, at + 4, acc);
  }

  lemma UnknownTlv(kind: u16, content: seq<byte>, packet: seq<byte>, at: nat, acc: Store)
    requires TlvOk(Unknown(kind, content)) && LiesAt(packet, at, Net16(kind) + Net16(|content| + 4) + content)
    ensures at + 4 <= |packet|
    ensures RunReads(TlvReads(FromNet16(packet[at..at + 2]), FromNet16(packet[at + 2..at + 4])), 0, packet, at + 4, acc)
      == Next(acc, at + 4 + |content|)
  {
    TlvHead(packet, at, kind, |content| + 4, content);
    var gets := TlvReads(kind, |content| + 4);
    if content == [] {
      assert gets == [];
    } else {
      assert gets == [Skip(|content|)];
      OneRead(Skip(|content|), packet, at + 4, acc);
    }
  }

  lemma TlvReadsAs(t: Tlv, packet: seq<byte>, at: nat, acc: Store)
    requires TlvOk(t) && LiesAt(packet, at, TlvBytes(t))
    ensures at + 4 <= |packet|
    ensures RunReads(TlvReads(FromNet16(packet[at..at + 2]), FromNet16(packet[at + 2..at + 4])), 0, packet, at + 4, acc)
      == TlvRead(t, at, acc)
  {
    hide LiesAt, RunReads, TlvReads, WordRead, PairRead;
    match t
    case Ipv4(addr) => AddressTlv(addr, packet, at, acc);
    case Downstream(addr, handle) =>
      InterfaceTlv(4, RC_DATA_OUT_IF_ADDR, RC_DATA_OUT_IF_HANDLE, addr, handle, packet, at, acc);
    case Upstream(addr, handle) =>
      InterfaceTlv(5, RC_DATA_IN_IF_ADDR, RC_DATA_IN_IF_HANDLE, addr, handle, packet, at, acc);
    case Unknown(kind, content) => UnknownTlv(kind, content, packet, at, acc);
  }

  lemma TlvWidth(t: Tlv, at: nat, acc: Store)
    requires TlvOk(t)
    ensures !TlvRead(t, at, acc).Beyond?
    ensures TlvRead(t, at, acc).Next? ==> TlvRead(t, at, acc).at == at + |TlvBytes(t)|
    ensures match TlvRead(t, at, acc)
      case Next(store, _) => TlvRead(t, 0, acc).Next? && TlvRead(t, 0, acc).store == store
      case Stop(store) => TlvRead(t, 0, acc) == Stop(store)
      case Beyond => true
  {
  }

  /** Addresses and component interfaces of another implementation are all taken, whatever else stands between them. */
  lemma {:induction false} TlvsParsed(tlvs: seq<Tlv>, packet: seq<byte>, at: nat, acc: Store)
    requires forall i :: 0 <= i < |tlvs| ==> TlvOk(tlvs[i])
    requires LiesAt(packet, at, AllTlvBytes(tlvs))
    ensures ParseTlvs(packet, at, at + |AllTlvBytes(tlvs)|, acc) == Parsed(TlvsAdd(tlvs, acc))
    decreases |tlvs|
  {
    hide LiesAt, TlvBytes, TlvRead, TlvReads, RunReads;
    if tlvs != [] {
      var first, rest := TlvBytes(tlvs[0]), AllTlvBytes(tlvs[1..]);
      PartsLie(packet, at, first, rest);
      TlvReadsAs(tlvs[0], packet, at, acc);
      TlvWidth(tlvs[0], at, acc);
      var step := TlvRead(tlvs[0], at, acc);
      if step.Next? { TlvsParsed(tlvs[1..], packet, at + |first|, step.store); }
    }
  }

  // ---- Routes

  datatype Subobject = Prefix(hop: Value) | Other(kind: byte, content: seq<byte>)

  predicate SubOk(s: Subobject) {
    match s
    case Prefix(hop) => hop.Block? && |hop.bytes| == ERO_SIZE
    case Other(kind, content) => |content| + 2 < 0x100 && !(kind % 0x80 == 1 && |content| == 6)
  }

  predicate SubsOk(subs: seq<Subobject>) {
    forall i :: 0 <= i < |subs| ==> SubOk(subs[i])
  }

  function SubBytes(s: Subobject): seq<byte>
    requires SubOk(s)
  {
    match s
    case Prefix(hop) => HopBytes(hop)
    case Other(kind, content) => [kind, |content| + 2] + content
  }

  function AllSubBytes(subs: seq<Subobject>): seq<byte>
    requires SubsOk(subs)
  {
    if subs == [] then [] else SubBytes(subs[0]) + AllSubBytes(subs[1..])
  }

  function Prefixes(subs: seq<Subobject>): (hops: seq<Value>)
    requires SubsOk(subs)
    ensures AllHops(hops)
  {
    if subs == [] then [] else (if subs[0].Prefix? then [subs[0].hop] else []) + Prefixes(subs[1..])
  }

  /** Adding the hops one by one. */
  function RouteGrown(acc: Store, hops: seq<Value>): Store
    requires AllHops(hops)
    decreases |hops|
  {
    if hops == [] then acc
    else RouteGrown(acc[RC_ERO := ValuesIn(acc, RC_ERO) + [HopRead(hops[0])]], hops[1..])
  }

  lemma {:induction false} GrownWhole(acc: Store, hops: seq<Value>)
    requires AllHops(hops)
    ensures RouteGrown(acc, hops)
      == if hops == [] then acc else acc[RC_ERO := ValuesIn(acc, RC_ERO) + HopsRead(hops)]
    decreases |hops|
  {
    if hops != [] {
      var next := acc[RC_ERO := ValuesIn(acc, RC_ERO) + [HopRead(hops[0])]];
      GrownWhole(next, hops[1..]);
      assert HopsRead(hops) == [HopRead(hops[0])] + HopsRead(hops[1..]);
      assert ValuesIn(acc, RC_ERO) + HopsRead(hops)
        == ValuesIn(acc, RC_ERO) + [HopRead(hops[0])] + HopsRead(hops[1..]);
      if hops[1..] == [] { assert HopsRead(hops) == [HopRead(hops[0])]; }
    }
  }

  lemma PrefixTurn(hop: Value, packet: seq<byte>, at: nat, end: int, acc: Store)
    requires hop.Block? && |hop.bytes| == ERO_SIZE && RouteFits(acc) && LiesAt(packet, at, HopBytes(hop)) && at < end
    ensures var next := acc[RC_ERO := ValuesIn(acc, RC_ERO) + [HopRead(hop)]];
      ParseEro(packet, at, end, acc) == ParseEro(packet, at + 8, end, next) && RouteFits(next)
  {
    HopBack(hop, packet, at);
    assert HopsAdded(acc, [hop], 0) == acc;
    HopAdded(acc, [hop], 0);
    assert HopsRead([hop])[..1] == [HopRead(hop)];
  }

  lemma OtherTurn(kind: byte, content: seq<byte>, packet: seq<byte>, at: nat, end: int, acc: Store)
    requires SubOk(Other(kind, content)) && LiesAt(packet, at, [kind, |content| + 2] + content) && at < end
    ensures ParseEro(packet, at, end, acc) == ParseEro(packet, at + 2 + |content|, end, acc)
  {
    PartsLie(packet, at, [kind, |content| + 2], content);
    assert packet[at..at + 2][0] == kind && packet[at..at + 2][1] == |content| + 2;
  }

  /** What one subobject adds. */
  function Grown(s: Subobject, acc: Store): Store
    requires SubOk(s)
  {
    if s.Prefix? then acc[RC_ERO := ValuesIn(acc, RC_ERO) + [HopRead(s.hop)]] else acc
  }

  lemma AnyTurn(s: Subobject, packet: seq<byte>, at: nat, end: int, acc: Store)
    requires SubOk(s) && RouteFits(acc) && LiesAt(packet, at, SubBytes(s)) && at < end
    ensures ParseEro(packet, at, end, acc) == ParseEro(packet, at + |SubBytes(s)|, end, Grown(s, acc))
    ensures RouteFits(Grown(s, acc))
  {
    hide LiesAt, RouteFits, HopBytes, HopRead, ParseEro;
    match s
    case Prefix(hop) => PrefixTurn(hop, packet, at, end, acc);
    case Other(kind, content) => OtherTurn(kind, content, packet, at, end, acc);
  }

  lemma PrefixesStep(subs: seq<Subobject>, acc: Store)
    requires SubsOk(subs) && subs != []
    ensures SubsOk(subs[1..]) && SubOk(subs[0]) && AllSubBytes(subs) == SubBytes(subs[0]) + AllSubBytes(subs[1..])
    ensures |SubBytes(subs[0])| > 0
    ensures RouteGrown(acc, Prefixes(subs)) == RouteGrown(Grown(subs[0], acc), Prefixes(subs[1..]))
  {
    var rest := Prefixes(subs[1..]);
    if subs[0].Prefix? {
      assert Prefixes(subs) == [subs[0].hop] + rest && Prefixes(subs)[1..] == rest;
    } else {
      assert [] + rest == rest;
    }
  }

  lemma {:induction false} RouteTurns(subs: seq<Subobject>, packet: seq<byte>, at: nat, acc: Store)
    requires SubsOk(subs) && RouteFits(acc) && LiesAt(packet, at, AllSubBytes(subs))
    ensures ParseEro(packet, at, at + |AllSubBytes(subs)|, acc) == Parsed(RouteGrown(acc, Prefixes(subs)))
    decreases |subs|
  {
    hide LiesAt, RouteFits, ParseEro, RouteGrown, Prefixes, AllSubBytes, SubsOk, SubBytes, Grown, SubOk, AllHops;
    if subs == [] {
      NoTurns(packet, at, acc);
    } else {
      PrefixesStep(subs, acc);
      var first, rest := SubBytes(subs[0]), AllSubBytes(subs[1..]);
      PartsLie(packet, at, first, rest);
      AnyTurn(subs[0], packet, at, at + |AllSubBytes(subs)|, acc);
      RouteTurns(subs[1..], packet, at + |first|, Grown(subs[0], acc));
    }
  }

  lemma NoTurns(packet: seq<byte>, at: nat, acc: Store)
    ensures AllSubBytes([]) == [] && ParseEro(packet, at, at, acc) == Parsed(RouteGrown(acc, Prefixes([])))
  {
  }

  /** Of a route with subobjects of any kind the IPv4 prefixes are taken, in order, and the others passed over. */
  lemma ForeignRoute(subs: seq<Subobject>, packet: seq<byte>, at: nat, acc: Store)
    requires SubsOk(subs) && RouteFits(acc) && LiesAt(packet, at, AllSubBytes(subs))
    ensures var hops := Prefixes(subs);
      ParseEro(packet, at, at + |AllSubBytes(subs)|, acc)
      == Parsed(if hops == [] then acc else acc[RC_ERO := ValuesIn(acc, RC_ERO) + HopsRead(hops)])
  {
    RouteTurns(subs, packet, at, acc);
    GrownWhole(acc, Prefixes(subs));
  }

  // ---- Other lists

  function Addresses(addrs: seq<u32>): (xs: seq<Value>)
    ensures |xs| == |addrs| && forall i :: 0 <= i < |xs| ==> xs[i] == Int(addrs[i])
  {
    seq(|addrs|, i requires 0 <= i < |addrs| => Int(addrs[i]))
  }

  function AddressBytes(addrs: seq<u32>): seq<byte> {
    if addrs == [] then [] else Host32(addrs[0]) + AddressBytes(addrs[1..])
  }

  lemma ScopeTurn(addr: u32, packet: seq<byte>, at: nat, end: int, acc: Store)
    requires LiesAt(packet, at, Host32(addr)) && at < end
    ensures ParseScope(packet, at, end, acc)
      == ParseScope(packet, at + 4, end, acc[RC_SCOPE_ADDR := ValuesIn(acc, RC_SCOPE_ADDR) + [Int(addr)]])
  {
    Host32RoundTrip(addr);
    var next := acc[RC_SCOPE_ADDR := ValuesIn(acc, RC_SCOPE_ADDR) + [Int(addr)]];
    assert ReadOne(Get(AddrC, RC_SCOPE_ADDR), packet, at, acc) == Next(next, at + 4);
  }

  lemma StoredTwice(m: Store, p: Param, a: seq<Value>, b: seq<Value>)
    ensures m[p := a][p := b] == m[p := b]
  {
  }

  lemma ScopeGrown(addrs: seq<u32>, acc: Store)
    requires addrs != []
    ensures var next := acc[RC_SCOPE_ADDR := ValuesIn(acc, RC_SCOPE_ADDR) + [Int(addrs[0])]];
      acc[RC_SCOPE_ADDR := ValuesIn(acc, RC_SCOPE_ADDR) + Addresses(addrs)]
      == if addrs[1..] == [] then next
         else next[RC_SCOPE_ADDR := ValuesIn(next, RC_SCOPE_ADDR) + Addresses(addrs[1..])]
  {
    var before, first, rest := ValuesIn(acc, RC_SCOPE_ADDR), [Int(addrs[0])], Addresses(addrs[1..]);
    assert Addresses(addrs) == first + rest;
    assert before + (first + rest) == before + first + rest;
    if addrs[1..] == [] {
      assert Addresses(addrs) == first;
    } else {
      StoredTwice(acc, RC_SCOPE_ADDR, before + first, before + first + rest);
    }
  }

  /** A scope grows by the addresses it lists, in order. */
  lemma {:induction false} ScopeParsed(addrs: seq<u32>, packet: seq<byte>, at: nat, acc: Store)
    requires LiesAt(packet, at, AddressBytes(addrs))
    ensures ParseScope(packet, at, at + |AddressBytes(addrs)|, acc)
      == Parsed(if addrs == [] then acc else acc[RC_SCOPE_ADDR := ValuesIn(acc, RC_SCOPE_ADDR) + Addresses(addrs)])
    decreases |addrs|
  {
    if addrs != [] {
      hide LiesAt, ParseScope, Host32, Addresses;
      var next := acc[RC_SCOPE_ADDR := ValuesIn(acc, RC_SCOPE_ADDR) + [Int(addrs[0])]];
      PartsLie(packet, at, Host32(addrs[0]), AddressBytes(addrs[1..]));
      ScopeTurn(addrs[0], packet, at, at + |AddressBytes(addrs)|, acc);
      ScopeParsed(addrs[1..], packet, at + 4, next);
      ScopeGrown(addrs, acc);
    }
  }

  /** A UNI subobject of another type or subtype is passed over by its length. */
  lemma SubobjectPassed(packet: seq<byte>, at: nat, end: int, acc: Store, length: u16, kind: byte, subtype: byte)
    requires LiesAt(packet, at, Net16(length) + [kind, subtype]) && length > 0 && at < end
    requires subtype != 1 || kind !in {1, 2, 5}
    ensures ParseUni(packet, at, end, acc) == ParseUni(packet, at + length, end, acc)
  {
    PartsLie(packet, at, Net16(length), [kind, subtype]);
    Net16RoundTrip(length);
    assert packet[at + 2..at + 4][0] == kind && packet[at + 2..at + 4][1] == subtype;
  }

  /** Of a list of message ids (section 5.1 of RFC 2961) nothing is kept, as the parameter has no type. */
  lemma IdListIgnored(packet: seq<byte>, at: nat, size: int, acc: Store)
    requires at + 8 <= |packet| && size > 0
    ensures ParseBody(25, 1, packet, at, size, acc) == Parsed(acc)
  {
    var gets := [Skip(4), Get(IntC, RC_SREFRESH_MESSAGE_ID)];
    assert [Skip(4)] + [Get(IntC, RC_SREFRESH_MESSAGE_ID)] == gets;
    RunTwo(gets[0], gets[1], packet, at, acc);
    hide RunReads;
    assert ReadOne(gets[0], packet, at, acc) == Next(acc, at + 4);
    assert ReadOne(gets[1], packet, at + 4, acc) == Stop(acc);
  }

  /** The same class with C-Type 2 is taken for an upstream label. */
  lemma IdListAsLabel(packet: seq<byte>, at: nat, size: int, acc: Store, id: u32)
    requires LiesAt(packet, at, Net32(id))
    ensures ParseBody(25, 2, packet, at, size, acc)
      == Parsed(if RC_UPSTREAM_LABEL in acc then acc else acc[RC_UPSTREAM_LABEL := [Int(id)]])
  {
    ReadInt(RC_UPSTREAM_LABEL, id, packet, at, acc);
    OneRead(Get(IntC, RC_UPSTREAM_LABEL), packet, at, acc);
    hide RunReads, ReadOne, LiesAt;
  }

  /** A call identifier with an address of another type, of any number of words: the address is passed over and the two
      local identifiers are taken from behind it. */
  lemma CallParsed(packet: seq<byte>, at: nat, acc: Store, kind: byte, zeros: seq<byte>, addr: seq<byte>, a: u32,
      b: u32)
    requires kind != 1 && |zeros| == 3 && |addr| % 4 == 0
    requires LiesAt(packet, at, [kind] + zeros) && LiesAt(packet, at + 4, addr)
    requires LiesAt(packet, at + 4 + |addr|, Net32(a)) && LiesAt(packet, at + 8 + |addr|, Net32(b))
    requires RC_CALL_ID_ADDR_TYPE !in acc && RC_CALL_ID_LOCAL_ID1 !in acc && RC_CALL_ID_LOCAL_ID2 !in acc
    ensures ParseBody(230, 1, packet, at, 12 + |addr|, acc)
      == Parsed(acc[RC_CALL_ID_ADDR_TYPE := [Char(kind)]][RC_CALL_ID_LOCAL_ID1 := [Int(a)]]
                   [RC_CALL_ID_LOCAL_ID2 := [Int(b)]])
  {
    assert packet[at..at + 4][0] == kind && packet[at..at + 1] == [kind];
    assert CallId1Reads(packet, at, 12 + |addr|)
      == [Get(CharC, RC_CALL_ID_ADDR_TYPE), Skip(3), Skip(|addr|), Get(IntC, RC_CALL_ID_LOCAL_ID1),
          Get(IntC, RC_CALL_ID_LOCAL_ID2)];
    CallReads(packet, at, |addr|, acc, kind, a, b);
  }

  /** The last two reads. */
  lemma IdsRead(packet: seq<byte>, at: nat, acc: Store, a: u32, b: u32)
    requires LiesAt(packet, at, Net32(a)) && LiesAt(packet, at + 4, Net32(b))
    requires RC_CALL_ID_LOCAL_ID1 !in acc && RC_CALL_ID_LOCAL_ID2 !in acc
    ensures ReadOne(Get(IntC, RC_CALL_ID_LOCAL_ID1), packet, at, acc)
      == Next(acc[RC_CALL_ID_LOCAL_ID1 := [Int(a)]], at + 4)
    ensures ReadOne(Get(IntC, RC_CALL_ID_LOCAL_ID2), packet, at + 4, acc[RC_CALL_ID_LOCAL_ID1 := [Int(a)]])
      == Next(acc[RC_CALL_ID_LOCAL_ID1 := [Int(a)]][RC_CALL_ID_LOCAL_ID2 := [Int(b)]], at + 8)
  {
    ReadInt(RC_CALL_ID_LOCAL_ID1, a, packet, at, acc);
    ReadInt(RC_CALL_ID_LOCAL_ID2, b, packet, at + 4, acc[RC_CALL_ID_LOCAL_ID1 := [Int(a)]]);
  }

  lemma TypeRead(packet: seq<byte>, at: nat, acc: Store)
    requires at < |packet| && RC_CALL_ID_ADDR_TYPE !in acc
    ensures ReadOne(Get(CharC, RC_CALL_ID_ADDR_TYPE), packet, at, acc)
      == Next(acc[RC_CALL_ID_ADDR_TYPE := [Char(packet[at])]], at + 1)
  {
    assert packet[at..at + 1] == [packet[at]];
  }

  lemma CallReads(packet: seq<byte>, at: nat, n: nat, acc: Store, kind: byte, a: u32, b: u32)
    requires at < |packet| && packet[at] == kind
    requires LiesAt(packet, at + 4 + n, Net32(a)) && LiesAt(packet, at + 8 + n, Net32(b))
    requires RC_CALL_ID_ADDR_TYPE !in acc && RC_CALL_ID_LOCAL_ID1 !in acc && RC_CALL_ID_LOCAL_ID2 !in acc
    ensures Finish(RunReads([Get(CharC, RC_CALL_ID_ADDR_TYPE), Skip(3), Skip(n), Get(IntC, RC_CALL_ID_LOCAL_ID1),
        Get(IntC, RC_CALL_ID_LOCAL_ID2)], 0, packet, at, acc))
      == Parsed(acc[RC_CALL_ID_ADDR_TYPE := [Char(kind)]][RC_CALL_ID_LOCAL_ID1 := [Int(a)]]
                   [RC_CALL_ID_LOCAL_ID2 := [Int(b)]])
  {
    hide LiesAt, ReadOne, RunReads;
    var gets := [Get(CharC, RC_CALL_ID_ADDR_TYPE), Skip(3), Skip(n), Get(IntC, RC_CALL_ID_LOCAL_ID1),
      Get(IntC, RC_CALL_ID_LOCAL_ID2)];
    var typed := acc[RC_CALL_ID_ADDR_TYPE := [Char(kind)]];
    var first := typed[RC_CALL_ID_LOCAL_ID1 := [Int(a)]];
    var second := first[RC_CALL_ID_LOCAL_ID2 := [Int(b)]];
    WordsFit(packet, at + 4 + n, a, b);
    TypeRead(packet, at, acc);
    IdsRead(packet, at + 4 + n, typed, a, b);
    SkipsRead(packet, at + 1, n, typed);
    CallRuns(gets, packet, at, n, acc, typed, first, second);
  }

  lemma WordsFit(packet: seq<byte>, at: nat, a: u32, b: u32)
    requires LiesAt(packet, at, Net32(a)) && LiesAt(packet, at + 4, Net32(b))
    ensures at + 8 <= |packet|
  {
  }

  lemma SkipsRead(packet: seq<byte>, at: nat, n: nat, acc: Store)
    requires at + 3 + n <= |packet|
    ensures ReadOne(Skip(3), packet, at, acc) == Next(acc, at + 3)
    ensures ReadOne(Skip(n), packet, at + 3, acc) == Next(acc, at + 3 + n)
  {
  }

  lemma CallRuns(gets: seq<Read>, packet: seq<byte>, at: nat, n: nat, acc: Store, typed: Store, first: Store,
      second: Store)
    requires |gets| == 5
    requires ReadOne(gets[0], packet, at, acc) == Next(typed, at + 1)
    requires ReadOne(gets[1], packet, at + 1, typed) == Next(typed, at + 4)
    requires ReadOne(gets[2], packet, at + 4, typed) == Next(typed, at + 4 + n)
    requires ReadOne(gets[3], packet, at + 4 + n, typed) == Next(first, at + 8 + n)
    requires ReadOne(gets[4], packet, at + 8 + n, first) == Next(second, at + 12 + n)
    ensures RunReads(gets, 0, packet, at, acc) == Next(second, at + 12 + n)
  {
    hide ReadOne;
    assert RunReads(gets, 5, packet, at + 12 + n, second) == Next(second, at + 12 + n);
    assert RunReads(gets, 4, packet, at + 8 + n, first) == Next(second, at + 12 + n);
    assert RunReads(gets, 3, packet, at + 4 + n, typed) == Next(second, at + 12 + n);
    assert RunReads(gets, 2, packet, at + 4, typed) == Next(second, at + 12 + n);
    assert RunReads(gets, 1, packet, at + 1, typed) == Next(second, at + 12 + n);
  }
}
