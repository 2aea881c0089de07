/** What parsing an object adds to a configuration, wherever the object lies in a packet. */
module ObjectRecovery {
  import opened Bytes
  import opened Parameters
  import opened Configuration
  import opened WireFormats
  import opened ObjectList
  import opened ObjectFormats
  import opened ObjectRoundTrips

  /** A hop as it comes back: the loose flag is 0 or 1 and the padding is clear. */
  function HopRead(hop: Value): (v: Value)
    requires hop.Block? && |hop.bytes| == ERO_SIZE
    ensures v.Block? && |v.bytes| == ERO_SIZE
  {
    Block(hop.bytes[..5] + [if hop.bytes[5] == 1 then 1 else 0, 0, 0])
  }

  function HopsRead(hops: seq<Value>): (r: seq<Value>)
    requires AllHops(hops)
    ensures |r| == |hops|
  {
    seq(|hops|, i requires 0 <= i < |hops| => HopRead(hops[i]))
  }

  function SubRecovered(c: ObjectClass, conf: Store): Store
    requires AllReadable(SubWrites(c), conf)
  {
    match c
    case GuDestinationTnaAddress => ReadablePut(c, conf); map[RC_TNA_DST_ADDR := [conf[RC_TNA_DST_ADDR][0]]]
    case GuSourceTnaAddress => ReadablePut(c, conf); map[RC_TNA_SRC_ADDR := [conf[RC_TNA_SRC_ADDR][0]]]
    case GuServiceLevel => ReadablePut(c, conf); map[RC_SERVICE_LEVEL := [conf[RC_SERVICE_LEVEL][0]]]
    case _ => map[]
  }

  lemma ReadablePut(c: ObjectClass, conf: Store)
    requires AllReadable(SubWrites(c), conf) && SubWrites(c) != []
    ensures Readable(SubWrites(c)[1], conf)
  {
  }

  lemma {:induction false} UniReadable(list: seq<ObjectClass>, conf: Store)
    requires AllReadable(UniWrites(list), conf) && list != []
    ensures AllReadable(SubWrites(list[0]), conf) && AllReadable(UniWrites(list[1..]), conf)
  {
    var a, b := SubWrites(list[0]), UniWrites(list[1..]);
    forall i | 0 <= i < |a| ensures Readable(a[i], conf) { assert (a + b)[i] == a[i]; }
    forall i | 0 <= i < |b| ensures Readable(b[i], conf) { assert (a + b)[|a| + i] == b[i]; }
  }

  function UniRecovered(list: seq<ObjectClass>, conf: Store): Store
    requires AllReadable(UniWrites(list), conf)
  {
    if list == [] then map[]
    else
      UniReadable(list, conf);
      SubRecovered(list[0], conf) + UniRecovered(list[1..], conf)
  }

  /** What the subobjects make of a store: one after the other is added, up to the first that is already there. */
  function UniFilled(list: seq<ObjectClass>, conf: Store, acc: Store): Store
    requires AllReadable(UniWrites(list), conf)
  {
    if list == [] || SubRefused(list[0], acc) then acc
    else
      UniReadable(list, conf);
      UniFilled(list[1..], conf, acc + SubRecovered(list[0], conf))
  }

  /** What parsing the object adds to an empty configuration. CALL_ID_0 is not covered: its parser reads past the
      object. */
  function Recovered(c: ObjectClass, conf: Store, list: seq<ObjectClass>): Store
    requires Writable(c, conf, list) && FrameGuard(c, conf)
  {
    if Straight(c) then
      Corresponds(c, conf, list);
      RecoveredFrom(WritesOf(c, conf, list), ExpectedReads(c, conf), 0, conf)
    else
      match c
      case Ero => if conf[RC_ERO] == [] then map[] else map[RC_ERO := HopsRead(conf[RC_ERO])]
      case GeneralizedUni => UniRecovered(list, conf)
      case _ => map[]
  }

  /** What every configuration object holds (see `Configuration.StoreShape`). */
  predicate StoreTyped(conf: Store) {
    forall p :: p in conf ==> Shaped(conf[p], TypeOf(p))
  }

  // ---- The hop

  lemma RunTwo(a: Read, b: Read, packet: seq<byte>, at: nat, conf: Store)
    ensures RunReads([a, b], 0, packet, at, conf)
            == var step := ReadOne(a, packet, at, conf);
               if step.Next? then ReadOne(b, packet, step.at, step.store) else step
  {
    var step := ReadOne(a, packet, at, conf);
    if step.Next? {
      var last := ReadOne(b, packet, step.at, step.store);
      if last.Next? { assert RunReads([a, b], 2, packet, last.at, last.store) == last; }
      assert RunReads([a, b], 1, packet, step.at, step.store) == last;
    }
  }

  lemma RunThree(a: Read, b: Read, d: Read, packet: seq<byte>, at: nat, conf: Store, two: Step)
    requires two == RunReads([a, b], 0, packet, at, conf)
    ensures RunReads([a, b, d], 0, packet, at, conf) == if two.Next? then ReadOne(d, packet, two.at, two.store) else two
  {
    RunTwo(a, b, packet, at, conf);
    var one := ReadOne(a, packet, at, conf);
    if one.Next? {
      if two.Next? {
        var last := ReadOne(d, packet, two.at, two.store);
        if last.Next? { assert RunReads([a, b, d], 3, packet, last.at, last.store) == last; }
        assert RunReads([a, b, d], 2, packet, two.at, two.store) == last;
      }
      assert RunReads([a, b, d], 1, packet, one.at, one.store)
        == if two.Next? then ReadOne(d, packet, two.at, two.store) else two;
    }
  }

  /** What reading one word makes of a store. */
  function WordRead(p: Param, v: u32, at: nat, acc: Store): Step {
    if p in acc then Stop(acc) else Next(acc[p := [Int(v)]], at + 4)
  }

  lemma ReadAddr(p: Param, v: u32, packet: seq<byte>, at: nat, acc: Store)
    requires LiesAt(packet, at, Host32(v)) && TypeOf(p) == Scalar(UI)
    ensures ReadOne(Get(AddrC, p), packet, at, acc) == WordRead(p, v, at, acc)
  {
    Host32RoundTrip(v);
  }

  lemma ReadInt(p: Param, v: u32, packet: seq<byte>, at: nat, acc: Store)
    requires LiesAt(packet, at, Net32(v)) && TypeOf(p) == Scalar(UI)
    ensures ReadOne(Get(IntC, p), packet, at, acc) == WordRead(p, v, at, acc)
  {
    Net32RoundTrip(v);
  }

  /** What reading an address and a handle makes of a store. */
  function PairRead(p: Param, v: u32, q: Param, w: u32, at: nat, acc: Store): Step {
    var step := WordRead(p, v, at, acc);
    if step.Next? then WordRead(q, w, step.at, step.store) else step
  }

  lemma ReadPair(p: Param, v: u32, q: Param, w: u32, packet: seq<byte>, at: nat, acc: Store)
    requires LiesAt(packet, at, Host32(v)) && TypeOf(p) == Scalar(UI)
    requires LiesAt(packet, at + 4, Net32(w)) && TypeOf(q) == Scalar(UI)
    ensures RunReads([Get(AddrC, p), Get(IntC, q)], 0, packet, at, acc) == PairRead(p, v, q, w, at, acc)
  {
    ReadAddr(p, v, packet, at, acc);
    var step := WordRead(p, v, at, acc);
    if step.Next? { ReadInt(q, w, packet, at + 4, step.store); }
    RunTwo(Get(AddrC, p), Get(IntC, q), packet, at, acc);
  }

  /** Nothing of a hop is there yet. */
  predicate HopFresh(acc: Store) {
    && RC_CONTROL_OUT_IF_ADDR !in acc && RC_CONTROL_OUT_IF_HANDLE !in acc
    && RC_DATA_OUT_IF_ADDR !in acc && RC_DATA_OUT_IF_HANDLE !in acc
  }

  /** What parsing a (3,3) hop makes of a store. */
  function HopAdds(acc: Store, addr: u32, dataAddr: u32, handle: u32): Store {
    var head := PairRead(RC_CONTROL_OUT_IF_ADDR, addr, RC_CONTROL_OUT_IF_HANDLE, 0, 0, acc);
    if head.Next? then PairRead(RC_DATA_OUT_IF_ADDR, dataAddr, RC_DATA_OUT_IF_HANDLE, handle, 0, head.store).store
    else head.store
  }

  /** After the TLV it knows, the parser passes over eight more bytes, and the loop ends; or it ends before, at the
      first parameter that is already there. */
  lemma HopParsed(packet: seq<byte>, at: nat, acc: Store, addr: u32, dataAddr: u32, handle: u32)
    requires LiesAt(packet, at, Host32(addr)) && LiesAt(packet, at + 4, Net32(0))
    requires LiesAt(packet, at + 8, Net16(3) + Net16(12))
    requires LiesAt(packet, at + 12, Host32(dataAddr)) && LiesAt(packet, at + 16, Net32(handle))
    requires HopFresh(acc) ==> at + 28 <= |packet|
    ensures ParseHop(packet, at, 20, acc) == Parsed(HopAdds(acc, addr, dataAddr, handle))
  {
    var head := PairRead(RC_CONTROL_OUT_IF_ADDR, addr, RC_CONTROL_OUT_IF_HANDLE, 0, at, acc);
    ReadPair(RC_CONTROL_OUT_IF_ADDR, addr, RC_CONTROL_OUT_IF_HANDLE, 0, packet, at, acc);
    if head.Next? { TlvParsed(packet, at + 8, head.store, dataAddr, handle); }
  }

  lemma TlvParsed(packet: seq<byte>, at: nat, acc: Store, dataAddr: u32, handle: u32)
    requires LiesAt(packet, at, Net16(3) + Net16(12))
    requires LiesAt(packet, at + 4, Host32(dataAddr)) && LiesAt(packet, at + 8, Net32(handle))
    requires RC_DATA_OUT_IF_ADDR !in acc && RC_DATA_OUT_IF_HANDLE !in acc ==> at + 20 <= |packet|
    ensures ParseTlvs(packet, at, at + 12, acc)
            == Parsed(PairRead(RC_DATA_OUT_IF_ADDR, dataAddr, RC_DATA_OUT_IF_HANDLE, handle, at + 4, acc).store)
  {
    var pair := PairRead(RC_DATA_OUT_IF_ADDR, dataAddr, RC_DATA_OUT_IF_HANDLE, handle, at + 4, acc);
    ReadPair(RC_DATA_OUT_IF_ADDR, dataAddr, RC_DATA_OUT_IF_HANDLE, handle, packet, at + 4, acc);
    RunThree(Get(AddrC, RC_DATA_OUT_IF_ADDR), Get(IntC, RC_DATA_OUT_IF_HANDLE), Skip(8), packet, at + 4, acc, pair);
    TlvHeader(packet, at);
    TlvTurn(packet, at, acc, pair);
  }

  lemma TlvHeader(packet: seq<byte>, at: nat)
    requires LiesAt(packet, at, Net16(3) + Net16(12))
    ensures FromNet16(packet[at..at + 2]) == 3 && FromNet16(packet[at + 2..at + 4]) == 12
  {
    PartsLie(packet, at, Net16(3), Net16(12));
    Net16RoundTrip(3);
    Net16RoundTrip(12);
  }

  lemma TlvTurn(packet: seq<byte>, at: nat, acc: Store, pair: Step)
    requires at + 12 <= |packet| && FromNet16(packet[at..at + 2]) == 3 && FromNet16(packet[at + 2..at + 4]) == 12
    requires pair.Next? ==> pair.at == at + 12 && at + 20 <= |packet|
    requires !pair.Beyond?
    requires RunReads([Get(AddrC, RC_DATA_OUT_IF_ADDR), Get(IntC, RC_DATA_OUT_IF_HANDLE), Skip(8)], 0, packet, at + 4,
      acc)
             == if pair.Next? then ReadOne(Skip(8), packet, pair.at, pair.store) else pair
    ensures ParseTlvs(packet, at, at + 12, acc) == Parsed(pair.store)
  {
    assert TlvReads(3, 12) == [Get(AddrC, RC_DATA_OUT_IF_ADDR), Get(IntC, RC_DATA_OUT_IF_HANDLE), Skip(8)];
    if pair.Next? { assert ParseTlvs(packet, at + 20, at + 12, pair.store) == Parsed(pair.store); }
  }

  /** Two words in a row, read back as they were written. */
  lemma FillPair(writes: seq<Write>, gets: seq<Read>, i: nat, conf: Store, acc: Store, v: u32, w: u32)
    requires Aligned(writes, gets) && AllReadable(writes, conf) && i + 2 <= |gets| && !gets[i].Skip?
    requires !gets[i + 1].Skip?
    requires RecoveredValue(writes[i], gets[i], conf) == Int(v)
    requires RecoveredValue(writes[i + 1], gets[i + 1], conf) == Int(w)
    ensures var pair := PairRead(gets[i].p, v, gets[i + 1].p, w, 0, acc);
      Filled(writes, gets, i, conf, acc)
        == if pair.Next? then Filled(writes, gets, i + 2, conf, pair.store) else pair.store
  {
    FilledStep(writes, gets, i, conf, acc);
    if !Refused(gets[i], acc) { FilledStep(writes, gets, i + 1, conf, acc[gets[i].p := [Int(v)]]); }
  }

  lemma HopFills(conf: Store, acc: Store)
    requires Writable(Ipv4IfIdRsvpHop, conf, []) && RC_DATA_OUT_IF_HANDLE in conf
    ensures Readable(Put(AddrC, RC_CONTROL_OUT_IF_ADDR), conf)
    ensures Readable(Put(AddrC, RC_DATA_OUT_IF_ADDR), conf) && Readable(Put(IntC, RC_DATA_OUT_IF_HANDLE), conf)
    ensures Aligned(WritesOf(Ipv4IfIdRsvpHop, conf, []), ExpectedReads(Ipv4IfIdRsvpHop, conf))
    ensures Filled(WritesOf(Ipv4IfIdRsvpHop, conf, []), ExpectedReads(Ipv4IfIdRsvpHop, conf), 0, conf, acc) ==
      HopAdds(acc, conf[RC_CONTROL_OUT_IF_ADDR][0].i, conf[RC_DATA_OUT_IF_ADDR][0].i, conf[RC_DATA_OUT_IF_HANDLE][0].i)
  {
    HopFilled(WritesOf(Ipv4IfIdRsvpHop, conf, []), ExpectedReads(Ipv4IfIdRsvpHop, conf), conf, acc);
  }

  lemma HopFilled(writes: seq<Write>, gets: seq<Read>, conf: Store, acc: Store)
    requires writes == HOP_WRITES && gets == HOP_READS && AllReadable(writes, conf)
    ensures Aligned(writes, gets) && Readable(writes[0], conf) && Readable(writes[3], conf) && Readable(writes[4], conf)
    ensures Filled(writes, gets, 0, conf, acc) ==
      HopAdds(acc, conf[RC_CONTROL_OUT_IF_ADDR][0].i, conf[RC_DATA_OUT_IF_ADDR][0].i, conf[RC_DATA_OUT_IF_HANDLE][0].i)
  {
    assert Readable(writes[0], conf) && Readable(writes[3], conf) && Readable(writes[4], conf);
    var addr, dataAddr, handle :=
      conf[RC_CONTROL_OUT_IF_ADDR][0].i, conf[RC_DATA_OUT_IF_ADDR][0].i, conf[RC_DATA_OUT_IF_HANDLE][0].i;
    WiredValue(AddrC, Int(addr));
    WiredValue(AddrC, Int(dataAddr));
    WiredValue(IntC, Int(handle));
    FillPair(writes, gets, 0, conf, acc, addr, 0);
    var head := PairRead(RC_CONTROL_OUT_IF_ADDR, addr, RC_CONTROL_OUT_IF_HANDLE, 0, 0, acc);
    if head.Next? {
      FilledStep(writes, gets, 2, conf, head.store);
      FillPair(writes, gets, 3, conf, head.store, dataAddr, handle);
      var pair := PairRead(RC_DATA_OUT_IF_ADDR, dataAddr, RC_DATA_OUT_IF_HANDLE, handle, 0, head.store);
      if pair.Next? { assert Filled(writes, gets, 5, conf, pair.store) == pair.store; }
    }
  }

  lemma HopPieces(conf: Store, packet: seq<byte>, at: nat)
    requires Writable(Ipv4IfIdRsvpHop, conf, []) && RC_DATA_OUT_IF_HANDLE in conf
    requires LiesAt(packet, at, Body(Ipv4IfIdRsvpHop, conf, []))
    ensures Readable(Put(AddrC, RC_CONTROL_OUT_IF_ADDR), conf)
    ensures LiesAt(packet, at, Host32(conf[RC_CONTROL_OUT_IF_ADDR][0].i)) && LiesAt(packet, at + 4, [0, 0, 0, 0])
  {
    var writes := WritesOf(Ipv4IfIdRsvpHop, conf, []);
    HopOffsets(writes);
    PieceLies(writes, 0, conf, packet, at, 0);
    PieceLies(writes, 1, conf, packet, at, 4);
  }

  lemma HopTlvPiece(conf: Store, packet: seq<byte>, at: nat)
    requires Writable(Ipv4IfIdRsvpHop, conf, []) && RC_DATA_OUT_IF_HANDLE in conf
    requires LiesAt(packet, at, Body(Ipv4IfIdRsvpHop, conf, []))
    ensures LiesAt(packet, at + 8, Net16(3) + Net16(12))
  {
    var writes := WritesOf(Ipv4IfIdRsvpHop, conf, []);
    HopOffsets(writes);
    PieceLies(writes, 2, conf, packet, at, 8);
  }

  lemma HopDataPieces(conf: Store, packet: seq<byte>, at: nat)
    requires Writable(Ipv4IfIdRsvpHop, conf, []) && RC_DATA_OUT_IF_HANDLE in conf
    requires LiesAt(packet, at, Body(Ipv4IfIdRsvpHop, conf, []))
    ensures Readable(Put(AddrC, RC_DATA_OUT_IF_ADDR), conf) && Readable(Put(IntC, RC_DATA_OUT_IF_HANDLE), conf)
    ensures LiesAt(packet, at + 12, Host32(conf[RC_DATA_OUT_IF_ADDR][0].i))
    ensures LiesAt(packet, at + 16, Net32(conf[RC_DATA_OUT_IF_HANDLE][0].i))
  {
    var writes := WritesOf(Ipv4IfIdRsvpHop, conf, []);
    HopOffsets(writes);
    PieceLies(writes, 3, conf, packet, at, 12);
    PieceLies(writes, 4, conf, packet, at, 16);
  }

  lemma HopOffsets(writes: seq<Write>)
    requires |writes| == 5 && forall i :: 0 <= i < 5 ==> WidthOf(writes[i]) == 4
    ensures WidthFrom(writes, 0) == 20 && WidthFrom(writes, 1) == 16 && WidthFrom(writes, 2) == 12
    ensures WidthFrom(writes, 3) == 8 && WidthFrom(writes, 4) == 4
  {
    assert WidthFrom(writes, 5) == 0;
    assert WidthFrom(writes, 4) == 4;
    assert WidthFrom(writes, 3) == 8;
    assert WidthFrom(writes, 2) == 12;
    assert WidthFrom(writes, 1) == 16;
  }

  lemma HopRecovers(conf: Store, packet: seq<byte>, at: nat, acc: Store)
    requires Writable(Ipv4IfIdRsvpHop, conf, []) && RC_DATA_OUT_IF_HANDLE in conf
    requires LiesAt(packet, at, Body(Ipv4IfIdRsvpHop, conf, [])) && (HopFresh(acc) ==> at + 28 <= |packet|)
    ensures Aligned(WritesOf(Ipv4IfIdRsvpHop, conf, []), ExpectedReads(Ipv4IfIdRsvpHop, conf))
    ensures ParseHop(packet, at, 20, acc)
            == Parsed(Filled(WritesOf(Ipv4IfIdRsvpHop, conf, []), ExpectedReads(Ipv4IfIdRsvpHop, conf), 0, conf, acc))
  {
    HopFills(conf, acc);
    HopPieces(conf, packet, at);
    HopTlvPiece(conf, packet, at);
    HopDataPieces(conf, packet, at);
    HopParsed(packet, at, acc, conf[RC_CONTROL_OUT_IF_ADDR][0].i, conf[RC_DATA_OUT_IF_ADDR][0].i,
      conf[RC_DATA_OUT_IF_HANDLE][0].i);
  }

  // ---- The explicit route

  /** A route that is already there has hops of the same size. */
  predicate RouteFits(acc: Store) {
    ValuesIn(acc, RC_ERO) == [] || SizeOf(acc[RC_ERO][0]) == ERO_SIZE
  }

  /** The store after i hops: they are added to a route that is already there. */
  function HopsAdded(acc: Store, hops: seq<Value>, i: nat): Store
    requires i <= |hops| && AllHops(hops)
  {
    if i == 0 || !RouteFits(acc) then acc else acc[RC_ERO := ValuesIn(acc, RC_ERO) + HopsRead(hops)[..i]]
  }

  lemma HopBack(hop: Value, packet: seq<byte>, at: nat)
    requires hop.Block? && |hop.bytes| == ERO_SIZE && LiesAt(packet, at, HopBytes(hop))
    ensures packet[at] % 0x80 == 1 && packet[at + 1] == 8 && HopValue(packet, at) == HopRead(hop)
  {
    var s := HopBytes(hop);
    assert packet[at..at + 8] == s;
    assert packet[at] == s[0] && packet[at + 1] == s[1] && packet[at + 6] == s[6];
    assert packet[at + 2..at + 6] == packet[at..at + 8][2..6] == s[2..6] == hop.bytes[..4];
  }

  lemma HopAdded(acc: Store, hops: seq<Value>, i: nat)
    requires i < |hops| && RouteFits(acc) && AllHops(hops)
    ensures AddTo(HopsAdded(acc, hops, i), TypeOf(RC_ERO), RC_ERO, HopRead(hops[i]))
            == Change(0, HopsAdded(acc, hops, i + 1))
  {
    var here, before, added := HopsAdded(acc, hops, i), ValuesIn(acc, RC_ERO), HopsRead(hops);
    assert added[..i + 1] == added[..i] + [HopRead(hops[i])];
    assert before + added[..i + 1] == before + added[..i] + [HopRead(hops[i])];
    assert ValuesIn(here, RC_ERO) == before + added[..i];
    assert SizeFits(before + added[..i], HopRead(hops[i]));
    assert here[RC_ERO := before + added[..i + 1]] == acc[RC_ERO := before + added[..i + 1]];
  }

  lemma EroTurn(hops: seq<Value>, i: nat, packet: seq<byte>, at: nat, end: int, acc: Store)
    requires i < |hops| && RouteFits(acc) && AllHops(hops)
    requires LiesAt(packet, at, HopBytes(hops[i])) && end > at
    ensures ParseEro(packet, at, end, HopsAdded(acc, hops, i))
      == ParseEro(packet, at + 8, end, HopsAdded(acc, hops, i + 1))
  {
    HopBack(hops[i], packet, at);
    HopAdded(acc, hops, i);
  }

  /** A route of hops of another size refuses the first, and with it the rest. */
  lemma EroRefused(hops: seq<Value>, packet: seq<byte>, at: nat, end: int, acc: Store)
    requires hops != [] && !RouteFits(acc) && AllHops(hops) && LiesAt(packet, at, HopBytes(hops[0])) && end > at
    ensures ParseEro(packet, at, end, acc) == Parsed(acc)
  {
    HopBack(hops[0], packet, at);
  }

  lemma EroPiece(hops: seq<Value>, i: nat, conf: Store, packet: seq<byte>, at: nat)
    requires AllHops(hops) && i < |hops| && AllReadable(EroWrites(hops), conf)
    requires LiesAt(packet, at, EmittedFrom(EroWrites(hops), i, conf))
    ensures LiesAt(packet, at, HopBytes(hops[i])) && LiesAt(packet, at + 8, EmittedFrom(EroWrites(hops), i + 1, conf))
  {
    EmittedStep(EroWrites(hops), i, conf, packet, at);
  }

  lemma {:induction false} EroRecovers(hops: seq<Value>, i: nat, conf: Store, packet: seq<byte>, at: nat, end: int,
      acc: Store)
    requires i <= |hops| && RouteFits(acc) && AllHops(hops) && AllReadable(EroWrites(hops), conf)
    requires LiesAt(packet, at, EmittedFrom(EroWrites(hops), i, conf)) && end == at + 8 * (|hops| - i)
    ensures ParseEro(packet, at, end, HopsAdded(acc, hops, i)) == Parsed(HopsAdded(acc, hops, |hops|))
    decreases |hops| - i
  {
    if i == |hops| {
      assert end == at;
    } else {
      EroPiece(hops, i, conf, packet, at);
      EroTurn(hops, i, packet, at, end, acc);
      EroRecovers(hops, i + 1, conf, packet, at + 8, end, acc);
    }
  }

  // ---- The subobjects of GENERALIZED_UNI

  lemma SubPieces(a: seq<Write>, b: seq<Write>, conf: Store, packet: seq<byte>, at: nat)
    requires AllReadable(a + b, conf) && AllReadable(a, conf) && AllReadable(b, conf)
    requires LiesAt(packet, at, Emission(a + b, conf))
    ensures LiesAt(packet, at, Emission(a, conf)) && LiesAt(packet, at + |Emission(a, conf)|, Emission(b, conf))
  {
    EmissionConcat(a, b, 0, conf);
    PartsLie(packet, at, Emission(a, conf), Emission(b, conf));
  }

  lemma {:induction false} EmissionConcat(a: seq<Write>, b: seq<Write>, i: nat, conf: Store)
    requires i <= |a| && AllReadable(a + b, conf) && AllReadable(a, conf) && AllReadable(b, conf)
    ensures EmittedFrom(a + b, i, conf) == EmittedFrom(a, i, conf) + Emission(b, conf)
    decreases |a| - i
  {
    if i < |a| {
      EmissionConcat(a, b, i + 1, conf);
      assert (a + b)[i] == a[i];
    } else {
      assert (a + b)[i..] == b[0..];
      SameTail(a + b, i, b, 0, conf);
    }
  }

  lemma {:induction false} SameTail(a: seq<Write>, i: nat, b: seq<Write>, j: nat, conf: Store)
    requires i <= |a| && j <= |b| && a[i..] == b[j..] && AllReadable(a, conf) && AllReadable(b, conf)
    ensures EmittedFrom(a, i, conf) == EmittedFrom(b, j, conf)
    decreases |a| - i
  {
    if i < |a| {
      assert a[i] == a[i..][0] == b[j] && a[i + 1..] == a[i..][1..] && b[j + 1..] == b[j..][1..];
      SameTail(a, i + 1, b, j + 1, conf);
    }
  }

  lemma {:induction false} UniKeys(list: seq<ObjectClass>, conf: Store, c: ObjectClass)
    requires AllReadable(UniWrites(list), conf) && AllReadable(SubWrites(c), conf) && c !in list
    ensures SubRecovered(c, conf).Keys !! UniRecovered(list, conf).Keys
  {
    if list != [] {
      UniReadable(list, conf);
      UniKeys(list[1..], conf, c);
      assert list[0] != c;
    }
  }

  /** One turn of the loop over a subobject as it was written. */
  lemma AddrSubParsed(ot: byte, p: Param, v: u32, packet: seq<byte>, at: nat, end: int, acc: Store)
    requires SubReads(ot, 1) == [Get(AddrC, p)] && TypeOf(p) == Scalar(UI)
    requires LiesAt(packet, at, Net16(8) + [ot, 1]) && LiesAt(packet, at + 4, Host32(v)) && end > at
    ensures ParseUni(packet, at, end, acc)
            == if p in acc then Parsed(acc) else ParseUni(packet, at + 8, end, acc[p := [Int(v)]])
  {
    SubHeader(packet, at, ot);
    ReadAddr(p, v, packet, at + 4, acc);
    var gets, step := [Get(AddrC, p)], WordRead(p, v, at + 4, acc);
    if step.Next? { assert RunReads(gets, 1, packet, step.at, step.store) == step; }
    assert RunReads(gets, 0, packet, at + 4, acc) == step;
  }

  lemma SubHeader(packet: seq<byte>, at: nat, ot: byte)
    requires LiesAt(packet, at, Net16(8) + [ot, 1])
    ensures FromNet16(packet[at..at + 2]) == 8 && packet[at + 2] == ot && packet[at + 3] == 1
  {
    PartsLie(packet, at, Net16(8), [ot, 1]);
    Net16RoundTrip(8);
    assert packet[at + 2..at + 4][0] == ot && packet[at + 2..at + 4][1] == 1;
  }

  lemma LevelSubParsed(v: byte, packet: seq<byte>, at: nat, end: int, acc: Store)
    requires LiesAt(packet, at, Net16(8) + [5, 1]) && LiesAt(packet, at + 4, [v, 0, 0, 0]) && end > at
    ensures ParseUni(packet, at, end, acc)
            == if RC_SERVICE_LEVEL in acc then Parsed(acc)
               else ParseUni(packet, at + 8, end, acc[RC_SERVICE_LEVEL := [Char(v)]])
  {
    SubHeader(packet, at, 5);
    var gets := [Get(CharC, RC_SERVICE_LEVEL), Skip(3)];
    assert packet[at + 4..at + 8][0] == v;
    assert packet[at + 4..at + 5] == [v];
    RunTwo(gets[0], gets[1], packet, at + 4, acc);
  }

  lemma UpdateIsMerge(acc: Store, p: Param, values: seq<Value>)
    ensures acc[p := values] == acc + map[p := values]
  {
  }

  lemma AddrSub(c: ObjectClass, ot: byte, p: Param, conf: Store, packet: seq<byte>, at: nat, end: int, acc: Store)
    requires (c, ot, p) in {(GuDestinationTnaAddress, 2, RC_TNA_DST_ADDR), (GuSourceTnaAddress, 1, RC_TNA_SRC_ADDR)}
    requires AllReadable(SubWrites(c), conf) && LiesAt(packet, at, Emission(SubWrites(c), conf)) && end > at
    ensures ParseUni(packet, at, end, acc)
            == if p in acc then Parsed(acc) else ParseUni(packet, at + 8, end, acc + SubRecovered(c, conf))
  {
    AddrSubPieces(c, ot, p, conf, packet, at);
    AddrSubParsed(ot, p, conf[p][0].i, packet, at, end, acc);
    UpdateIsMerge(acc, p, [conf[p][0]]);
  }

  lemma AddrSubPieces(c: ObjectClass, ot: byte, p: Param, conf: Store, packet: seq<byte>, at: nat)
    requires (c, ot, p) in {(GuDestinationTnaAddress, 2, RC_TNA_DST_ADDR), (GuSourceTnaAddress, 1, RC_TNA_SRC_ADDR)}
    requires AllReadable(SubWrites(c), conf) && LiesAt(packet, at, Emission(SubWrites(c), conf))
    ensures Readable(Put(AddrC, p), conf)
    ensures LiesAt(packet, at, Net16(8) + [ot, 1]) && LiesAt(packet, at + 4, Host32(conf[p][0].i))
  {
    var writes := SubWrites(c);
    ReadablePut(c, conf);
    ThreeWidths(writes, 0);
    PieceLies(writes, 0, conf, packet, at, 0);
    PieceLies(writes, 1, conf, packet, at, 4);
  }

  lemma LevelSub(conf: Store, packet: seq<byte>, at: nat, end: int, acc: Store)
    requires AllReadable(SubWrites(GuServiceLevel), conf) && end > at
    requires LiesAt(packet, at, Emission(SubWrites(GuServiceLevel), conf))
    ensures ParseUni(packet, at, end, acc)
            == if RC_SERVICE_LEVEL in acc then Parsed(acc)
               else ParseUni(packet, at + 8, end, acc + SubRecovered(GuServiceLevel, conf))
  {
    var writes := SubWrites(GuServiceLevel);
    ReadablePut(GuServiceLevel, conf);
    ThreeWidths(writes, 0);
    PieceLies(writes, 0, conf, packet, at, 0);
    PieceLies(writes, 1, conf, packet, at, 4);
    PieceLies(writes, 2, conf, packet, at, 5);
    LevelPieces(conf[RC_SERVICE_LEVEL][0].c, packet, at + 4);
    LevelSubParsed(conf[RC_SERVICE_LEVEL][0].c, packet, at, end, acc);
    UpdateIsMerge(acc, RC_SERVICE_LEVEL, [conf[RC_SERVICE_LEVEL][0]]);
  }

  /** The parameter of a subobject is already there. */
  predicate SubRefused(c: ObjectClass, acc: Store) {
    SubWrites(c) != [] && SubWrites(c)[1].Put? && SubWrites(c)[1].p in acc
  }

  lemma SubParsed(c: ObjectClass, conf: Store, packet: seq<byte>, at: nat, end: int, acc: Store)
    requires SubWrites(c) != [] && AllReadable(SubWrites(c), conf) && LiesAt(packet, at, Emission(SubWrites(c), conf))
    requires end > at
    ensures ParseUni(packet, at, end, acc)
            == if SubRefused(c, acc) then Parsed(acc) else ParseUni(packet, at + 8, end, acc + SubRecovered(c, conf))
  {
    if c.GuDestinationTnaAddress? {
      AddrSub(c, 2, RC_TNA_DST_ADDR, conf, packet, at, end, acc);
    } else if c.GuSourceTnaAddress? {
      AddrSub(c, 1, RC_TNA_SRC_ADDR, conf, packet, at, end, acc);
    } else {
      LevelSub(conf, packet, at, end, acc);
    }
  }

  lemma LevelPieces(v: byte, packet: seq<byte>, at: nat)
    requires LiesAt(packet, at, [v]) && LiesAt(packet, at + 1, [0, 0, 0])
    ensures LiesAt(packet, at, [v, 0, 0, 0])
  {
    assert packet[at..at + 4] == packet[at..at + 1] + packet[at + 1..at + 4];
  }

  predicate NoRepeats(list: seq<ObjectClass>) {
    forall i, j :: 0 <= i < j < |list| ==> list[i] != list[j]
  }

  lemma SubWidth(c: ObjectClass, conf: Store)
    requires SubWrites(c) != [] && AllReadable(SubWrites(c), conf)
    ensures |Emission(SubWrites(c), conf)| == 8
  {
    EmittedWidth(SubWrites(c), 0, conf);
    ThreeWidths(SubWrites(c), 0);
    if |SubWrites(c)| == 3 { assert WidthFrom(SubWrites(c), 3) == 0; }
  }

  /** The loop takes one subobject after the other, up to the first whose parameter is already there. */
  lemma {:induction false} UniRecovers(list: seq<ObjectClass>, conf: Store, packet: seq<byte>, at: nat, end: int,
      acc: Store)
    requires AllReadable(UniWrites(list), conf)
    requires LiesAt(packet, at, Emission(UniWrites(list), conf)) && end == at + |Emission(UniWrites(list), conf)|
    ensures ParseUni(packet, at, end, acc) == Parsed(UniFilled(list, conf, acc))
  {
    if list != [] {
      var c, rest := list[0], list[1..];
      UniReadable(list, conf);
      if SubWrites(c) == [] {
        assert UniWrites(list) == UniWrites(rest);
        assert acc + SubRecovered(c, conf) == acc;
        UniRecovers(rest, conf, packet, at, end, acc);
      } else {
        UniTurn(list, conf, packet, at, end, acc);
        if !SubRefused(c, acc) { UniRecovers(rest, conf, packet, at + 8, end, acc + SubRecovered(c, conf)); }
      }
    }
  }

  lemma UniTurn(list: seq<ObjectClass>, conf: Store, packet: seq<byte>, at: nat, end: int, acc: Store)
    requires AllReadable(UniWrites(list), conf) && list != [] && SubWrites(list[0]) != []
    requires LiesAt(packet, at, Emission(UniWrites(list), conf)) && end == at + |Emission(UniWrites(list), conf)|
    ensures AllReadable(SubWrites(list[0]), conf) && AllReadable(UniWrites(list[1..]), conf)
    ensures ParseUni(packet, at, end, acc)
            == if SubRefused(list[0], acc) then Parsed(acc)
               else ParseUni(packet, at + 8, end, acc + SubRecovered(list[0], conf))
    ensures LiesAt(packet, at + 8, Emission(UniWrites(list[1..]), conf))
    ensures end == at + 8 + |Emission(UniWrites(list[1..]), conf)|
  {
    var c, rest := list[0], list[1..];
    UniReadable(list, conf);
    SubPieces(SubWrites(c), UniWrites(rest), conf, packet, at);
    EmissionConcat(SubWrites(c), UniWrites(rest), 0, conf);
    SubWidth(c, conf);
    SubParsed(c, conf, packet, at, end, acc);
  }

  /** Subobjects that are not there yet are all added, if none is listed twice. */
  lemma {:induction false} UniWhole(list: seq<ObjectClass>, conf: Store, acc: Store)
    requires AllReadable(UniWrites(list), conf) && NoRepeats(list) && UniRecovered(list, conf).Keys !! acc.Keys
    ensures UniFilled(list, conf, acc) == acc + UniRecovered(list, conf)
  {
    if list == [] {
      assert acc + map[] == acc;
    } else {
      var c, rest := list[0], list[1..];
      UniReadable(list, conf);
      UniKeys(rest, conf, c);
      SubKey(c, conf);
      UniWhole(rest, conf, acc + SubRecovered(c, conf));
      MergeAssociates(acc, SubRecovered(c, conf), UniRecovered(rest, conf));
    }
  }

  lemma SubKey(c: ObjectClass, conf: Store)
    requires AllReadable(SubWrites(c), conf)
    ensures SubWrites(c) == [] ==> SubRecovered(c, conf) == map[]
    ensures SubWrites(c) != [] ==> SubWrites(c)[1].Put? && SubRecovered(c, conf).Keys == {SubWrites(c)[1].p}
  {
  }

  /** Whatever the subobjects add, they add as they carry it, and what was there stays. */
  lemma {:induction false} UniAdds(list: seq<ObjectClass>, conf: Store, acc: Store, p: Param)
    requires AllReadable(UniWrites(list), conf)
    ensures var r := UniFilled(list, conf, acc);
      && (p in acc ==> p in r && r[p] == acc[p])
      && (p in r && p !in acc ==> p in UniRecovered(list, conf) && r[p] == UniRecovered(list, conf)[p])
  {
    if list != [] && !SubRefused(list[0], acc) {
      var c, rest := list[0], list[1..];
      UniReadable(list, conf);
      SubKey(c, conf);
      UniAdds(rest, conf, acc + SubRecovered(c, conf), p);
      if p in SubRecovered(c, conf) { UniSame(rest, conf, c, p); }
    }
  }

  /** A subobject that is listed twice carries the same both times. */
  lemma {:induction false} UniSame(list: seq<ObjectClass>, conf: Store, c: ObjectClass, p: Param)
    requires AllReadable(UniWrites(list), conf) && AllReadable(SubWrites(c), conf) && p in SubRecovered(c, conf)
    ensures p in UniRecovered(list, conf) ==> UniRecovered(list, conf)[p] == SubRecovered(c, conf)[p]
  {
    if list != [] {
      UniReadable(list, conf);
      UniSame(list[1..], conf, c, p);
      SubKey(c, conf);
      SubKey(list[0], conf);
    }
  }

  // ---- Every object

  /** An object that is written whole. CALL_ID_0 is left out: its parser reads what follows it. */
  predicate Whole(c: ObjectClass, conf: Store, list: seq<ObjectClass>) {
    Writable(c, conf, list) && FrameGuard(c, conf) && !Silent(c) && !c.CallId0?
  }

  /** What parsing the object makes of a configuration. */
  function Effect(c: ObjectClass, conf: Store, list: seq<ObjectClass>, acc: Store): Store
    requires Whole(c, conf, list)
  {
    if Straight(c) then
      Corresponds(c, conf, list);
      Filled(WritesOf(c, conf, list), ExpectedReads(c, conf), 0, conf, acc)
    else if c.Ero? then HopsAdded(acc, conf[RC_ERO], |conf[RC_ERO]|)
    else UniFilled(list, conf, acc)
  }

  /** The bytes the parser passes over after the object. */
  function Overshoot(c: ObjectClass, acc: Store): nat {
    if c.Ipv4IfIdRsvpHop? && HopFresh(acc) then 8 else 0
  }

  /** Parsing the body of an object, wherever it lies and whatever was there before, has this effect. */
  lemma ObjectRecovers(c: ObjectClass, conf: Store, list: seq<ObjectClass>, packet: seq<byte>, at: nat, acc: Store)
    requires Whole(c, conf, list) && StoreTyped(conf)
    requires LiesAt(packet, at, Body(c, conf, list)) && at + |Body(c, conf, list)| + Overshoot(c, acc) <= |packet|
    ensures ParseBody(NumbersOf(c).cnum, NumbersOf(c).ctnum, packet, at, DeclaredSize(c, conf, list), acc)
            == Parsed(Effect(c, conf, list, acc))
  {
    if Straight(c) && !c.Ipv4IfIdRsvpHop? {
      StraightRecovers(c, conf, list, packet, at, acc);
    } else {
      LoopedRecovers(c, conf, list, packet, at, acc);
    }
  }

  lemma LoopedRecovers(c: ObjectClass, conf: Store, list: seq<ObjectClass>, packet: seq<byte>, at: nat, acc: Store)
    requires c in {Ipv4IfIdRsvpHop, Ero, GeneralizedUni} && Whole(c, conf, list)
    requires LiesAt(packet, at, Body(c, conf, list)) && at + |Body(c, conf, list)| + Overshoot(c, acc) <= |packet|
    ensures ParseBody(NumbersOf(c).cnum, NumbersOf(c).ctnum, packet, at, DeclaredSize(c, conf, list), acc)
            == Parsed(Effect(c, conf, list, acc))
  {
    match c
    case Ipv4IfIdRsvpHop => HopCase(conf, list, packet, at, acc);
    case Ero => EroCase(conf, list, packet, at, acc);
    case GeneralizedUni => UniCase(conf, list, packet, at, acc);
  }

  lemma HopCase(conf: Store, list: seq<ObjectClass>, packet: seq<byte>, at: nat, acc: Store)
    requires Whole(Ipv4IfIdRsvpHop, conf, list) && LiesAt(packet, at, Body(Ipv4IfIdRsvpHop, conf, list))
    requires at + |Body(Ipv4IfIdRsvpHop, conf, list)| + Overshoot(Ipv4IfIdRsvpHop, acc) <= |packet|
    ensures ParseBody(3, 3, packet, at, DeclaredSize(Ipv4IfIdRsvpHop, conf, list), acc)
            == Parsed(Effect(Ipv4IfIdRsvpHop, conf, list, acc))
  {
    Framed(Ipv4IfIdRsvpHop, conf, list);
    HopRecovers(conf, packet, at, acc);
  }

  lemma EroCase(conf: Store, list: seq<ObjectClass>, packet: seq<byte>, at: nat, acc: Store)
    requires Whole(Ero, conf, list) && LiesAt(packet, at, Body(Ero, conf, list))
    ensures ParseBody(20, 1, packet, at, DeclaredSize(Ero, conf, list), acc) == Parsed(Effect(Ero, conf, list, acc))
  {
    EroWhole(conf, packet, at, acc);
  }

  lemma UniCase(conf: Store, list: seq<ObjectClass>, packet: seq<byte>, at: nat, acc: Store)
    requires Whole(GeneralizedUni, conf, list) && LiesAt(packet, at, Body(GeneralizedUni, conf, list))
    ensures ParseBody(229, 1, packet, at, DeclaredSize(GeneralizedUni, conf, list), acc)
            == Parsed(Effect(GeneralizedUni, conf, list, acc))
  {
    hide ParseUni, UniFilled, UniWrites, AllReadable, ReadsOf, RunReads, Emission, WidthFrom, Recovered;
    Framed(GeneralizedUni, conf, list);
    UniRecovers(list, conf, packet, at, at + DeclaredSize(GeneralizedUni, conf, list), acc);
  }

  lemma EroWhole(conf: Store, packet: seq<byte>, at: nat, acc: Store)
    requires HopsStored(conf) && AllReadable(EroWrites(conf[RC_ERO]), conf)
    requires LiesAt(packet, at, Emission(EroWrites(conf[RC_ERO]), conf))
    ensures ParseEro(packet, at, at + 8 * |conf[RC_ERO]|, acc) == Parsed(HopsAdded(acc, conf[RC_ERO], |conf[RC_ERO]|))
  {
    var hops := conf[RC_ERO];
    if hops != [] { HopsParsed(hops, conf, packet, at, acc); }
  }

  lemma HopsParsed(hops: seq<Value>, conf: Store, packet: seq<byte>, at: nat, acc: Store)
    requires hops != [] && AllHops(hops) && AllReadable(EroWrites(hops), conf)
    requires LiesAt(packet, at, Emission(EroWrites(hops), conf))
    ensures ParseEro(packet, at, at + 8 * |hops|, acc) == Parsed(HopsAdded(acc, hops, |hops|))
  {
    hide ParseEro, RouteFits, HopsRead, AllReadable;
    if RouteFits(acc) {
      EroRecovers(hops, 0, conf, packet, at, at + 8 * |hops|, acc);
    } else {
      EroPiece(hops, 0, conf, packet, at);
      EroRefused(hops, packet, at, at + 8 * |hops|, acc);
    }
  }

  lemma StraightRecovers(c: ObjectClass, conf: Store, list: seq<ObjectClass>, packet: seq<byte>, at: nat, acc: Store)
    requires Straight(c) && !c.Ipv4IfIdRsvpHop? && Whole(c, conf, list) && StoreTyped(conf)
    requires LiesAt(packet, at, Body(c, conf, list))
    ensures ParseBody(NumbersOf(c).cnum, NumbersOf(c).ctnum, packet, at, DeclaredSize(c, conf, list), acc)
            == Parsed(Effect(c, conf, list, acc))
  {
    StraightRuns(c, conf, list, packet, at, acc);
    ReadsExpected(c, conf, list, packet, at);
    StraightBody(c, packet, at, DeclaredSize(c, conf, list), acc);
  }

  lemma StraightBody(c: ObjectClass, packet: seq<byte>, at: nat, size: int, acc: Store)
    requires Straight(c) && !c.Ipv4IfIdRsvpHop?
    ensures ParseBody(NumbersOf(c).cnum, NumbersOf(c).ctnum, packet, at, size, acc)
            == Finish(RunReads(ReadsOf(NumbersOf(c).cnum, NumbersOf(c).ctnum, packet, at, size), 0, packet, at, acc))
  {
    NotLooped(c);
  }

  lemma {:induction false} StraightRuns(c: ObjectClass, conf: Store, list: seq<ObjectClass>, packet: seq<byte>, at: nat,
      acc: Store)
    requires Straight(c) && Whole(c, conf, list) && LiesAt(packet, at, Body(c, conf, list))
    ensures Finish(RunReads(ExpectedReads(c, conf), 0, packet, at, acc)) == Parsed(Effect(c, conf, list, acc))
  {
    Corresponds(c, conf, list);
    ReadsFill(WritesOf(c, conf, list), ExpectedReads(c, conf), 0, conf, packet, at, acc);
  }

  lemma NotLooped(c: ObjectClass)
    requires Straight(c) && !c.Ipv4IfIdRsvpHop?
    ensures var n := NumbersOf(c); (n.cnum, n.ctnum) !in {(3, 3), (7, 1), (20, 1), (229, 1)}
  {
  }

  // ---- What the effect of an object is

  /** Of a straight-line object the values up to the first parameter that is already there are added, as that object
      carries them; the rest of it is lost. */
  lemma CutShort(c: ObjectClass, conf: Store, list: seq<ObjectClass>, acc: Store)
    requires Whole(c, conf, list) && Straight(c)
    ensures var writes, gets := WritesOf(c, conf, list), ExpectedReads(c, conf);
      && Aligned(writes, gets)
      && Effect(c, conf, list, acc) == acc + RecoveredFrom(writes, gets[..Reach(gets, 0, acc)], 0, conf)
  {
    Corresponds(c, conf, list);
    FilledExactly(WritesOf(c, conf, list), ExpectedReads(c, conf), 0, conf, acc);
  }

  /** None of what the object carries is there yet, and no subobject is listed twice. */
  predicate Unmet(c: ObjectClass, conf: Store, list: seq<ObjectClass>, acc: Store)
    requires Whole(c, conf, list)
  {
    Recovered(c, conf, list).Keys !! acc.Keys && (c.GeneralizedUni? ==> NoRepeats(list))
  }

  /** Then all of it is added. */
  lemma AddsWhole(c: ObjectClass, conf: Store, list: seq<ObjectClass>, acc: Store)
    requires Whole(c, conf, list) && Unmet(c, conf, list, acc)
    ensures Effect(c, conf, list, acc) == acc + Recovered(c, conf, list)
  {
    if Straight(c) {
      StraightWhole(c, conf, list, acc);
    } else if c.Ero? {
      RouteWhole(conf, list, acc);
    } else {
      UniWhole(list, conf, acc);
    }
  }

  lemma RouteWhole(conf: Store, list: seq<ObjectClass>, acc: Store)
    requires Whole(Ero, conf, list) && Recovered(Ero, conf, list).Keys !! acc.Keys
    ensures Effect(Ero, conf, list, acc) == acc + Recovered(Ero, conf, list)
  {
    var hops := conf[RC_ERO];
    if hops == [] {
      assert acc + map[] == acc;
    } else {
      assert RC_ERO in Recovered(Ero, conf, list);
      assert [] + HopsRead(hops)[..|hops|] == HopsRead(hops);
      UpdateIsMerge(acc, RC_ERO, HopsRead(hops));
    }
  }

  lemma StraightWhole(c: ObjectClass, conf: Store, list: seq<ObjectClass>, acc: Store)
    requires Whole(c, conf, list) && Straight(c) && Recovered(c, conf, list).Keys !! acc.Keys
    ensures Effect(c, conf, list, acc) == acc + Recovered(c, conf, list)
  {
    var writes, gets := WritesOf(c, conf, list), ExpectedReads(c, conf);
    CutShort(c, conf, list, acc);
    NoneRefused(writes, gets, conf, acc);
  }

  lemma NoneRefused(writes: seq<Write>, gets: seq<Read>, conf: Store, acc: Store)
    requires Aligned(writes, gets) && AllReadable(writes, conf)
    requires RecoveredFrom(writes, gets, 0, conf).Keys !! acc.Keys
    ensures gets[..Reach(gets, 0, acc)] == gets
  {
    var n := Reach(gets, 0, acc);
    if n < |gets| { RecoveredKeys(writes, gets, 0, conf, gets[n].p); }
  }

  /** What was there stays, though a route grows; whatever is added is added as the object carries it. */
  lemma EffectAdds(c: ObjectClass, conf: Store, list: seq<ObjectClass>, acc: Store, p: Param)
    requires Whole(c, conf, list)
    ensures var r := Effect(c, conf, list, acc);
      && (p in acc ==> p in r && (r[p] == acc[p] || (c.Ero? && p == RC_ERO)))
      && (p in r && p !in acc ==> p in Recovered(c, conf, list) && r[p] == Recovered(c, conf, list)[p])
  {
    if Straight(c) {
      StraightAdds(c, conf, list, acc, p);
    } else if c.Ero? {
      var hops := conf[RC_ERO];
      assert [] + HopsRead(hops)[..|hops|] == HopsRead(hops);
    } else {
      UniAdds(list, conf, acc, p);
    }
  }

  lemma StraightAdds(c: ObjectClass, conf: Store, list: seq<ObjectClass>, acc: Store, p: Param)
    requires Whole(c, conf, list) && Straight(c)
    ensures var r := Effect(c, conf, list, acc);
      && (p in acc ==> p in r && r[p] == acc[p])
      && (p in r && p !in acc ==> p in Recovered(c, conf, list) && r[p] == Recovered(c, conf, list)[p])
  {
    var writes, gets := WritesOf(c, conf, list), ExpectedReads(c, conf);
    Corresponds(c, conf, list);
    CutShort(c, conf, list, acc);
    PartRecovered(writes, gets, Reach(gets, 0, acc), conf, p);
    var n := Reach(gets, 0, acc);
    if p in acc {
      RecoveredKeys(writes, gets[..n], 0, conf, p);
    }
  }

  /** What a part of the reads recovers is what all of them do. */
  lemma PartRecovered(writes: seq<Write>, gets: seq<Read>, n: nat, conf: Store, p: Param)
    requires Aligned(writes, gets) && AllReadable(writes, conf) && WellTyped(gets) && n <= |gets|
    ensures Aligned(writes, gets[..n])
    ensures p in RecoveredFrom(writes, gets[..n], 0, conf) ==>
      p in RecoveredFrom(writes, gets, 0, conf)
      && RecoveredFrom(writes, gets[..n], 0, conf)[p] == RecoveredFrom(writes, gets, 0, conf)[p]
  {
    if p in RecoveredFrom(writes, gets[..n], 0, conf) {
      RecoveredKeys(writes, gets[..n], 0, conf, p);
      var j :| 0 <= j < n && !gets[..n][j].Skip? && gets[..n][j].p == p;
      RecoveredAt(writes, gets[..n], 0, conf, j);
      RecoveredAt(writes, gets, 0, conf, j);
    }
  }
}
