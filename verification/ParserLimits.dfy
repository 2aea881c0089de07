/** How far the parsers of straight-line objects go: which objects are read at all, and what a few bytes of the body
    decide - the style octet, the headers of the traffic parameters, the type of a call's address. */
module ParserLimits {
  import opened Bytes
  import opened Options
  import opened Parameters
  import opened Configuration
  import opened WireFormats
  import opened ObjectList
  import opened ObjectFormats
  import opened ObjectRoundTrips
  import opened ObjectRecovery

  // ---- Which objects are read

  /** The agent writes objects with these numbers. */
  predicate Listed(oc: byte, oct: byte) {
    exists c: ObjectClass :: NumbersOf(c).cnum == oc && NumbersOf(c).ctnum == oct
  }

  lemma Lists(c: ObjectClass, oc: byte, oct: byte)
    requires NumbersOf(c).cnum == oc && NumbersOf(c).ctnum == oct
    ensures Listed(oc, oct)
  {
  }

  lemma HeadingListed()
    ensures Listed(1, 7) && Listed(1, 11) && Listed(3, 1) && Listed(3, 3) && Listed(5, 1) && Listed(6, 1)
    ensures Listed(22, 1) && Listed(22, 2) && Listed(23, 1) && Listed(24, 1) && Listed(24, 2) && Listed(131, 1)
  {
    hide Listed;
    Lists(SessionIetf, 1, 7);
    Lists(SessionOif, 1, 11);
    Lists(Ipv4RsvpHop, 3, 1);
    Lists(Ipv4IfIdRsvpHop, 3, 3);
    Lists(TimeValues, 5, 1);
    Lists(ErrorSpec, 6, 1);
    Lists(HelloRequest, 22, 1);
    Lists(HelloAck, 22, 2);
    Lists(MessageId, 23, 1);
    Lists(MessageIdAck, 24, 1);
    Lists(MessageIdNack, 24, 2);
    Lists(RestartCap, 131, 1);
  }

  lemma FlowspecsListed()
    ensures Listed(9, 2) && Listed(9, 4) && Listed(9, 6) && Listed(10, 7)
  {
    hide Listed;
    Lists(TokenFlowspec, 9, 2);
    Lists(SonetsdhFlowspec, 9, 4);
    Lists(EthernetFlowspec, 9, 6);
    Lists(FilterSpec, 10, 7);
  }

  lemma TspecsListed()
    ensures Listed(11, 7) && Listed(12, 2) && Listed(12, 4) && Listed(12, 6)
  {
    hide Listed;
    Lists(SenderTemplate, 11, 7);
    Lists(TokenSenderTspec, 12, 2);
    Lists(SonetsdhSenderTspec, 12, 4);
    Lists(EthernetSenderTspec, 12, 6);
  }

  lemma RequestListed()
    ensures Listed(7, 1) && Listed(8, 1) && Listed(15, 1) && Listed(16, 2) && Listed(19, 4) && Listed(20, 1)
  {
    hide Listed;
    Lists(Scope, 7, 1);
    Lists(Style, 8, 1);
    Lists(ResvConfirm, 15, 1);
    Lists(GeneralizedLabel, 16, 2);
    Lists(GeneralizedLabelRequest, 19, 4);
    Lists(Ero, 20, 1);
  }

  lemma RestListed()
    ensures Listed(25, 1) && Listed(35, 2) && Listed(195, 1) && Listed(196, 1) && Listed(207, 7) && Listed(229, 1)
    ensures Listed(230, 0) && Listed(230, 1) && Listed(230, 2)
  {
    hide Listed;
    Lists(MessageIdList, 25, 1);
    Lists(UpstreamLabel, 35, 2);
    Lists(NotifyRequest, 195, 1);
    Lists(AdminStatus, 196, 1);
    Lists(SessionAttribute, 207, 7);
    Lists(GeneralizedUni, 229, 1);
    Lists(CallId0, 230, 0);
    Lists(CallId1, 230, 1);
    Lists(CallId2, 230, 2);
  }

  /** The straight-line parsers read what is listed, and the list of message ids under another C-Type. */
  lemma ReadsListed(oc: byte, oct: byte, packet: seq<byte>, at: nat, size: int)
    ensures ReadsOf(oc, oct, packet, at, size) != [] ==> Listed(oc, oct) || (oc == 25 && oct == 2)
  {
    HeadingListed();
    FlowspecsListed();
    TspecsListed();
    RequestListed();
    RestListed();
    hide Listed, StyleReads, FlowspecReads, TspecReads, EthernetReads, LabelReads, SessionAttributeReads;
    hide CallId1Reads, CallId2Reads;
  }

  lemma NothingRead(oc: byte, oct: byte, packet: seq<byte>, at: nat, size: int, acc: Store)
    requires ReadsOf(oc, oct, packet, at, size) == []
    requires (oc, oct) !in {(3, 3), (7, 1), (20, 1), (229, 1)}
    ensures ParseBody(oc, oct, packet, at, size, acc) == Parsed(acc)
  {
    hide ReadsOf, ParseHop, ParseScope, ParseEro, ParseUni;
  }

  /** An object with numbers that the agent does not write itself is passed over unread; the one exception is the list
      of message ids that falls through to the upstream label. */
  lemma OthersUnread(oc: byte, oct: byte, packet: seq<byte>, at: nat, size: int, acc: Store)
    requires !Listed(oc, oct) && !(oc == 25 && oct == 2)
    ensures ParseBody(oc, oct, packet, at, size, acc) == Parsed(acc)
  {
    hide Listed, ReadsOf, ParseBody;
    HeadingListed();
    FlowspecsListed();
    TspecsListed();
    RequestListed();
    RestListed();
    ReadsListed(oc, oct, packet, at, size);
    NothingRead(oc, oct, packet, at, size, acc);
  }

  /** What a hello, or the answer to a message id, is filed as: its C-Type, under a parameter that the sender does not
      need to have. */
  lemma KindFiled(c: ObjectClass, conf: Store, list: seq<ObjectClass>, acc: Store)
    requires c in {HelloRequest, HelloAck, MessageIdAck, MessageIdNack}
    requires Whole(c, conf, list) && Unmet(c, conf, list, acc)
    ensures var p := if c in {HelloRequest, HelloAck} then RC_HELLO_REQ_ACK else RC_MSG_ID_ACK_NACK;
      var r := Effect(c, conf, list, acc);
      p in r && r[p] == [Char(NumbersOf(c).ctnum)]
  {
    AddsWhole(c, conf, list, acc);
    Corresponds(c, conf, list);
    var writes, gets := WritesOf(c, conf, list), ExpectedReads(c, conf);
    RecoveredAt(writes, gets, 0, conf, |gets| - 1);
  }

  // ---- What a few bytes decide

  lemma TwoRuns(a: Read, b: Read, packet: seq<byte>, at: nat, conf: Store)
    ensures RunReads([a, b], 0, packet, at, conf)
      == var step := ReadOne(a, packet, at, conf); if step.Next? then ReadOne(b, packet, step.at, step.store) else step
  {
    var step := ReadOne(a, packet, at, conf);
    if step.Next? {
      var next := ReadOne(b, packet, step.at, step.store);
      assert next.Next? ==> RunReads([a, b], 2, packet, next.at, next.store) == next;
    }
  }

  /** Of a style only the wildcard octet is told from the others, whatever the first three bytes are. */
  lemma StyleTold(packet: seq<byte>, at: nat, size: int, acc: Store)
    requires at + 4 <= |packet|
    ensures var p := if packet[at + 3] == 0x11 then RC_WILDCARD_FILTER else RC_FIXED_FILTER;
      ParseBody(8, 1, packet, at, size, acc) == Parsed(if p in acc then acc else acc[p := [Char(1)]])
  {
    var p := if packet[at + 3] == 0x11 then RC_WILDCARD_FILTER else RC_FIXED_FILTER;
    TwoRuns(Skip(3), Took(1, p, Char(1)), packet, at, acc);
  }

  /** The token bucket parameters are read only behind the headers of section 3 of RFC 2210: a TSPEC behind its own or
      behind that of a controlled load flowspec, a flowspec behind that or behind the one of a guaranteed service.
      Behind any other nothing is read. */
  lemma TrafficTold(packet: seq<byte>, at: nat, size: int, acc: Store)
    requires at + 12 <= |packet|
    ensures var header := packet[at..at + 12];
      && (header[..4] != [0, 0, 0, 7] || header[4] !in {1, 5} || header[5..] != [0, 0, 6, 127, 0, 0, 5]
          ==> ParseBody(12, 2, packet, at, size, acc) == Parsed(acc))
      && (header !in {[0, 0, 0, 7, 5, 0, 0, 6, 127, 0, 0, 5], [0, 0, 0, 10, 2, 0, 0, 9, 127, 0, 0, 5]}
          ==> ParseBody(9, 2, packet, at, size, acc) == Parsed(acc))
  {
    var header := packet[at..at + 12];
    assert header == header[..4] + [header[4]] + header[5..];
    assert RunReads([Skip(12)], 1, packet, at + 12, acc) == Next(acc, at + 12);
    assert RunReads([Skip(12)], 0, packet, at, acc) == Next(acc, at + 12);
  }

  /** Behind a controlled load header a TSPEC and a flowspec are read alike. */
  lemma LoadsAlike(packet: seq<byte>, at: nat, size: int, acc: Store)
    requires Holds(packet, at, [0, 0, 0, 7, 5, 0, 0, 6, 127, 0, 0, 5])
    ensures ParseBody(12, 2, packet, at, size, acc) == ParseBody(9, 2, packet, at, size, acc)
      == Finish(RunReads(TSPEC_READS, 0, packet, at, acc))
  {
  }

  lemma {:induction false} RunLonger(gets: seq<Read>, more: seq<Read>, i: nat, packet: seq<byte>, at: nat, acc: Store)
    requires i <= |gets|
    ensures var step := RunReads(gets, i, packet, at, acc);
      RunReads(gets + more, i, packet, at, acc)
      == if step.Next? then RunReads(gets + more, |gets|, packet, step.at, step.store) else step
    decreases |gets| - i
  {
    if i < |gets| {
      var step := ReadOne(gets[i], packet, at, acc);
      assert (gets + more)[i] == gets[i];
      hide ReadOne;
      if step.Next? { RunLonger(gets, more, i + 1, packet, step.at, step.store); }
    }
  }

  lemma OneWidth(get: Read, packet: seq<byte>, at: nat, acc: Store)
    ensures var step := ReadOne(get, packet, at, acc); step.Next? ==> step.at == at + ReadWidth(get) <= |packet|
  {
  }

  function TotalWidth(gets: seq<Read>, i: nat): nat
    requires i <= |gets|
    decreases |gets| - i
  {
    if i == |gets| then 0 else ReadWidth(gets[i]) + TotalWidth(gets, i + 1)
  }

  lemma {:induction false} RunWidth(gets: seq<Read>, i: nat, packet: seq<byte>, at: nat, acc: Store)
    requires i <= |gets|
    ensures var step := RunReads(gets, i, packet, at, acc); step.Next? ==> step.at == at + TotalWidth(gets, i)
    decreases |gets| - i
  {
    if i < |gets| {
      OneWidth(gets[i], packet, at, acc);
      var step := ReadOne(gets[i], packet, at, acc);
      hide ReadOne, ReadWidth;
      if step.Next? { RunWidth(gets, i + 1, packet, step.at, step.store); }
    }
  }

  lemma LoadWidth()
    ensures TotalWidth(TSPEC_READS, 0) == 32
  {
    assert TotalWidth(TSPEC_READS, 5) == 4;
    assert TotalWidth(TSPEC_READS, 3) == 12;
    assert TotalWidth(TSPEC_READS, 1) == 20;
  }

  lemma RateReads(packet: seq<byte>, at: nat, size: int, acc: Store)
    requires Holds(packet, at, [0, 0, 0, 10, 2, 0, 0, 9, 127, 0, 0, 5])
    requires at + 36 <= |packet| && packet[at + 32..at + 36] != [130, 0, 0, 2]
    ensures ParseBody(9, 2, packet, at, size, acc)
      == Finish(RunReads(TSPEC_READS + [Skip(4)], 0, packet, at, acc))
  {
    assert packet[at..at + 12] == [0, 0, 0, 10, 2, 0, 0, 9, 127, 0, 0, 5] && packet[at..at + 12][3] == 10;
    assert FlowspecReads(packet, at) == TSPEC_READS + [Skip(4)] + [] == TSPEC_READS + [Skip(4)];
    hide FlowspecReads, RunReads;
  }

  /** A guaranteed flowspec without the header of the rate and the slack is read as a controlled load one. */
  lemma RateTold(packet: seq<byte>, at: nat, size: int, acc: Store)
    requires Holds(packet, at, [0, 0, 0, 10, 2, 0, 0, 9, 127, 0, 0, 5])
    requires at + 36 <= |packet| && packet[at + 32..at + 36] != [130, 0, 0, 2]
    ensures ParseBody(9, 2, packet, at, size, acc) == Finish(RunReads(TSPEC_READS, 0, packet, at, acc))
  {
    hide ParseBody, Holds;
    var gets, step := TSPEC_READS + [Skip(4)], RunReads(TSPEC_READS, 0, packet, at, acc);
    RateReads(packet, at, size, acc);
    RunWidth(TSPEC_READS, 0, packet, at, acc);
    LoadWidth();
    RunLonger(TSPEC_READS, [Skip(4)], 0, packet, at, acc);
    if step.Next? {
      assert RunReads(gets, 7, packet, step.at + 4, step.store) == Next(step.store, step.at + 4);
    }
  }

  /** A label is taken whole, as many bytes as the object has, or the read runs past the end. */
  lemma LabelTaken(packet: seq<byte>, at: nat, size: int, acc: Store)
    ensures ParseBody(16, 2, packet, at, size, acc)
      == if size < 0 || at + size > |packet| then Overrun
         else Parsed(if RC_LABEL in acc then acc else acc[RC_LABEL := [Block(packet[at..at + size])]])
  {
    var gets := LabelReads(packet, at, size);
    var step := ReadOne(gets[0], packet, at, acc);
    assert step.Next? ==> RunReads(gets, 1, packet, step.at, step.store) == step;
  }

  /** Of Ethernet parameters without the bandwidth profile of section 4.1 of RFC 6003 the granularity alone is read. */
  lemma ProfileTold(oc: byte, packet: seq<byte>, at: nat, size: int, acc: Store)
    requires oc in {9, 12} && at + 8 <= |packet| && packet[at + 4..at + 8] != [0, 129, 0, 24]
    ensures ParseBody(oc, 6, packet, at, size, acc)
      == Parsed(if RC_ETHERNET_SW_GRANUALITY in acc then acc
                else acc[RC_ETHERNET_SW_GRANUALITY := [Short(FromNet16(packet[at..at + 2]))]])
  {
    assert Net16(ETHERNET_PROFILE_TYPE) + Net16(ETHERNET_PROFILE_LENGTH) == [0, 129, 0, 24];
    assert ETHERNET_READS[..2] == [Get(SignedCharC, RC_ETHERNET_SW_GRANUALITY), Skip(6)];
    TwoRuns(Get(SignedCharC, RC_ETHERNET_SW_GRANUALITY), Skip(6), packet, at, acc);
  }

  // ---- Lengths of zero

  /** A subobject of length zero is met again: one of an unknown type for ever, an address until its second addition is
      refused. */
  lemma ZeroSubobject(packet: seq<byte>, at: nat, end: int, acc: Store)
    requires at < end && at + 8 <= |packet| && packet[at..at + 2] == [0, 0]
    ensures packet[at + 3] != 1 || packet[at + 2] !in {1, 2, 5} ==> ParseUni(packet, at, end, acc) == Endless
    ensures packet[at + 3] == 1 && packet[at + 2] in {1, 2} ==>
      var p := if packet[at + 2] == 1 then RC_TNA_SRC_ADDR else RC_TNA_DST_ADDR;
      ParseUni(packet, at, end, acc)
      == Parsed(if p in acc then acc else acc[p := [Int(FromHost32(packet[at + 4..at + 8]))]])
  {
    var gets := SubReads(packet[at + 2], packet[at + 3]);
    if gets != [] {
      var step := ReadOne(gets[0], packet, at + 4, acc);
      assert step.Next? && |gets| == 1 ==> RunReads(gets, 1, packet, step.at, step.store) == step;
    } else {
      assert RunReads(gets, 0, packet, at + 4, acc) == Next(acc, at + 4);
    }
  }

  /** So is a hop of length zero, for ever. */
  lemma ZeroHop(packet: seq<byte>, at: nat, end: int, acc: Store)
    requires at < end && at + 2 <= |packet| && packet[at + 1] == 0
    ensures ParseEro(packet, at, end, acc) == Endless
  {
  }

  // ---- The operator specific call identifier

  /** CALL_ID_2 with any address in place of the IPv4 one. */
  function CallWrites(addr: seq<byte>): seq<Write> {
    [Put(CharC, RC_CALL_ID_ADDR_TYPE), Put(Low24C, RC_CALL_ID_IS), Put(IntC, RC_CALL_ID_ITU_CC1),
     Put(ShortC, RC_CALL_ID_ITU_CC2), Put(ShortC, RC_CALL_ID_UAPC1), Put(IntC, RC_CALL_ID_UAPC2), Lit(addr),
     Put(IntC, RC_CALL_ID_LOCAL_ID1), Put(IntC, RC_CALL_ID_LOCAL_ID2)]
  }

  function PassingReads(n: nat): seq<Read> {
    [Get(CharC, RC_CALL_ID_ADDR_TYPE), Get(Low24C, RC_CALL_ID_IS), Get(IntC, RC_CALL_ID_ITU_CC1),
     Get(ShortC, RC_CALL_ID_ITU_CC2), Get(ShortC, RC_CALL_ID_UAPC1), Get(IntC, RC_CALL_ID_UAPC2), Skip(n),
     Get(IntC, RC_CALL_ID_LOCAL_ID1), Get(IntC, RC_CALL_ID_LOCAL_ID2)]
  }

  /** How the parameter travels, and where it stands. */
  function CallField(p: Param): Option<(Codec, nat)> {
    if p == RC_CALL_ID_ADDR_TYPE then Some((CharC, 0)) else if p == RC_CALL_ID_IS then Some((Low24C, 1))
    else if p == RC_CALL_ID_ITU_CC1 then Some((IntC, 2)) else if p == RC_CALL_ID_ITU_CC2 then Some((ShortC, 3))
    else if p == RC_CALL_ID_UAPC1 then Some((ShortC, 4)) else if p == RC_CALL_ID_UAPC2 then Some((IntC, 5))
    else if p == RC_CALL_ID_LOCAL_ID1 then Some((IntC, 7)) else if p == RC_CALL_ID_LOCAL_ID2 then Some((IntC, 8))
    else None
  }

  lemma PassingFits(addr: seq<byte>)
    ensures Aligned(CallWrites(addr), PassingReads(|addr|)) && WellTyped(PassingReads(|addr|))
  {
  }

  lemma FieldStands(addr: seq<byte>, p: Param)
    ensures |CallWrites(addr)| == |PassingReads(|addr|)| == 9
    ensures CallField(p).Some? ==>
      var (c, k) := CallField(p).value;
      k < 9 && CallWrites(addr)[k] == Put(c, p) && PassingReads(|addr|)[k] == Get(c, p)
    ensures CallField(p).None? ==>
      forall j :: 0 <= j < 9 && !PassingReads(|addr|)[j].Skip? ==> PassingReads(|addr|)[j].p != p
  {
  }

  /** The international segment has room for three bytes. */
  function CallValue(conf: Store, p: Param): Value {
    if p !in conf || conf[p] == [] then Char(0)
    else if p == RC_CALL_ID_IS && conf[p][0].Int? then Int(conf[p][0].i % 0x100_0000)
    else conf[p][0]
  }

  lemma FieldBack(conf: Store, c: Codec, p: Param)
    requires Readable(Put(c, p), conf) && c in {CharC, Low24C, IntC, ShortC} && (c.Low24C? <==> p == RC_CALL_ID_IS)
    ensures RecoveredValue(Put(c, p), Get(c, p), conf) == CallValue(conf, p)
  {
    WiredValue(c, conf[p][0]);
  }

  lemma TypeFirst(conf: Store, packet: seq<byte>, at: nat, addr: seq<byte>)
    requires AllReadable(CallWrites(addr), conf) && LiesAt(packet, at, Emission(CallWrites(addr), conf))
    ensures at < |packet| && CallValue(conf, RC_CALL_ID_ADDR_TYPE) == Char(packet[at])
  {
    EmittedStep(CallWrites(addr), 0, conf, packet, at);
  }

  lemma FieldTaken(conf: Store, writes: seq<Write>, gets: seq<Read>, p: Param, addr: seq<byte>)
    requires writes == CallWrites(addr) && gets == PassingReads(|addr|)
    requires AllReadable(writes, conf) && Aligned(writes, gets) && WellTyped(gets)
    ensures p in RecoveredFrom(writes, gets, 0, conf) <==> CallField(p).Some?
    ensures CallField(p).Some? ==> RecoveredFrom(writes, gets, 0, conf)[p] == [CallValue(conf, p)]
  {
    FieldStands(addr, p);
    RecoveredKeys(writes, gets, 0, conf, p);
    hide CallWrites, PassingReads, WellTyped, RecoveredFrom, CallValue;
    if CallField(p).Some? {
      var (c, k) := CallField(p).value;
      assert Readable(writes[k], conf);
      FieldBack(conf, c, p);
      RecoveredAt(writes, gets, 0, conf, k);
    }
  }

  /** None of the eight is there yet. */
  predicate NoCall(acc: Store) {
    forall p :: p in acc ==> CallField(p).None?
  }

  lemma NothingRefused(acc: Store, addr: seq<byte>)
    requires NoCall(acc)
    ensures Reach(PassingReads(|addr|), 0, acc) == 9
  {
    var n := Reach(PassingReads(|addr|), 0, acc);
    if n < 9 { FieldStands(addr, PassingReads(|addr|)[n].p); }
  }

  lemma CallBody(packet: seq<byte>, at: nat, n: nat, acc: Store)
    requires at < |packet| && packet[at] != 1 && n % 4 == 0
    ensures ParseBody(230, 2, packet, at, 24 + n, acc) == Finish(RunReads(PassingReads(n), 0, packet, at, acc))
  {
    assert CallId2Reads(packet, at, 24 + n) == PassingReads(n);
    hide RunReads, CallId2Reads, PassingReads;
  }

  lemma PassingFilled(conf: Store, writes: seq<Write>, gets: seq<Read>, acc: Store, addr: seq<byte>)
    requires gets == PassingReads(|addr|) && NoCall(acc)
    requires AllReadable(writes, conf) && Aligned(writes, gets) && Distinct(gets)
    ensures Filled(writes, gets, 0, conf, acc) == acc + RecoveredFrom(writes, gets, 0, conf)
  {
    FilledExactly(writes, gets, 0, conf, acc);
    NothingRefused(acc, addr);
    assert gets[..9] == gets by { FieldStands(addr, RC_CALL_ID_IS); }
  }

  /** A sender's eight values around an address of another type and any number of words all come back, and the address
      leaves nothing. */
  lemma ForeignCall(conf: Store, packet: seq<byte>, at: nat, addr: seq<byte>, acc: Store, p: Param)
    requires AllReadable(CallWrites(addr), conf) && LiesAt(packet, at, Emission(CallWrites(addr), conf))
    requires CallValue(conf, RC_CALL_ID_ADDR_TYPE) != Char(1) && |addr| % 4 == 0 && NoCall(acc)
    ensures var parse := ParseBody(230, 2, packet, at, 24 + |addr|, acc);
      && parse.Parsed?
      && (p in parse.store <==> p in acc || CallField(p).Some?)
      && (p in parse.store ==> parse.store[p] == if CallField(p).Some? then [CallValue(conf, p)] else acc[p])
  {
    var writes, gets := CallWrites(addr), PassingReads(|addr|);
    TypeFirst(conf, packet, at, addr);
    PassingFits(addr);
    assert Typed(gets) && Distinct(gets);
    hide LiesAt, AllReadable, Filled, RunReads, PassingReads, CallWrites, CallField, CallValue, ParseBody, WellTyped;
    hide RecoveredFrom, Aligned;
    CallBody(packet, at, |addr|, acc);
    ReadsFill(writes, gets, 0, conf, packet, at, acc);
    PassingFilled(conf, writes, gets, acc, addr);
    FieldTaken(conf, writes, gets, p, addr);
  }
}
