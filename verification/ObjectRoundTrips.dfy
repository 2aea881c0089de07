/** What holds of every object: the length field frames the bytes written (section 3.1.2 of RFC 2205), and reading
    the body back recovers what was written, exactly or exactly when a stated condition holds. */
module ObjectRoundTrips {
  import opened Bytes
  import opened Parameters
  import opened Configuration
  import opened WireFormats
  import opened ObjectList
  import opened ObjectFormats

  /** `get_data` finds everything this object is written from. SCOPE is never written: its loop does not advance. */
  predicate Writable(c: ObjectClass, conf: Store, list: seq<ObjectClass>) {
    !c.Scope? && Inspectable(c, conf) && AllReadable(WritesOf(c, conf, list), conf)
  }

  function Body(c: ObjectClass, conf: Store, list: seq<ObjectClass>): seq<byte>
    requires Writable(c, conf, list)
  {
    Emission(WritesOf(c, conf, list), conf)
  }

  // ---- Framing

  function WidthAt(writes: seq<Write>, i: nat): nat {
    if i < |writes| then WidthOf(writes[i]) else 0
  }

  function WidthOfThree(writes: seq<Write>, i: nat): nat {
    WidthAt(writes, i) + WidthAt(writes, i + 1) + WidthAt(writes, i + 2)
  }

  lemma ThreeWidths(writes: seq<Write>, i: nat)
    requires i <= |writes|
    ensures WidthFrom(writes, i) == WidthOfThree(writes, i) + if i + 3 <= |writes| then WidthFrom(writes, i + 3) else 0
  {
    if i + 1 <= |writes| { assert WidthFrom(writes, i) == WidthAt(writes, i) + WidthFrom(writes, i + 1); }
    if i + 2 <= |writes| { assert WidthFrom(writes, i + 1) == WidthAt(writes, i + 1) + WidthFrom(writes, i + 2); }
  }

  lemma {:induction false} WidthSum(writes: seq<Write>)
    requires |writes| <= 9
    ensures WidthFrom(writes, 0) == WidthOfThree(writes, 0) + WidthOfThree(writes, 3) + WidthOfThree(writes, 6)
  {
    ThreeWidths(writes, 0);
    if |writes| >= 3 { ThreeWidths(writes, 3); }
    if |writes| >= 6 { ThreeWidths(writes, 6); }
    if |writes| == 9 { assert WidthFrom(writes, 9) == 0; }
  }

  lemma {:induction false} EroWidth(hops: seq<Value>, i: nat)
    requires i <= |hops| && AllHops(hops)
    ensures WidthFrom(EroWrites(hops), i) == 8 * (|hops| - i)
    decreases |hops| - i
  {
    if i < |hops| { EroWidth(hops, i + 1); }
  }

  lemma {:induction false} UniWidth(list: seq<ObjectClass>)
    ensures WidthFrom(UniWrites(list), 0) % 4 == 0
  {
    if list != [] {
      UniWidth(list[1..]);
      WidthSum(SubWrites(list[0]));
      WidthConcat(SubWrites(list[0]), UniWrites(list[1..]), 0);
    }
  }

  lemma {:induction false} WidthConcat(a: seq<Write>, b: seq<Write>, i: nat)
    requires i <= |a|
    ensures WidthFrom(a + b, i) == WidthFrom(a, i) + WidthFrom(b, 0)
    decreases |a| - i
  {
    if i < |a| {
      WidthConcat(a, b, i + 1);
    } else {
      WidthAfter(a, b, 0);
    }
  }

  lemma {:induction false} WidthAfter(a: seq<Write>, b: seq<Write>, i: nat)
    requires i <= |b|
    ensures WidthFrom(a + b, |a| + i) == WidthFrom(b, i)
    decreases |b| - i
  {
    if i < |b| { WidthAfter(a, b, i + 1); }
  }

  predicate FrameGuard(c: ObjectClass, conf: Store) {
    match c
    case Style => IsSet(conf, RC_WILDCARD_FILTER) || IsSet(conf, RC_FIXED_FILTER) || IsSet(conf, RC_SHARED_EXPLICIT)
    case Ipv4IfIdRsvpHop => RC_DATA_OUT_IF_HANDLE in conf
    case _ => true
  }

  lemma {:induction false} HeadingBodyWidth(c: ObjectClass, conf: Store, list: seq<ObjectClass>)
    requires PartOf(c).Heading? && !Silent(c) && !c.GeneralizedUni? && Inspectable(c, conf)
    ensures WidthFrom(WritesOf(c, conf, list), 0) == DeclaredSize(c, conf, list) <==> FrameGuard(c, conf)
    ensures FrameGuard(c, conf) ==> DeclaredSize(c, conf, list) % 4 == 0
  {
    WidthSum(WritesOf(c, conf, list));
  }

  lemma SessionWidths(conf: Store, list: seq<ObjectClass>)
    requires Inspectable(SessionAttribute, conf)
    ensures var writes, n := WritesOf(SessionAttribute, conf, list), |conf[RC_SESSION_NAME][0].text|;
      && |writes| == 8 && WidthOfThree(writes, 0) == 3 && WidthOfThree(writes, 3) == 1
      && WidthOfThree(writes, 6) == n + Padding(n)
  {
    hide SessionFlags, Padding;
  }

  lemma SessionWidth(conf: Store, list: seq<ObjectClass>)
    requires Inspectable(SessionAttribute, conf)
    ensures WidthFrom(WritesOf(SessionAttribute, conf, list), 0) == DeclaredSize(SessionAttribute, conf, list)
    ensures DeclaredSize(SessionAttribute, conf, list) % 4 == 0
  {
    SessionWidths(conf, list);
    PaddedWidth(|conf[RC_SESSION_NAME][0].text|);
    hide WritesOf, Padding, WidthOfThree;
    WidthSum(WritesOf(SessionAttribute, conf, list));
  }

  lemma CallWidth(c: ObjectClass, conf: Store, list: seq<ObjectClass>)
    requires c.CallId1? || c.CallId2?
    ensures WidthFrom(WritesOf(c, conf, list), 0) == DeclaredSize(c, conf, list)
    ensures DeclaredSize(c, conf, list) % 4 == 0
  {
    WidthSum(WritesOf(c, conf, list));
  }

  lemma ShortWidths(c: ObjectClass, conf: Store, list: seq<ObjectClass>)
    requires c in {GeneralizedLabelRequest, ErrorSpec, NotifyRequest, CallId0}
    ensures var writes, n := WritesOf(c, conf, list), DeclaredSize(c, conf, list);
      && |writes| <= 9 && n % 4 == 0
      && WidthOfThree(writes, 0) + WidthOfThree(writes, 3) + WidthOfThree(writes, 6) == n
  {
  }

  lemma ShortWidth(c: ObjectClass, conf: Store, list: seq<ObjectClass>)
    requires c in {GeneralizedLabelRequest, ErrorSpec, NotifyRequest, CallId0}
    ensures WidthFrom(WritesOf(c, conf, list), 0) == DeclaredSize(c, conf, list)
    ensures DeclaredSize(c, conf, list) % 4 == 0
  {
    ShortWidths(c, conf, list);
    hide WritesOf, DeclaredSize, WidthOfThree, WidthFrom;
    WidthSum(WritesOf(c, conf, list));
  }

  lemma RequestBodyWidth(c: ObjectClass, conf: Store, list: seq<ObjectClass>)
    requires PartOf(c).Request? && Inspectable(c, conf)
    ensures WidthFrom(WritesOf(c, conf, list), 0) == DeclaredSize(c, conf, list)
    ensures DeclaredSize(c, conf, list) % 4 == 0
  {
    if c.CallId1? || c.CallId2? {
      CallWidth(c, conf, list);
    } else if c.SessionAttribute? {
      SessionWidth(conf, list);
    } else {
      ShortWidth(c, conf, list);
    }
  }

  lemma PaddedWidth(n: nat)
    ensures (n + Padding(n)) % 4 == 0
  {
  }

  lemma SenderBodyWidth(c: ObjectClass, conf: Store, list: seq<ObjectClass>)
    requires PartOf(c).Sender? && !Silent(c) && !c.GeneralizedUni? && Inspectable(c, conf)
    ensures WidthFrom(WritesOf(c, conf, list), 0) == DeclaredSize(c, conf, list) <==> FrameGuard(c, conf)
    ensures FrameGuard(c, conf) ==> DeclaredSize(c, conf, list) % 4 == 0
  {
    WidthSum(WritesOf(c, conf, list));
  }

  lemma ReservationBodyWidth(c: ObjectClass, conf: Store, list: seq<ObjectClass>)
    requires PartOf(c).Reservation? && !c.Scope? && !c.Ero? && Inspectable(c, conf)
    ensures WidthFrom(WritesOf(c, conf, list), 0) == DeclaredSize(c, conf, list) <==> FrameGuard(c, conf)
    ensures FrameGuard(c, conf) ==> DeclaredSize(c, conf, list) % 4 == 0
  {
    WidthSum(WritesOf(c, conf, list));
  }

  lemma BodyWidth(c: ObjectClass, conf: Store, list: seq<ObjectClass>)
    requires !c.Scope? && !Silent(c) && Inspectable(c, conf)
    ensures WidthFrom(WritesOf(c, conf, list), 0) == DeclaredSize(c, conf, list) <==> FrameGuard(c, conf)
    ensures FrameGuard(c, conf) ==> DeclaredSize(c, conf, list) % 4 == 0
  {
    if c.GeneralizedUni? {
      UniWidth(list);
    } else if c.Ero? {
      EroWidth(conf[RC_ERO], 0);
    } else if PartOf(c).Heading? {
      HeadingBodyWidth(c, conf, list);
    } else if PartOf(c).Request? {
      RequestBodyWidth(c, conf, list);
    } else if PartOf(c).Sender? {
      SenderBodyWidth(c, conf, list);
    } else {
      ReservationBodyWidth(c, conf, list);
    }
  }

  /** The length field is the size of the object, and a multiple of four, except for a style with no flag set, and a
      hop whose data handle is absent: that one declares a TLV it does not write. */
  lemma Framed(c: ObjectClass, conf: Store, list: seq<ObjectClass>)
    requires Writable(c, conf, list) && !Silent(c)
    ensures |Body(c, conf, list)| == DeclaredSize(c, conf, list) <==> FrameGuard(c, conf)
    ensures FrameGuard(c, conf) ==> DeclaredSize(c, conf, list) % 4 == 0
  {
    BodyWidth(c, conf, list);
    EmittedWidth(WritesOf(c, conf, list), 0, conf);
  }

  // ---- Reading back

  /** Objects read by straight-line code alone. */
  predicate Straight(c: ObjectClass) {
    !Silent(c) && !c.Scope? && !c.Ero? && !c.GeneralizedUni? && !c.CallId0?
  }

  /** The address of a CALL_ID is read only when its type says it is an IPv4 one. */
  function CallAddressRead(conf: Store): Read {
    if RC_CALL_ID_ADDR_TYPE in conf
      && conf[RC_CALL_ID_ADDR_TYPE] == [Char(1)] then Get(AddrC, RC_CALL_ID_SRC_TN_ADDR) else Skip(4)
  }

  const HOP_READS: seq<Read> := [
    Get(AddrC, RC_CONTROL_OUT_IF_ADDR), Took(4, RC_CONTROL_OUT_IF_HANDLE, Int(0)), Skip(4),
    Get(AddrC, RC_DATA_OUT_IF_ADDR), Get(IntC, RC_DATA_OUT_IF_HANDLE)
  ]

  /** What the parser will do on the bytes written for the object. */
  function ExpectedReads(c: ObjectClass, conf: Store): seq<Read>
    requires Inspectable(c, conf)
  {
    match c
    case Style => [Skip(3),
      Took(1, if IsSet(conf, RC_WILDCARD_FILTER) then RC_WILDCARD_FILTER else RC_FIXED_FILTER, Char(1))]
    case SessionAttribute =>
      var name := conf[RC_SESSION_NAME][0].text;
      [Get(CharC, RC_SETUP_PRIORITY), Get(CharC, RC_HOLDING_PRIORITY),
       MarkIf(1, conf[RC_LOCAL_PROTECTION_FLAG][0].c != 0, RC_LOCAL_PROTECTION_FLAG),
       MarkIf(0, conf[RC_LABEL_RECORDING_FLAG][0].c != 0, RC_LABEL_RECORDING_FLAG),
       MarkIf(0, conf[RC_SE_STYLE_FLAG][0].c != 0, RC_SE_STYLE_FLAG),
       Skip(1), Took(|name| % 0x100, RC_SESSION_NAME, Text(name[..|name| % 0x100]))]
    case Ipv4IfIdRsvpHop => HOP_READS
    case TokenFlowspec =>
      if Guaranteed(conf) then TSPEC_READS + [Skip(4), Get(FloatC, RC_RATE), Get(IntC, RC_SLACK_TERM)] else TSPEC_READS
    case TokenSenderTspec => TSPEC_READS
    case EthernetSenderTspec => ETHERNET_READS
    case EthernetFlowspec => ETHERNET_READS
    case CallId1 =>
      [Get(CharC, RC_CALL_ID_ADDR_TYPE), Skip(3), CallAddressRead(conf),
       Get(IntC, RC_CALL_ID_LOCAL_ID1), Get(IntC, RC_CALL_ID_LOCAL_ID2)]
    case CallId2 =>
      [Get(CharC, RC_CALL_ID_ADDR_TYPE), Get(Low24C, RC_CALL_ID_IS), Get(IntC, RC_CALL_ID_ITU_CC1),
       Get(ShortC, RC_CALL_ID_ITU_CC2), Get(ShortC, RC_CALL_ID_UAPC1), Get(IntC, RC_CALL_ID_UAPC2),
       CallAddressRead(conf), Get(IntC, RC_CALL_ID_LOCAL_ID1), Get(IntC, RC_CALL_ID_LOCAL_ID2)]
    case GeneralizedLabel =>
      var block := conf[RC_LABEL][0].bytes + Zeros(Padding(|conf[RC_LABEL][0].bytes|));
      [Took(|block|, RC_LABEL, Block(block))]
    case HelloRequest => HELLO_READS + [Took(0, RC_HELLO_REQ_ACK, Char(1))]
    case HelloAck => HELLO_READS + [Took(0, RC_HELLO_REQ_ACK, Char(2))]
    case MessageIdAck => MESSAGE_ID_READS + [Took(0, RC_MSG_ID_ACK_NACK, Char(1))]
    case MessageIdNack => MESSAGE_ID_READS + [Took(0, RC_MSG_ID_ACK_NACK, Char(2))]
    case _ => ReadsOf(NumbersOf(c).cnum, NumbersOf(c).ctnum, [], 0, 0)
  }

  lemma HeadingAligned(c: ObjectClass, conf: Store, list: seq<ObjectClass>)
    requires PartOf(c).Heading? && Straight(c) && Inspectable(c, conf) && FrameGuard(c, conf)
    ensures Aligned(WritesOf(c, conf, list), ExpectedReads(c, conf))
  {
  }

  lemma HeadingTyped(c: ObjectClass, conf: Store)
    requires PartOf(c).Heading? && Straight(c) && Inspectable(c, conf)
    ensures Typed(ExpectedReads(c, conf))
  {
  }

  lemma HeadingDistinct(c: ObjectClass, conf: Store)
    requires PartOf(c).Heading? && Straight(c) && Inspectable(c, conf)
    ensures Distinct(ExpectedReads(c, conf))
  {
  }

  lemma RequestAligned(c: ObjectClass, conf: Store, list: seq<ObjectClass>)
    requires PartOf(c).Request? && Straight(c) && Inspectable(c, conf) && FrameGuard(c, conf)
    ensures Aligned(WritesOf(c, conf, list), ExpectedReads(c, conf))
  {
  }

  lemma SessionTyped(conf: Store)
    requires Inspectable(SessionAttribute, conf)
    ensures Typed(ExpectedReads(SessionAttribute, conf))
  {
  }

  lemma AddressTyped(conf: Store)
    ensures var address := CallAddressRead(conf);
      address.Skip? || (address == Get(AddrC, RC_CALL_ID_SRC_TN_ADDR) && TypeOf(RC_CALL_ID_SRC_TN_ADDR) == Scalar(UI))
  {
  }

  lemma CallTyped(c: ObjectClass, conf: Store)
    requires c.CallId1? || c.CallId2?
    ensures Typed(ExpectedReads(c, conf))
  {
    AddressTyped(conf);
    hide CallAddressRead, ReadsOf;
  }

  lemma RequestTyped(c: ObjectClass, conf: Store)
    requires PartOf(c).Request? && Straight(c) && Inspectable(c, conf)
    ensures Typed(ExpectedReads(c, conf))
  {
    match c
    case SessionAttribute => SessionTyped(conf);
    case CallId1 => CallTyped(c, conf);
    case CallId2 => CallTyped(c, conf);
    case _ =>
  }

  lemma RequestDistinct(c: ObjectClass, conf: Store)
    requires PartOf(c).Request? && Straight(c) && Inspectable(c, conf)
    ensures Distinct(ExpectedReads(c, conf))
  {
  }

  lemma SenderAligned(c: ObjectClass, conf: Store, list: seq<ObjectClass>)
    requires PartOf(c).Sender? && Straight(c) && Inspectable(c, conf) && FrameGuard(c, conf)
    ensures Aligned(WritesOf(c, conf, list), ExpectedReads(c, conf))
  {
  }

  lemma EthernetTyped()
    ensures Typed(ETHERNET_READS)
  {
  }

  lemma SonetsdhTyped()
    ensures Typed(SONETSDH_READS)
  {
  }

  lemma TokenTyped(c: ObjectClass, conf: Store)
    requires c.TokenSenderTspec? || c.TokenFlowspec?
    ensures Typed(ExpectedReads(c, conf))
  {
  }

  lemma SenderTyped(c: ObjectClass, conf: Store)
    requires PartOf(c).Sender? && Straight(c) && Inspectable(c, conf)
    ensures Typed(ExpectedReads(c, conf))
  {
    match c
    case EthernetSenderTspec => EthernetTyped();
    case SonetsdhSenderTspec => SonetsdhTyped();
    case TokenSenderTspec => TokenTyped(c, conf);
    case _ =>
  }

  lemma SenderDistinct(c: ObjectClass, conf: Store)
    requires PartOf(c).Sender? && Straight(c) && Inspectable(c, conf)
    ensures Distinct(ExpectedReads(c, conf))
  {
  }

  lemma TablesAligned()
    ensures Aligned(ETHERNET_WRITES, ETHERNET_READS) && Aligned(SONETSDH_WRITES, SONETSDH_READS)
  {
  }

  lemma TspecAligned(head: seq<byte>)
    requires |head| == 12
    ensures Aligned([Lit(head)] + TSPEC_PARAMETERS, TSPEC_READS)
    ensures Aligned(
      [Lit(head)] + TSPEC_PARAMETERS + [Lit(GUARANTEED_RSPEC), Put(FloatC, RC_RATE), Put(IntC, RC_SLACK_TERM)],
      TSPEC_READS + [Skip(4), Get(FloatC, RC_RATE), Get(IntC, RC_SLACK_TERM)])
  {
  }

  lemma ReservationAligned(c: ObjectClass, conf: Store, list: seq<ObjectClass>)
    requires PartOf(c).Reservation? && Straight(c) && Inspectable(c, conf) && FrameGuard(c, conf)
    ensures Aligned(WritesOf(c, conf, list), ExpectedReads(c, conf))
  {
    match c
    case EthernetFlowspec => TablesAligned();
    case SonetsdhFlowspec => TablesAligned();
    case TokenFlowspec =>
      hide Aligned;
      TspecAligned(GUARANTEED_FLOWSPEC);
      TspecAligned(CONTROLLED_LOAD_FLOWSPEC);
    case _ =>
  }

  lemma ReservationTyped(c: ObjectClass, conf: Store)
    requires PartOf(c).Reservation? && Straight(c) && Inspectable(c, conf)
    ensures Typed(ExpectedReads(c, conf))
  {
    match c
    case EthernetFlowspec => EthernetTyped();
    case SonetsdhFlowspec => SonetsdhTyped();
    case TokenFlowspec => TokenTyped(c, conf);
    case _ =>
  }

  lemma ReservationDistinct(c: ObjectClass, conf: Store)
    requires PartOf(c).Reservation? && Straight(c) && Inspectable(c, conf)
    ensures Distinct(ExpectedReads(c, conf))
  {
  }

  lemma RestStep(writes: seq<Write>, i: nat, conf: Store, packet: seq<byte>, at: nat)
    requires AllReadable(writes, conf) && i < |writes| && LiesAt(packet, at, EmittedFrom(writes, i, conf))
    ensures LiesAt(packet, at + WidthOf(writes[i]), EmittedFrom(writes, i + 1, conf))
    ensures WidthFrom(writes, i) == WidthOf(writes[i]) + WidthFrom(writes, i + 1)
  {
    EmittedStep(writes, i, conf, packet, at);
  }

  lemma {:induction false} RestLies(writes: seq<Write>, i: nat, n: nat, conf: Store, packet: seq<byte>, at: nat,
      to: nat)
    requires AllReadable(writes, conf) && i <= n <= |writes| && LiesAt(packet, at, EmittedFrom(writes, i, conf))
    requires at + WidthFrom(writes, i) == to + WidthFrom(writes, n)
    ensures LiesAt(packet, to, EmittedFrom(writes, n, conf))
    decreases n - i
  {
    if i < n {
      RestStep(writes, i, conf, packet, at);
      RestLies(writes, i + 1, n, conf, packet, at + WidthOf(writes[i]), to);
    }
  }

  /** Where the n-th write landed. */
  lemma {:induction false} PieceLies(writes: seq<Write>, n: nat, conf: Store, packet: seq<byte>, at: nat, offset: nat)
    requires AllReadable(writes, conf) && n < |writes| && LiesAt(packet, at, Emission(writes, conf))
    requires WidthFrom(writes, 0) == WidthFrom(writes, n) + offset
    ensures Readable(writes[n], conf) && LiesAt(packet, at + offset, Written(writes[n], conf))
  {
    RestLies(writes, 0, n, conf, packet, at, at + offset);
    EmittedStep(writes, n, conf, packet, at + offset);
  }

  lemma StyleExpected(conf: Store, packet: seq<byte>, at: nat)
    requires FrameGuard(Style, conf) && Writable(Style, conf, []) && LiesAt(packet, at, Body(Style, conf, []))
    ensures StyleReads(packet, at) == ExpectedReads(Style, conf)
  {
    var writes := WritesOf(Style, conf, []);
    EmittedStep(writes, 0, conf, packet, at);
    EmittedStep(writes, 1, conf, packet, at + 3);
    assert packet[at + 3..at + 4] == StyleOctet(conf);
    assert packet[at + 3] == StyleOctet(conf)[0];
  }

  lemma TspecExpected(conf: Store, packet: seq<byte>, at: nat)
    requires Writable(TokenSenderTspec, conf, []) && LiesAt(packet, at, Body(TokenSenderTspec, conf, []))
    ensures TspecReads(packet, at) == ExpectedReads(TokenSenderTspec, conf)
  {
    EmittedStep(WritesOf(TokenSenderTspec, conf, []), 0, conf, packet, at);
  }

  lemma EthernetExpected(conf: Store, packet: seq<byte>, at: nat)
    requires AllReadable(ETHERNET_WRITES, conf) && LiesAt(packet, at, Emission(ETHERNET_WRITES, conf))
    ensures EthernetReads(packet, at) == ETHERNET_READS
  {
    PieceLies(ETHERNET_WRITES, 1, conf, packet, at, 2);
    ProfileThere(packet, at + 2);
  }

  lemma ProfileThere(packet: seq<byte>, at: nat)
    requires LiesAt(packet, at, Net16(ETHERNET_MTU) + Net16(ETHERNET_PROFILE_TYPE) + Net16(ETHERNET_PROFILE_LENGTH))
    ensures Holds(packet, at + 2, Net16(ETHERNET_PROFILE_TYPE) + Net16(ETHERNET_PROFILE_LENGTH))
  {
    var a, b := Net16(ETHERNET_MTU), Net16(ETHERNET_PROFILE_TYPE) + Net16(ETHERNET_PROFILE_LENGTH);
    assert a + Net16(ETHERNET_PROFILE_TYPE) + Net16(ETHERNET_PROFILE_LENGTH) == a + b;
    PartsLie(packet, at, a, b);
  }

  lemma EthernetCase(c: ObjectClass, conf: Store, packet: seq<byte>, at: nat)
    requires c.EthernetSenderTspec? || c.EthernetFlowspec?
    requires Writable(c, conf, []) && LiesAt(packet, at, Body(c, conf, []))
    ensures EthernetReads(packet, at) == ExpectedReads(c, conf)
  {
    EthernetExpected(conf, packet, at);
  }

  lemma ControlledExpected(conf: Store, packet: seq<byte>, at: nat)
    requires !Guaranteed(conf) && Writable(TokenFlowspec, conf, []) && LiesAt(packet, at, Body(TokenFlowspec, conf, []))
    ensures FlowspecReads(packet, at) == ExpectedReads(TokenFlowspec, conf)
  {
    EmittedStep(WritesOf(TokenFlowspec, conf, []), 0, conf, packet, at);
  }

  lemma GuaranteedThere(writes: seq<Write>, conf: Store, packet: seq<byte>, at: nat)
    requires writes == [Lit(GUARANTEED_FLOWSPEC)] + TSPEC_PARAMETERS
      + [Lit(GUARANTEED_RSPEC), Put(FloatC, RC_RATE), Put(IntC, RC_SLACK_TERM)]
    requires AllReadable(writes, conf) && LiesAt(packet, at, Emission(writes, conf))
    ensures LiesAt(packet, at, GUARANTEED_FLOWSPEC) && LiesAt(packet, at + 32, GUARANTEED_RSPEC)
  {
    hide Emission, WidthFrom, LiesAt;
    GuaranteedOffset(writes);
    PieceLies(writes, 0, conf, packet, at, 0);
    PieceLies(writes, 6, conf, packet, at, 32);
  }

  lemma GuaranteedExpected(conf: Store, packet: seq<byte>, at: nat)
    requires Guaranteed(conf) && Writable(TokenFlowspec, conf, []) && LiesAt(packet, at, Body(TokenFlowspec, conf, []))
    ensures FlowspecReads(packet, at) == ExpectedReads(TokenFlowspec, conf)
  {
    hide Emission, AllReadable;
    GuaranteedThere(WritesOf(TokenFlowspec, conf, []), conf, packet, at);
    NotControlled(packet, at);
  }

  lemma GuaranteedOffset(writes: seq<Write>)
    requires |writes| > 6 && WidthOf(writes[0]) == 12
    requires WidthOf(writes[1]) == WidthOf(writes[2]) == WidthOf(writes[3]) == WidthOf(writes[4]) == WidthOf(writes[5])
      == 4
    ensures WidthFrom(writes, 0) == WidthFrom(writes, 6) + 32
  {
    ThreeWidths(writes, 0);
    ThreeWidths(writes, 3);
  }

  lemma NotControlled(packet: seq<byte>, at: nat)
    requires LiesAt(packet, at, GUARANTEED_FLOWSPEC)
    ensures !Holds(packet, at, CONTROLLED_LOAD_FLOWSPEC)
  {
    assert packet[at..at + 12][3] == 10;
  }

  lemma CallTypeExpected(writes: seq<Write>, conf: Store, packet: seq<byte>, at: nat)
    requires |writes| > 0 && writes[0] == Put(CharC, RC_CALL_ID_ADDR_TYPE)
    requires AllReadable(writes, conf) && |conf[RC_CALL_ID_ADDR_TYPE]| == 1
    requires LiesAt(packet, at, Emission(writes, conf))
    ensures Peek(packet, at) == 1 <==> conf[RC_CALL_ID_ADDR_TYPE] == [Char(1)]
  {
    EmittedStep(writes, 0, conf, packet, at);
    assert packet[at..at + 1] == [conf[RC_CALL_ID_ADDR_TYPE][0].c];
    assert packet[at] == packet[at..at + 1][0];
  }

  lemma CallId1Expected(conf: Store, packet: seq<byte>, at: nat)
    requires Writable(CallId1, conf, []) && RC_CALL_ID_ADDR_TYPE in conf && |conf[RC_CALL_ID_ADDR_TYPE]| == 1
    requires LiesAt(packet, at, Body(CallId1, conf, []))
    ensures CallId1Reads(packet, at, 16) == ExpectedReads(CallId1, conf)
  {
    CallTypeExpected(WritesOf(CallId1, conf, []), conf, packet, at);
  }

  lemma CallId2Expected(conf: Store, packet: seq<byte>, at: nat)
    requires Writable(CallId2, conf, []) && RC_CALL_ID_ADDR_TYPE in conf && |conf[RC_CALL_ID_ADDR_TYPE]| == 1
    requires LiesAt(packet, at, Body(CallId2, conf, []))
    ensures CallId2Reads(packet, at, 28) == ExpectedReads(CallId2, conf)
  {
    CallTypeExpected(WritesOf(CallId2, conf, []), conf, packet, at);
  }

  lemma LabelExpected(conf: Store, packet: seq<byte>, at: nat)
    requires Writable(GeneralizedLabel, conf, []) && LiesAt(packet, at, Body(GeneralizedLabel, conf, []))
    ensures LabelReads(packet, at, DeclaredSize(GeneralizedLabel, conf, [])) == ExpectedReads(GeneralizedLabel, conf)
  {
    EmittedStep(WritesOf(GeneralizedLabel, conf, []), 0, conf, packet, at);
  }

  lemma {:induction false} CStringWhole(text: CString)
    ensures CStringOf(text) == text
  {
    if text != [] {
      CStringWhole(text[1..]);
      assert text == [text[0]] + text[1..];
    }
  }

  lemma FlagBits(a: bool, b: bool, d: bool)
    ensures var flags := (if a then 1 else 0) + (if b then 2 else 0) + (if d then 4 else 0);
      (flags % 2 == 1 <==> a) && (flags / 2 % 2 == 1 <==> b) && (flags / 4 % 2 == 1 <==> d)
  {
  }

  lemma SessionPieces(conf: Store, packet: seq<byte>, at: nat)
    requires Writable(SessionAttribute, conf, []) && LiesAt(packet, at, Body(SessionAttribute, conf, []))
    ensures LiesAt(packet, at + 2, [SessionFlags(conf)])
    ensures var name := conf[RC_SESSION_NAME][0].text;
      LiesAt(packet, at + 3, [|name| % 0x100]) && LiesAt(packet, at + 4, name[..|name| % 0x100])
  {
    var writes := WritesOf(SessionAttribute, conf, []);
    SessionOffsets(writes);
    PieceLies(writes, 2, conf, packet, at, 2);
    PieceLies(writes, 5, conf, packet, at, 3);
    PieceLies(writes, 6, conf, packet, at, 4);
  }

  lemma SessionOffsets(writes: seq<Write>)
    requires |writes| > 6 && WidthOf(writes[0]) == WidthOf(writes[1]) == WidthOf(writes[2]) == WidthOf(writes[5]) == 1
    requires WidthOf(writes[3]) == WidthOf(writes[4]) == 0
    ensures WidthFrom(writes, 0) == WidthFrom(writes, 2) + 2 == WidthFrom(writes, 5) + 3 == WidthFrom(writes, 6) + 4
  {
    ThreeWidths(writes, 0);
    ThreeWidths(writes, 3);
  }

  lemma OctetThere(packet: seq<byte>, at: nat, octet: byte)
    requires LiesAt(packet, at, [octet])
    ensures Peek(packet, at) == octet
  {
    assert packet[at] == packet[at..at + 1][0];
  }

  lemma SessionExpected(conf: Store, packet: seq<byte>, at: nat)
    requires Writable(SessionAttribute, conf, []) && LiesAt(packet, at, Body(SessionAttribute, conf, []))
    ensures SessionAttributeReads(packet, at) == ExpectedReads(SessionAttribute, conf)
  {
    SessionPieces(conf, packet, at);
    SessionRead(conf, packet, at);
  }

  lemma SessionRead(conf: Store, packet: seq<byte>, at: nat)
    requires Inspectable(SessionAttribute, conf) && LiesAt(packet, at + 2, [SessionFlags(conf)])
    requires var name := conf[RC_SESSION_NAME][0].text;
      LiesAt(packet, at + 3, [|name| % 0x100]) && LiesAt(packet, at + 4, name[..|name| % 0x100])
    ensures SessionAttributeReads(packet, at) == ExpectedReads(SessionAttribute, conf)
  {
    var name := conf[RC_SESSION_NAME][0].text;
    OctetThere(packet, at + 2, SessionFlags(conf));
    OctetThere(packet, at + 3, |name| % 0x100);
    NameThere(packet, at + 4, |name| % 0x100, name[..|name| % 0x100]);
    FlagsThere(conf, SessionFlags(conf));
    SessionReadsAs(conf, packet, at, SessionFlags(conf), |name| % 0x100);
  }

  lemma SessionReadsAs(conf: Store, packet: seq<byte>, at: nat, flags: byte, shown: byte)
    requires Inspectable(SessionAttribute, conf) && Peek(packet, at + 2) == flags && Peek(packet, at + 3) == shown
    requires shown == |conf[RC_SESSION_NAME][0].text| % 0x100 && at + 4 + shown <= |packet|
    requires CStringOf(packet[at + 4..at + 4 + shown]) == conf[RC_SESSION_NAME][0].text[..shown]
    requires flags % 2 == 1 <==> conf[RC_LOCAL_PROTECTION_FLAG][0].c != 0
    requires flags / 2 % 2 == 1 <==> conf[RC_LABEL_RECORDING_FLAG][0].c != 0
    requires flags / 4 % 2 == 1 <==> conf[RC_SE_STYLE_FLAG][0].c != 0
    ensures SessionAttributeReads(packet, at) == ExpectedReads(SessionAttribute, conf)
  {
    hide CStringOf, Peek, ReadsOf;
  }

  lemma NameThere(packet: seq<byte>, at: nat, shown: nat, name: CString)
    requires LiesAt(packet, at, name) && |name| == shown
    ensures at + shown <= |packet| && CStringOf(packet[at..at + shown]) == name
  {
    CStringWhole(name);
  }

  lemma FlagsThere(conf: Store, flags: byte)
    requires Inspectable(SessionAttribute, conf) && flags == SessionFlags(conf)
    ensures flags % 2 == 1 <==> conf[RC_LOCAL_PROTECTION_FLAG][0].c != 0
    ensures flags / 2 % 2 == 1 <==> conf[RC_LABEL_RECORDING_FLAG][0].c != 0
    ensures flags / 4 % 2 == 1 <==> conf[RC_SE_STYLE_FLAG][0].c != 0
  {
    FlagBits(conf[RC_LOCAL_PROTECTION_FLAG][0].c != 0, conf[RC_LABEL_RECORDING_FLAG][0].c != 0,
      conf[RC_SE_STYLE_FLAG][0].c != 0);
  }

  predicate Peeked(c: ObjectClass) {
    c in {Style, SessionAttribute, TokenSenderTspec, TokenFlowspec, EthernetSenderTspec, EthernetFlowspec, CallId1,
      CallId2,
          GeneralizedLabel, Ipv4IfIdRsvpHop}
  }

  lemma PlainExpected(c: ObjectClass, conf: Store, packet: seq<byte>, at: nat, size: int)
    requires Straight(c) && !Peeked(c) && Inspectable(c, conf)
    ensures ReadsOf(NumbersOf(c).cnum, NumbersOf(c).ctnum, packet, at, size) == ExpectedReads(c, conf)
  {
  }

  /** The parser meets what the writer left, and makes the reads that go with it. */
  lemma ReadsExpected(c: ObjectClass, conf: Store, list: seq<ObjectClass>, packet: seq<byte>, at: nat)
    requires Straight(c) && !c.Ipv4IfIdRsvpHop? && FrameGuard(c, conf) && Writable(c, conf, list)
    requires LiesAt(packet, at, Body(c, conf, list))
    requires RC_CALL_ID_ADDR_TYPE in conf ==> |conf[RC_CALL_ID_ADDR_TYPE]| == 1
    ensures ReadsOf(NumbersOf(c).cnum, NumbersOf(c).ctnum, packet, at, DeclaredSize(c, conf, list))
      == ExpectedReads(c, conf)
  {
    if Peeked(c) {
      ListUnused(c, conf, list);
      PeekedExpected(c, conf, packet, at);
    } else {
      PlainExpected(c, conf, packet, at, DeclaredSize(c, conf, list));
    }
  }

  lemma {:induction false} PeekedExpected(c: ObjectClass, conf: Store, packet: seq<byte>, at: nat)
    requires Peeked(c) && !c.Ipv4IfIdRsvpHop? && FrameGuard(c, conf) && Writable(c, conf, [])
    requires LiesAt(packet, at, Body(c, conf, []))
    requires RC_CALL_ID_ADDR_TYPE in conf ==> |conf[RC_CALL_ID_ADDR_TYPE]| == 1
    ensures ReadsOf(NumbersOf(c).cnum, NumbersOf(c).ctnum, packet, at, DeclaredSize(c, conf, []))
      == ExpectedReads(c, conf)
  {
    hide ExpectedReads, WritesOf, DeclaredSize, Writable, FrameGuard;
    match c
    case Style => StyleExpected(conf, packet, at);
    case SessionAttribute => SessionExpected(conf, packet, at);
    case TokenSenderTspec => TspecExpected(conf, packet, at);
    case TokenFlowspec => FlowspecExpected(conf, packet, at);
    case EthernetSenderTspec => EthernetCase(c, conf, packet, at);
    case EthernetFlowspec => EthernetCase(c, conf, packet, at);
    case _ => SizedExpected(c, conf, packet, at);
  }

  lemma {:induction false} SizedExpected(c: ObjectClass, conf: Store, packet: seq<byte>, at: nat)
    requires c in {CallId1, CallId2, GeneralizedLabel}
    requires Writable(c, conf, []) && LiesAt(packet, at, Body(c, conf, []))
    requires RC_CALL_ID_ADDR_TYPE in conf ==> |conf[RC_CALL_ID_ADDR_TYPE]| == 1
    ensures ReadsOf(NumbersOf(c).cnum, NumbersOf(c).ctnum, packet, at, DeclaredSize(c, conf, []))
      == ExpectedReads(c, conf)
  {
    match c
    case CallId1 => CallId1Expected(conf, packet, at);
    case CallId2 => CallId2Expected(conf, packet, at);
    case _ => LabelExpected(conf, packet, at);
  }

  lemma ListUnused(c: ObjectClass, conf: Store, list: seq<ObjectClass>)
    requires !c.GeneralizedUni? && Inspectable(c, conf)
    ensures WritesOf(c, conf, list) == WritesOf(c, conf, []) && DeclaredSize(c, conf, list) == DeclaredSize(c, conf, [])
  {
  }

  lemma FlowspecExpected(conf: Store, packet: seq<byte>, at: nat)
    requires Writable(TokenFlowspec, conf, []) && LiesAt(packet, at, Body(TokenFlowspec, conf, []))
    ensures FlowspecReads(packet, at) == ExpectedReads(TokenFlowspec, conf)
  {
    if Guaranteed(conf) { GuaranteedExpected(conf, packet, at); } else { ControlledExpected(conf, packet, at); }
  }

  lemma Corresponds(c: ObjectClass, conf: Store, list: seq<ObjectClass>)
    requires Straight(c) && Inspectable(c, conf) && FrameGuard(c, conf)
    ensures Aligned(WritesOf(c, conf, list), ExpectedReads(c, conf))
    ensures WellTyped(ExpectedReads(c, conf))
  {
    if PartOf(c).Heading? {
      HeadingAligned(c, conf, list);
      HeadingTyped(c, conf);
      HeadingDistinct(c, conf);
    } else if PartOf(c).Request? {
      RequestAligned(c, conf, list);
      RequestTyped(c, conf);
      RequestDistinct(c, conf);
    } else if PartOf(c).Sender? {
      SenderAligned(c, conf, list);
      SenderTyped(c, conf);
      SenderDistinct(c, conf);
    } else {
      ReservationAligned(c, conf, list);
      ReservationTyped(c, conf);
      ReservationDistinct(c, conf);
    }
  }
}
