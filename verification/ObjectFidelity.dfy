/** When what comes back is what was sent: for each object, the exact condition under which every parameter its writer
    reads is recovered unchanged. */
module ObjectFidelity {
  import opened Bytes
  import opened Binary32
  import opened Parameters
  import opened Configuration
  import opened WireFormats
  import opened ObjectList
  import opened ObjectFormats
  import opened ObjectRoundTrips
  import opened ObjectRecovery

  const FLAGS: set<Param> := {
    RC_LOCAL_PROTECTION_FLAG, RC_LABEL_RECORDING_FLAG, RC_SE_STYLE_FLAG,
    RC_WILDCARD_FILTER, RC_FIXED_FILTER, RC_SHARED_EXPLICIT
  }

  /** The value of a parameter; a flag that is absent means 0. */
  function Meaning(m: Store, p: Param): seq<Value> {
    if p in m then m[p] else if p in FLAGS then [Char(0)] else []
  }

  /** Parameters a writer consults other than by appending one value. */
  function Consulted(c: ObjectClass): set<Param> {
    match c
    case SessionAttribute => {RC_LOCAL_PROTECTION_FLAG, RC_LABEL_RECORDING_FLAG, RC_SE_STYLE_FLAG, RC_SESSION_NAME}
    case Style => {RC_WILDCARD_FILTER, RC_FIXED_FILTER, RC_SHARED_EXPLICIT}
    case Ipv4IfIdRsvpHop => {RC_CONTROL_OUT_IF_HANDLE}
    case GeneralizedLabel => {RC_LABEL}
    case Ero => {RC_ERO}
    case _ => {}
  }

  predicate SameMeaning(a: Store, b: Store, p: Param) {
    Meaning(a, p) == Meaning(b, p)
  }

  predicate PutsKept(writes: seq<Write>, recovered: Store, conf: Store) {
    forall j :: 0 <= j < |writes| && writes[j].Put? ==> SameMeaning(recovered, conf, writes[j].p)
  }

  /** Every parameter the object was written from comes back unchanged. */
  predicate Kept(c: ObjectClass, conf: Store, list: seq<ObjectClass>)
    requires Writable(c, conf, list) && FrameGuard(c, conf)
  {
    && PutsKept(WritesOf(c, conf, list), Recovered(c, conf, list), conf)
    && forall p :: p in Consulted(c) ==> SameMeaning(Recovered(c, conf, list), conf, p)
  }

  predicate IsFlag(conf: Store, p: Param) {
    Meaning(conf, p) == [Char(0)] || Meaning(conf, p) == [Char(1)]
  }

  function IntAt(conf: Store, p: Param): u32 {
    if p in conf && conf[p] != [] && conf[p][0].Int? then conf[p][0].i else 0
  }

  function ShortAt(conf: Store, p: Param): u16 {
    if p in conf && conf[p] != [] && conf[p][0].Short? then conf[p][0].s else 0
  }

  function CharAt(conf: Store, p: Param): byte {
    if p in conf && conf[p] != [] && conf[p][0].Char? then conf[p][0].c else 0
  }

  /** The rates and sizes an object is written from. */
  function Rates(c: ObjectClass, conf: Store): set<Param> {
    match c
    case TokenSenderTspec => {RC_TOKEN_BUCKET_RATE, RC_TOKEN_BUCKET_SIZE, RC_PEAK_DATA_RATE}
    case TokenFlowspec =>
      {RC_TOKEN_BUCKET_RATE, RC_TOKEN_BUCKET_SIZE, RC_PEAK_DATA_RATE} + if Guaranteed(conf) then {RC_RATE} else {}
    case EthernetSenderTspec => {RC_ETHERNET_CIR, RC_ETHERNET_CBS, RC_ETHERNET_EIR, RC_ETHERNET_EBS}
    case EthernetFlowspec => {RC_ETHERNET_CIR, RC_ETHERNET_CBS, RC_ETHERNET_EIR, RC_ETHERNET_EBS}
    case _ => {}
  }

  /** Minus infinity goes out as plus infinity. */
  predicate NotMinusInfinity(conf: Store, p: Param) {
    p in conf && conf[p] != [] ==> conf[p][0] != Real(Infinity(true))
  }

  predicate NoMinusInfinity(conf: Store, rates: set<Param>) {
    forall p :: p in rates ==> NotMinusInfinity(conf, p)
  }

  /** What the caller has to respect. RESTART_CAP never comes back: its parser files the restart time as the recovery
      time. */
  predicate Intact(c: ObjectClass, conf: Store) {
    match c
    case MessageId => IntAt(conf, RC_MSG_ID_EPOCH) < 0x100_0000
    case MessageIdAck => IntAt(conf, RC_MSG_ID_EPOCH) < 0x100_0000
    case MessageIdNack => IntAt(conf, RC_MSG_ID_EPOCH) < 0x100_0000
    case RestartCap => false
    case Ipv4IfIdRsvpHop => Meaning(conf, RC_CONTROL_OUT_IF_HANDLE) == [Int(0)]
    case NotifyRequest => Host32(IntAt(conf, RC_NOTIFY_ADDRESS)) == Net32(IntAt(conf, RC_NOTIFY_ADDRESS))
    case CallId1 => Meaning(conf, RC_CALL_ID_ADDR_TYPE) == [Char(1)]
    case CallId2 => Meaning(conf, RC_CALL_ID_ADDR_TYPE) == [Char(1)] && IntAt(conf, RC_CALL_ID_IS) < 0x100_0000
    case AdminStatus => CharAt(conf, RC_ADMIN_STATUS_RTAD_FLAGS) < 16
    case EthernetSenderTspec => FitsSignedChar(ShortAt(conf, RC_ETHERNET_SW_GRANUALITY))
      && NoMinusInfinity(conf, Rates(c, conf))
    case EthernetFlowspec => FitsSignedChar(ShortAt(conf, RC_ETHERNET_SW_GRANUALITY))
      && NoMinusInfinity(conf, Rates(c, conf))
    case TokenSenderTspec => NoMinusInfinity(conf, Rates(c, conf))
    case TokenFlowspec => NoMinusInfinity(conf, Rates(c, conf))
    case Style =>
      Meaning(conf, RC_SHARED_EXPLICIT) == [Char(0)] && IsFlag(conf, RC_WILDCARD_FILTER)
        && IsFlag(conf, RC_FIXED_FILTER)
      && Meaning(conf, RC_WILDCARD_FILTER) != Meaning(conf, RC_FIXED_FILTER)
    case SessionAttribute =>
      HasText(conf, RC_SESSION_NAME) && |conf[RC_SESSION_NAME][0].text| < 0x100
        && IsFlag(conf, RC_LOCAL_PROTECTION_FLAG)
      && IsFlag(conf, RC_LABEL_RECORDING_FLAG) && IsFlag(conf, RC_SE_STYLE_FLAG)
    case GeneralizedLabel => HasBlock(conf, RC_LABEL) && |conf[RC_LABEL][0].bytes| % 4 == 0
    case Ero => HopsStored(conf) && forall i :: 0 <= i < |conf[RC_ERO]| ==> HopExact(conf[RC_ERO][i])
    case _ => true
  }

  predicate FitsSignedChar(s: u16) {
    s < 0x80 || s >= 0xFF80
  }

  predicate HopExact(hop: Value)
    requires hop.Block? && |hop.bytes| == ERO_SIZE
  {
    hop.bytes[5] <= 1 && hop.bytes[6] == hop.bytes[7] == 0
  }

  // ---- Writers whose readers mirror them

  /** The layout returns the value it was given. */
  predicate Survives(w: Codec, v: Value)
    requires KindOf(v) == KindFor(w)
  {
    match w
    case Low24C => v.i < 0x100_0000
    case SignedCharC => FitsSignedChar(v.s)
    case StatusC => v.c < 16
    case FloatC => v.f != Infinity(true)
    case _ => true
  }

  predicate AllSurvive(writes: seq<Write>, conf: Store)
    requires AllReadable(writes, conf)
  {
    forall j :: 0 <= j < |writes| && writes[j].Put? ==> PutSurvives(writes[j], conf)
  }

  predicate PutSurvives(w: Write, conf: Store)
    requires w.Put? && Readable(w, conf)
  {
    Survives(w.w, conf[w.p][0])
  }

  predicate Mirrored(writes: seq<Write>, gets: seq<Read>) {
    forall j :: 0 <= j < |writes| && writes[j].Put? ==> j < |gets| && gets[j] == Get(writes[j].w, writes[j].p)
  }

  lemma SurvivesExactly(w: Codec, v: Value)
    requires KindOf(v) == KindFor(w) && Encodable(v)
    ensures Wired(w, w, v) == v <==> Survives(w, v)
  {
    hide Wired;
    WiredValue(w, v);
  }

  lemma {:induction false} PutKept(writes: seq<Write>, gets: seq<Read>, conf: Store, j: nat)
    requires Aligned(writes, gets) && AllReadable(writes, conf) && WellTyped(gets) && Mirrored(writes, gets)
    requires StoreTyped(conf)
    requires j < |writes| && writes[j].Put?
    ensures SameMeaning(RecoveredFrom(writes, gets, 0, conf), conf, writes[j].p) <==> PutSurvives(writes[j], conf)
  {
    assert gets[j] == Get(writes[j].w, writes[j].p);
    RecoveredAt(writes, gets, 0, conf, j);
    assert Readable(writes[j], conf) && Shaped(conf[writes[j].p], TypeOf(writes[j].p));
    SurvivesExactly(writes[j].w, conf[writes[j].p][0]);
    assert conf[writes[j].p] == [conf[writes[j].p][0]];
  }

  lemma PutsKeptExactly(writes: seq<Write>, gets: seq<Read>, conf: Store)
    requires Aligned(writes, gets) && AllReadable(writes, conf) && WellTyped(gets) && Mirrored(writes, gets)
    requires StoreTyped(conf)
    ensures PutsKept(writes, RecoveredFrom(writes, gets, 0, conf), conf) <==> AllSurvive(writes, conf)
  {
    forall j | 0 <= j < |writes| && writes[j].Put?
      ensures SameMeaning(RecoveredFrom(writes, gets, 0, conf), conf, writes[j].p) <==> PutSurvives(writes[j], conf)
    {
      PutKept(writes, gets, conf, j);
    }
  }

  predicate Mirrors(c: ObjectClass, conf: Store) {
    Straight(c) && !c.RestartCap? && !c.NotifyRequest?
    && (c.CallId1? || c.CallId2? ==> RC_CALL_ID_ADDR_TYPE in conf && conf[RC_CALL_ID_ADDR_TYPE] == [Char(1)])
  }

  lemma HeadingMirrored(c: ObjectClass, conf: Store, list: seq<ObjectClass>)
    requires PartOf(c).Heading? && Mirrors(c, conf) && Inspectable(c, conf) && FrameGuard(c, conf)
    ensures Mirrored(WritesOf(c, conf, list), ExpectedReads(c, conf))
  {
  }

  lemma RequestMirrored(c: ObjectClass, conf: Store, list: seq<ObjectClass>)
    requires PartOf(c).Request? && Mirrors(c, conf) && Inspectable(c, conf) && FrameGuard(c, conf)
    ensures Mirrored(WritesOf(c, conf, list), ExpectedReads(c, conf))
  {
  }

  lemma SenderMirrored(c: ObjectClass, conf: Store, list: seq<ObjectClass>)
    requires PartOf(c).Sender? && Mirrors(c, conf) && Inspectable(c, conf) && FrameGuard(c, conf)
    ensures Mirrored(WritesOf(c, conf, list), ExpectedReads(c, conf))
  {
  }

  lemma ReservationMirrored(c: ObjectClass, conf: Store, list: seq<ObjectClass>)
    requires PartOf(c).Reservation? && Mirrors(c, conf) && Inspectable(c, conf) && FrameGuard(c, conf)
    ensures Mirrored(WritesOf(c, conf, list), ExpectedReads(c, conf))
  {
  }

  lemma MirroredClass(c: ObjectClass, conf: Store, list: seq<ObjectClass>)
    requires Mirrors(c, conf) && Inspectable(c, conf) && FrameGuard(c, conf)
    ensures Mirrored(WritesOf(c, conf, list), ExpectedReads(c, conf))
  {
    if PartOf(c).Heading? {
      HeadingMirrored(c, conf, list);
    } else if PartOf(c).Request? {
      RequestMirrored(c, conf, list);
    } else if PartOf(c).Sender? {
      SenderMirrored(c, conf, list);
    } else {
      ReservationMirrored(c, conf, list);
    }
  }

  predicate Lossy(w: Codec) {
    w.Low24C? || w.SignedCharC? || w.StatusC?
  }

  /** But for floats, only the k-th write can lose anything. */
  predicate LossyOnlyAt(writes: seq<Write>, k: nat) {
    forall j :: 0 <= j < |writes| && j != k && writes[j].Put? ==> !Lossy(writes[j].w)
  }

  /** The writes of floats are those of the rates. */
  ghost predicate FloatsAre(writes: seq<Write>, rates: set<Param>) {
    && (forall j :: 0 <= j < |writes| && writes[j].Put? && writes[j].w.FloatC? ==> writes[j].p in rates)
    && forall p :: p in rates ==> exists j :: 0 <= j < |writes| && writes[j] == Put(FloatC, p)
  }

  lemma FloatSurvives(writes: seq<Write>, j: nat, conf: Store)
    requires AllReadable(writes, conf) && j < |writes| && writes[j].Put? && writes[j].w.FloatC?
    ensures PutSurvives(writes[j], conf) <==> NotMinusInfinity(conf, writes[j].p)
  {
    assert Readable(writes[j], conf);
  }

  lemma OneSurvives(writes: seq<Write>, k: nat, rates: set<Param>, conf: Store)
    requires AllReadable(writes, conf) && LossyOnlyAt(writes, k) && FloatsAre(writes, rates)
    ensures AllSurvive(writes, conf)
      <==> (k < |writes| && writes[k].Put? ==> PutSurvives(writes[k], conf)) && NoMinusInfinity(conf, rates)
  {
    forall j | 0 <= j < |writes| && writes[j].Put? && writes[j].w.FloatC?
      ensures PutSurvives(writes[j], conf) <==> NotMinusInfinity(conf, writes[j].p)
    {
      FloatSurvives(writes, j, conf);
    }
    if AllSurvive(writes, conf) {
      forall p | p in rates
        ensures NotMinusInfinity(conf, p)
      {
        var j :| 0 <= j < |writes| && writes[j] == Put(FloatC, p);
        assert PutSurvives(writes[j], conf);
      }
    }
  }

  predicate HasRates(c: ObjectClass) {
    c in {TokenSenderTspec, TokenFlowspec, EthernetSenderTspec, EthernetFlowspec}
  }

  predicate NoFloats(writes: seq<Write>) {
    forall j :: 0 <= j < |writes| && writes[j].Put? ==> !writes[j].w.FloatC?
  }

  lemma HeadingFloatless(c: ObjectClass, conf: Store, list: seq<ObjectClass>)
    requires PartOf(c).Heading? && Straight(c) && Inspectable(c, conf)
    ensures NoFloats(WritesOf(c, conf, list))
  {
  }

  lemma RequestFloatless(c: ObjectClass, conf: Store, list: seq<ObjectClass>)
    requires PartOf(c).Request? && Straight(c) && Inspectable(c, conf)
    ensures NoFloats(WritesOf(c, conf, list))
  {
  }

  lemma SenderFloatless(c: ObjectClass, conf: Store, list: seq<ObjectClass>)
    requires PartOf(c).Sender? && Straight(c) && !HasRates(c) && Inspectable(c, conf)
    ensures NoFloats(WritesOf(c, conf, list))
  {
  }

  lemma ReservationFloatless(c: ObjectClass, conf: Store, list: seq<ObjectClass>)
    requires PartOf(c).Reservation? && Straight(c) && !HasRates(c) && Inspectable(c, conf)
    ensures NoFloats(WritesOf(c, conf, list))
  {
  }

  lemma Floatless(c: ObjectClass, conf: Store, list: seq<ObjectClass>)
    requires Straight(c) && !HasRates(c) && Inspectable(c, conf)
    ensures NoFloats(WritesOf(c, conf, list))
  {
    match PartOf(c) {
      case Heading => HeadingFloatless(c, conf, list);
      case Request => RequestFloatless(c, conf, list);
      case Sender => SenderFloatless(c, conf, list);
      case Reservation => ReservationFloatless(c, conf, list);
    }
  }

  lemma EthernetFloats()
    ensures FloatsAre(ETHERNET_WRITES, {RC_ETHERNET_CIR, RC_ETHERNET_CBS, RC_ETHERNET_EIR, RC_ETHERNET_EBS})
  {
    var writes := ETHERNET_WRITES;
    assert writes[5] == Put(FloatC, RC_ETHERNET_CIR) && writes[6] == Put(FloatC, RC_ETHERNET_CBS);
    assert writes[7] == Put(FloatC, RC_ETHERNET_EIR) && writes[8] == Put(FloatC, RC_ETHERNET_EBS);
  }

  lemma TokenFloats(c: ObjectClass, conf: Store, list: seq<ObjectClass>)
    requires c in {TokenSenderTspec, TokenFlowspec}
    ensures FloatsAre(WritesOf(c, conf, list), Rates(c, conf))
  {
    var writes := WritesOf(c, conf, list);
    assert writes[1] == Put(FloatC, RC_TOKEN_BUCKET_RATE) && writes[2] == Put(FloatC, RC_TOKEN_BUCKET_SIZE);
    assert writes[3] == Put(FloatC, RC_PEAK_DATA_RATE);
    if c.TokenFlowspec? && Guaranteed(conf) { assert writes[7] == Put(FloatC, RC_RATE); }
  }

  lemma FloatsOf(c: ObjectClass, conf: Store, list: seq<ObjectClass>)
    requires Straight(c) && Inspectable(c, conf)
    ensures FloatsAre(WritesOf(c, conf, list), Rates(c, conf))
  {
    if c in {EthernetSenderTspec, EthernetFlowspec} {
      EthernetFloats();
    } else if HasRates(c) {
      TokenFloats(c, conf, list);
    } else {
      Floatless(c, conf, list);
    }
  }

  function LossyIndex(c: ObjectClass): nat {
    if c in {MessageId, MessageIdAck, MessageIdNack, CallId2} then 1 else 0
  }

  lemma HeadingLossyAt(c: ObjectClass, conf: Store, list: seq<ObjectClass>)
    requires PartOf(c).Heading? && Straight(c) && Inspectable(c, conf)
    ensures LossyOnlyAt(WritesOf(c, conf, list), LossyIndex(c))
  {
  }

  lemma RequestLossyAt(c: ObjectClass, conf: Store, list: seq<ObjectClass>)
    requires PartOf(c).Request? && Straight(c) && Inspectable(c, conf)
    ensures LossyOnlyAt(WritesOf(c, conf, list), LossyIndex(c))
  {
  }

  lemma SenderLossyAt(c: ObjectClass, conf: Store, list: seq<ObjectClass>)
    requires PartOf(c).Sender? && Straight(c) && Inspectable(c, conf)
    ensures LossyOnlyAt(WritesOf(c, conf, list), LossyIndex(c))
  {
  }

  lemma ReservationLossyAt(c: ObjectClass, conf: Store, list: seq<ObjectClass>)
    requires PartOf(c).Reservation? && Straight(c) && Inspectable(c, conf)
    ensures LossyOnlyAt(WritesOf(c, conf, list), LossyIndex(c))
  {
  }

  /** The part of `Intact` that is about values too wide for their layout. */
  predicate Narrow(c: ObjectClass, conf: Store, list: seq<ObjectClass>)
    requires Inspectable(c, conf) && AllReadable(WritesOf(c, conf, list), conf)
  {
    var writes, k := WritesOf(c, conf, list), LossyIndex(c);
    (k < |writes| && writes[k].Put? ==> PutSurvives(writes[k], conf)) && NoMinusInfinity(conf, Rates(c, conf))
  }

  lemma StraightPuts(c: ObjectClass, conf: Store, list: seq<ObjectClass>)
    requires Mirrors(c, conf) && Writable(c, conf, list) && FrameGuard(c, conf) && StoreTyped(conf)
    ensures PutsKept(WritesOf(c, conf, list), Recovered(c, conf, list), conf) <==> Narrow(c, conf, list)
  {
    Corresponds(c, conf, list);
    MirroredClass(c, conf, list);
    PutsKeptExactly(WritesOf(c, conf, list), ExpectedReads(c, conf), conf);
    LossyAt(c, conf, list);
    FloatsOf(c, conf, list);
    OneSurvives(WritesOf(c, conf, list), LossyIndex(c), Rates(c, conf), conf);
  }

  lemma LossyAt(c: ObjectClass, conf: Store, list: seq<ObjectClass>)
    requires Straight(c) && Inspectable(c, conf)
    ensures LossyOnlyAt(WritesOf(c, conf, list), LossyIndex(c))
  {
    if PartOf(c).Heading? {
      HeadingLossyAt(c, conf, list);
    } else if PartOf(c).Request? {
      RequestLossyAt(c, conf, list);
    } else if PartOf(c).Sender? {
      SenderLossyAt(c, conf, list);
    } else {
      ReservationLossyAt(c, conf, list);
    }
  }

  // ---- Class by class

  predicate Plain(c: ObjectClass) {
    Straight(c) && Consulted(c) == {} && !c.RestartCap? && !c.NotifyRequest? && !c.CallId1? && !c.CallId2?
  }

  lemma WritesFirst(c: ObjectClass, conf: Store, list: seq<ObjectClass>, k: nat, w: Codec, p: Param)
    requires Writable(c, conf, list) && k < |WritesOf(c, conf, list)| && WritesOf(c, conf, list)[k] == Put(w, p)
    ensures p in conf && conf[p] != [] && KindOf(conf[p][0]) == KindFor(w)
  {
    assert Readable(WritesOf(c, conf, list)[k], conf);
  }

  lemma NarrowExactly(c: ObjectClass, conf: Store, list: seq<ObjectClass>)
    requires Plain(c) && Writable(c, conf, list) && StoreTyped(conf)
    ensures Narrow(c, conf, list) <==> Intact(c, conf)
  {
    if c in {MessageId, MessageIdAck, MessageIdNack} {
      WritesFirst(c, conf, list, 1, Low24C, RC_MSG_ID_EPOCH);
    } else if c.AdminStatus? {
      WritesFirst(c, conf, list, 0, StatusC, RC_ADMIN_STATUS_RTAD_FLAGS);
    } else if c in {EthernetSenderTspec, EthernetFlowspec} {
      WritesFirst(c, conf, list, 0, SignedCharC, RC_ETHERNET_SW_GRANUALITY);
    } else {
      NotLossy(c, conf, list);
    }
  }

  lemma NotLossy(c: ObjectClass, conf: Store, list: seq<ObjectClass>)
    requires Plain(c) && Writable(c, conf, list)
    requires c !in {MessageId, MessageIdAck, MessageIdNack, AdminStatus, EthernetSenderTspec, EthernetFlowspec}
    ensures Narrow(c, conf, list) <==> NoMinusInfinity(conf, Rates(c, conf))
  {
  }

  lemma PlainFidelity(c: ObjectClass, conf: Store, list: seq<ObjectClass>)
    requires Plain(c) && Writable(c, conf, list) && FrameGuard(c, conf) && StoreTyped(conf)
    ensures Kept(c, conf, list) <==> Intact(c, conf)
  {
    NarrowExactly(c, conf, list);
    StraightPuts(c, conf, list);
  }

  /** A parameter that no read fills does not come back. */
  lemma PutLost(writes: seq<Write>, gets: seq<Read>, conf: Store, k: nat)
    requires Aligned(writes, gets) && AllReadable(writes, conf) && k < |writes| && writes[k].Put?
    requires writes[k].p !in FLAGS && forall j :: 0 <= j < |gets| && !gets[j].Skip? ==> gets[j].p != writes[k].p
    ensures !PutsKept(writes, RecoveredFrom(writes, gets, 0, conf), conf)
  {
    RecoveredKeys(writes, gets, 0, conf, writes[k].p);
    assert Readable(writes[k], conf);
    assert !SameMeaning(RecoveredFrom(writes, gets, 0, conf), conf, writes[k].p);
  }

  lemma RestartFidelity(conf: Store, list: seq<ObjectClass>)
    requires Writable(RestartCap, conf, list) && StoreTyped(conf)
    ensures !Kept(RestartCap, conf, list)
  {
    hide AllReadable, Aligned, WellTyped, StoreTyped, RecoveredFrom, PutsKept;
    Corresponds(RestartCap, conf, list);
    PutLost(WritesOf(RestartCap, conf, list), ExpectedReads(RestartCap, conf), conf, 0);
  }

  lemma NotifyFidelity(conf: Store, list: seq<ObjectClass>)
    requires Writable(NotifyRequest, conf, list) && StoreTyped(conf)
    ensures Kept(NotifyRequest, conf, list) <==> Intact(NotifyRequest, conf)
  {
    var writes, gets := WritesOf(NotifyRequest, conf, list), ExpectedReads(NotifyRequest, conf);
    Corresponds(NotifyRequest, conf, list);
    RecoveredAt(writes, gets, 0, conf, 0);
    WritesFirst(NotifyRequest, conf, list, 0, AddrC, RC_NOTIFY_ADDRESS);
    SwapFixedPoints(conf[RC_NOTIFY_ADDRESS][0].i);
    assert conf[RC_NOTIFY_ADDRESS] == [conf[RC_NOTIFY_ADDRESS][0]];
    assert SameMeaning(Recovered(NotifyRequest, conf, list), conf, RC_NOTIFY_ADDRESS)
      <==> Swap32(conf[RC_NOTIFY_ADDRESS][0].i) == conf[RC_NOTIFY_ADDRESS][0].i;
    assert PutsKept(writes, Recovered(NotifyRequest, conf, list), conf)
      <==> SameMeaning(Recovered(NotifyRequest, conf, list), conf, writes[0].p);
  }

  lemma CallAddressLost(c: ObjectClass, conf: Store, list: seq<ObjectClass>, k: nat)
    requires (c, k) in {(CallId1, 2), (CallId2, 6)}
    requires Writable(c, conf, list) && StoreTyped(conf) && CallAddressRead(conf).Skip?
    ensures !Kept(c, conf, list)
  {
    hide AllReadable, Aligned, WellTyped, StoreTyped, RecoveredFrom, PutsKept, CallAddressRead, ReadsOf;
    Corresponds(c, conf, list);
    PutLost(WritesOf(c, conf, list), ExpectedReads(c, conf), conf, k);
  }

  lemma ShortCallKept(conf: Store, list: seq<ObjectClass>)
    requires Writable(CallId1, conf, list) && StoreTyped(conf) && CallAddressRead(conf).Get?
    ensures Kept(CallId1, conf, list)
  {
    StraightPuts(CallId1, conf, list);
  }

  lemma LongCallNarrow(conf: Store, list: seq<ObjectClass>)
    requires Writable(CallId2, conf, list) && StoreTyped(conf)
    ensures Narrow(CallId2, conf, list) <==> IntAt(conf, RC_CALL_ID_IS) < 0x100_0000
  {
    WritesFirst(CallId2, conf, list, 1, Low24C, RC_CALL_ID_IS);
  }

  lemma LongCallKept(conf: Store, list: seq<ObjectClass>)
    requires Writable(CallId2, conf, list) && StoreTyped(conf) && CallAddressRead(conf).Get?
    ensures Kept(CallId2, conf, list) <==> Narrow(CallId2, conf, list)
  {
    StraightPuts(CallId2, conf, list);
  }

  lemma CallFidelity(c: ObjectClass, conf: Store, list: seq<ObjectClass>)
    requires c in {CallId1, CallId2} && Writable(c, conf, list) && StoreTyped(conf)
    ensures Kept(c, conf, list) <==> Intact(c, conf)
  {
    WritesFirst(c, conf, list, 0, CharC, RC_CALL_ID_ADDR_TYPE);
    if CallAddressRead(conf).Get? {
      if c.CallId1? {
        ShortCallKept(conf, list);
      } else {
        LongCallKept(conf, list);
        LongCallNarrow(conf, list);
      }
    } else {
      CallAddressLost(c, conf, list, if c.CallId1? then 2 else 6);
    }
  }

  // ---- Objects whose writer consults values

  lemma StyleRecovered(conf: Store, list: seq<ObjectClass>)
    requires Writable(Style, conf, list) && FrameGuard(Style, conf)
    ensures var r := Recovered(Style, conf, list);
      var p := if IsSet(conf, RC_WILDCARD_FILTER) then RC_WILDCARD_FILTER else RC_FIXED_FILTER;
      p in r && r[p] == [Char(1)] && forall q :: q in r ==> q == p
  {
    var writes, gets := WritesOf(Style, conf, list), ExpectedReads(Style, conf);
    var r := Recovered(Style, conf, list);
    Corresponds(Style, conf, list);
    RecoveredAt(writes, gets, 0, conf, 1);
    forall q | q in r ensures q == gets[1].p { RecoveredKeys(writes, gets, 0, conf, q); }
  }

  lemma StyleFidelity(conf: Store, list: seq<ObjectClass>)
    requires Writable(Style, conf, list) && FrameGuard(Style, conf) && StoreTyped(conf)
    ensures Kept(Style, conf, list) <==> Intact(Style, conf)
  {
    StyleRecovered(conf, list);
    FlagValue(conf, RC_WILDCARD_FILTER);
    FlagValue(conf, RC_FIXED_FILTER);
    hide Recovered, ExpectedReads, StoreTyped, IsSet, SameMeaning, Meaning, IsFlag;
    StyleKept(conf, Recovered(Style, conf, list));
  }

  lemma FlagValue(conf: Store, p: Param)
    requires StoreTyped(conf) && TypeOf(p) == Scalar(UC)
    ensures IsSet(conf, p) <==> Meaning(conf, p) == [Char(1)]
  {
    if p in conf { assert Shaped(conf[p], TypeOf(p)); }
  }

  lemma StyleKept(conf: Store, r: Store)
    requires IsSet(conf, RC_WILDCARD_FILTER) <==> Meaning(conf, RC_WILDCARD_FILTER) == [Char(1)]
    requires IsSet(conf, RC_FIXED_FILTER) <==> Meaning(conf, RC_FIXED_FILTER) == [Char(1)]
    requires IsSet(conf, RC_WILDCARD_FILTER) ==>
      RC_WILDCARD_FILTER in r && r[RC_WILDCARD_FILTER] == [Char(1)] && RC_FIXED_FILTER !in r
    requires !IsSet(conf, RC_WILDCARD_FILTER) ==>
      RC_FIXED_FILTER in r && r[RC_FIXED_FILTER] == [Char(1)] && RC_WILDCARD_FILTER !in r
    requires RC_SHARED_EXPLICIT !in r
    ensures (forall p :: p in Consulted(Style) ==> SameMeaning(r, conf, p)) <==>
      Meaning(conf, RC_SHARED_EXPLICIT) == [Char(0)] && IsFlag(conf, RC_WILDCARD_FILTER)
        && IsFlag(conf, RC_FIXED_FILTER)
      && Meaning(conf, RC_WILDCARD_FILTER) != Meaning(conf, RC_FIXED_FILTER)
  {
    assert RC_WILDCARD_FILTER in Consulted(Style) && RC_FIXED_FILTER in Consulted(Style)
      && RC_SHARED_EXPLICIT in Consulted(Style);
  }

  lemma SessionShapes(conf: Store, p: Param)
    requires Inspectable(SessionAttribute, conf) && StoreTyped(conf)
    requires p in {RC_LOCAL_PROTECTION_FLAG, RC_LABEL_RECORDING_FLAG, RC_SE_STYLE_FLAG, RC_SESSION_NAME}
    ensures conf[p] == [conf[p][0]]
  {
    assert Shaped(conf[p], TypeOf(p));
  }

  /** A flag that the reader marks at one place only, when it was set. */
  lemma FlagFidelity(writes: seq<Write>, gets: seq<Read>, conf: Store, p: Param, k: nat, n: nat)
    requires Aligned(writes, gets) && AllReadable(writes, conf) && WellTyped(gets) && k < |gets| && p in FLAGS
    requires p in conf && |conf[p]| == 1 && conf[p][0].Char? && gets[k] == MarkIf(n, conf[p][0].c != 0, p)
    requires forall j :: 0 <= j < |gets| && j != k && !gets[j].Skip? ==> gets[j].p != p
    ensures SameMeaning(RecoveredFrom(writes, gets, 0, conf), conf, p) <==> IsFlag(conf, p)
  {
    if conf[p][0].c != 0 {
      RecoveredAt(writes, gets, 0, conf, k);
    } else {
      RecoveredKeys(writes, gets, 0, conf, p);
    }
  }

  predicate SessionFlag(p: Param, k: nat) {
    (p, k) in {(RC_LOCAL_PROTECTION_FLAG, 2), (RC_LABEL_RECORDING_FLAG, 3), (RC_SE_STYLE_FLAG, 4)}
  }

  lemma SessionMarks(conf: Store, p: Param, k: nat)
    requires Inspectable(SessionAttribute, conf) && SessionFlag(p, k)
    ensures var gets := ExpectedReads(SessionAttribute, conf);
      && |gets| == 7 && gets[k] == MarkIf(if k == 2 then 1 else 0, conf[p][0].c != 0, p)
      && forall j :: 0 <= j < |gets| && j != k && !gets[j].Skip? ==> gets[j].p != p
  {
  }

  lemma SessionFlagFidelity(conf: Store, list: seq<ObjectClass>, p: Param, k: nat)
    requires Writable(SessionAttribute, conf, list) && StoreTyped(conf) && SessionFlag(p, k)
    ensures SameMeaning(Recovered(SessionAttribute, conf, list), conf, p) <==> IsFlag(conf, p)
  {
    Corresponds(SessionAttribute, conf, list);
    SessionShapes(conf, p);
    SessionMarks(conf, p, k);
    hide WritesOf, ExpectedReads, StoreTyped, AllReadable, Aligned, WellTyped, SameMeaning, RecoveredFrom;
    FlagFidelity(WritesOf(SessionAttribute, conf, list), ExpectedReads(SessionAttribute, conf), conf, p, k,
      if k == 2 then 1 else 0);
  }

  lemma NameFidelity(writes: seq<Write>, gets: seq<Read>, conf: Store, name: CString)
    requires Aligned(writes, gets) && AllReadable(writes, conf) && WellTyped(gets) && |gets| > 6
    requires gets[6] == Took(|name| % 0x100, RC_SESSION_NAME, Text(name[..|name| % 0x100]))
    requires RC_SESSION_NAME in conf && conf[RC_SESSION_NAME] == [Text(name)]
    ensures SameMeaning(RecoveredFrom(writes, gets, 0, conf), conf, RC_SESSION_NAME) <==> |name| < 0x100
  {
    RecoveredAt(writes, gets, 0, conf, 6);
    if |name| < 0x100 { assert name[..|name| % 0x100] == name; }
  }

  lemma SessionNameFidelity(conf: Store, list: seq<ObjectClass>)
    requires Writable(SessionAttribute, conf, list) && StoreTyped(conf)
    ensures SameMeaning(Recovered(SessionAttribute, conf, list), conf, RC_SESSION_NAME)
      <==> |conf[RC_SESSION_NAME][0].text| < 0x100
  {
    Corresponds(SessionAttribute, conf, list);
    SessionShapes(conf, RC_SESSION_NAME);
    hide WritesOf, StoreTyped, AllReadable, Aligned, WellTyped, SameMeaning, RecoveredFrom;
    NameFidelity(WritesOf(SessionAttribute, conf, list), ExpectedReads(SessionAttribute, conf), conf,
      conf[RC_SESSION_NAME][0].text);
  }

  lemma SessionPuts(conf: Store, list: seq<ObjectClass>)
    requires Writable(SessionAttribute, conf, list) && StoreTyped(conf)
    ensures PutsKept(WritesOf(SessionAttribute, conf, list), Recovered(SessionAttribute, conf, list), conf)
  {
    StraightPuts(SessionAttribute, conf, list);
  }

  lemma SessionFidelity(conf: Store, list: seq<ObjectClass>)
    requires Writable(SessionAttribute, conf, list) && StoreTyped(conf)
    ensures Kept(SessionAttribute, conf, list) <==> Intact(SessionAttribute, conf)
  {
    SessionPuts(conf, list);
    hide WritesOf, Recovered, StoreTyped, AllReadable, SameMeaning, PutsKept;
    SessionFlagFidelity(conf, list, RC_LOCAL_PROTECTION_FLAG, 2);
    SessionFlagFidelity(conf, list, RC_LABEL_RECORDING_FLAG, 3);
    SessionFlagFidelity(conf, list, RC_SE_STYLE_FLAG, 4);
    SessionNameFidelity(conf, list);
    assert RC_LOCAL_PROTECTION_FLAG in Consulted(SessionAttribute)
      && RC_LABEL_RECORDING_FLAG in Consulted(SessionAttribute);
    assert RC_SE_STYLE_FLAG in Consulted(SessionAttribute) && RC_SESSION_NAME in Consulted(SessionAttribute);
  }

  lemma HopFidelity(conf: Store, list: seq<ObjectClass>)
    requires Writable(Ipv4IfIdRsvpHop, conf, list) && FrameGuard(Ipv4IfIdRsvpHop, conf) && StoreTyped(conf)
    ensures Kept(Ipv4IfIdRsvpHop, conf, list) <==> Intact(Ipv4IfIdRsvpHop, conf)
  {
    StraightPuts(Ipv4IfIdRsvpHop, conf, list);
    var writes, gets := WritesOf(Ipv4IfIdRsvpHop, conf, list), ExpectedReads(Ipv4IfIdRsvpHop, conf);
    Corresponds(Ipv4IfIdRsvpHop, conf, list);
    RecoveredAt(writes, gets, 0, conf, 1);
    assert RC_CONTROL_OUT_IF_HANDLE in Consulted(Ipv4IfIdRsvpHop);
  }

  lemma LabelFidelity(conf: Store, list: seq<ObjectClass>)
    requires Writable(GeneralizedLabel, conf, list) && StoreTyped(conf)
    ensures Kept(GeneralizedLabel, conf, list) <==> Intact(GeneralizedLabel, conf)
  {
    var writes, gets := WritesOf(GeneralizedLabel, conf, list), ExpectedReads(GeneralizedLabel, conf);
    Corresponds(GeneralizedLabel, conf, list);
    RecoveredAt(writes, gets, 0, conf, 0);
    var block := conf[RC_LABEL][0].bytes;
    assert Shaped(conf[RC_LABEL], TypeOf(RC_LABEL));
    assert conf[RC_LABEL] == [Block(block)];
    assert block + Zeros(Padding(|block|)) == block <==> |block| % 4 == 0;
    assert RC_LABEL in Consulted(GeneralizedLabel);
  }

  lemma HopReadExact(hop: Value)
    requires hop.Block? && |hop.bytes| == ERO_SIZE
    ensures HopRead(hop) == hop <==> HopExact(hop)
  {
    var r := HopRead(hop).bytes;
    assert r[5] == (if hop.bytes[5] == 1 then 1 else 0) && r[6] == 0 && r[7] == 0;
    if HopExact(hop) {
      assert r == hop.bytes;
    }
  }

  lemma HopsReadExact(hops: seq<Value>)
    requires AllHops(hops)
    ensures HopsRead(hops) == hops <==> forall i :: 0 <= i < |hops| ==> HopExact(hops[i])
  {
    forall i | 0 <= i < |hops| ensures HopsRead(hops)[i] == hops[i] <==> HopExact(hops[i]) {
      HopReadExact(hops[i]);
    }
  }

  /** A route is written from nothing but the route. */
  lemma RouteAlone(conf: Store, list: seq<ObjectClass>)
    requires Writable(Ero, conf, list)
    ensures Kept(Ero, conf, list) <==> SameMeaning(Recovered(Ero, conf, list), conf, RC_ERO)
  {
    hide Recovered, SameMeaning;
    assert RC_ERO in Consulted(Ero);
  }

  lemma EroFidelity(conf: Store, list: seq<ObjectClass>)
    requires Writable(Ero, conf, list) && StoreTyped(conf)
    ensures Kept(Ero, conf, list) <==> Intact(Ero, conf)
  {
    assert Shaped(conf[RC_ERO], TypeOf(RC_ERO));
    hide StoreTyped, AllReadable, HopExact, WritesOf, Kept;
    HopsReadExact(conf[RC_ERO]);
    RouteAlone(conf, list);
  }

  lemma {:induction false} UniPutKept(list: seq<ObjectClass>, conf: Store, j: nat)
    requires AllReadable(UniWrites(list), conf) && StoreTyped(conf) && j < |UniWrites(list)| && UniWrites(list)[j].Put?
    ensures UniWrites(list)[j].p in UniRecovered(list, conf)
    ensures UniRecovered(list, conf)[UniWrites(list)[j].p] == conf[UniWrites(list)[j].p]
  {
    UniReadable(list, conf);
    var n := |SubWrites(list[0])|;
    UniValues(list, conf);
    if j < n {
      ReadablePut(list[0], conf);
    } else {
      UniPutKept(list[1..], conf, j - n);
    }
  }

  /** Whatever the subobjects carry, they carry as the configuration has it. */
  lemma {:induction false} UniValues(list: seq<ObjectClass>, conf: Store)
    requires AllReadable(UniWrites(list), conf) && StoreTyped(conf)
    ensures forall p :: p in UniRecovered(list, conf) ==> p in conf && UniRecovered(list, conf)[p] == conf[p]
  {
    if list != [] {
      UniReadable(list, conf);
      UniValues(list[1..], conf);
      if SubWrites(list[0]) != [] {
        ReadablePut(list[0], conf);
        assert Shaped(conf[SubWrites(list[0])[1].p], TypeOf(SubWrites(list[0])[1].p));
      }
    }
  }

  lemma UniFidelity(conf: Store, list: seq<ObjectClass>)
    requires Writable(GeneralizedUni, conf, list) && StoreTyped(conf)
    ensures Kept(GeneralizedUni, conf, list)
  {
    forall j | 0 <= j < |UniWrites(list)| && UniWrites(list)[j].Put?
      ensures SameMeaning(UniRecovered(list, conf), conf, UniWrites(list)[j].p)
    {
      UniPutKept(list, conf, j);
      UniValues(list, conf);
    }
  }

  /** Every parameter an object was written from comes back unchanged exactly under the stated condition. */
  lemma Fidelity(c: ObjectClass, conf: Store, list: seq<ObjectClass>)
    requires Whole(c, conf, list) && StoreTyped(conf)
    ensures Kept(c, conf, list) <==> Intact(c, conf)
  {
    match c
    case RestartCap => RestartFidelity(conf, list);
    case NotifyRequest => NotifyFidelity(conf, list);
    case CallId1 => CallFidelity(c, conf, list);
    case CallId2 => CallFidelity(c, conf, list);
    case Style => StyleFidelity(conf, list);
    case SessionAttribute => SessionFidelity(conf, list);
    case Ipv4IfIdRsvpHop => HopFidelity(conf, list);
    case GeneralizedLabel => LabelFidelity(conf, list);
    case Ero => EroFidelity(conf, list);
    case GeneralizedUni => UniFidelity(conf, list);
    case _ => PlainFidelity(c, conf, list);
  }
}
