/** What each `add_` routine of `rsvp_packet.cpp` writes into the body of its object, and what each `parse_` routine
    reads there. */
module ObjectFormats {
  import opened Bytes
  import opened Parameters
  import opened Configuration
  import opened WireFormats
  import opened ObjectList

  /** The parts of a message: who speaks to whom, what is asked for, by which sender, and what is reserved. */
  datatype Part = Heading | Request | Sender | Reservation

  function PartOf(c: ObjectClass): Part {
    match c
    case MessageIdAck => Heading
    case MessageIdNack => Heading
    case MessageId => Heading
    case MessageIdList => Heading
    case HelloRequest => Heading
    case HelloAck => Heading
    case RestartCap => Heading
    case SessionOif => Heading
    case SessionIetf => Heading
    case Ipv4IfIdRsvpHop => Heading
    case Ipv4RsvpHop => Heading
    case TimeValues => Heading
    case GeneralizedLabelRequest => Request
    case SessionAttribute => Request
    case ErrorSpec => Request
    case NotifyRequest => Request
    case CallId0 => Request
    case CallId1 => Request
    case CallId2 => Request
    case ResvConfirm => Sender
    case AdminStatus => Sender
    case SenderTemplate => Sender
    case SonetsdhSenderTspec => Sender
    case TokenSenderTspec => Sender
    case EthernetSenderTspec => Sender
    case GeneralizedUni => Sender
    case GuDestinationTnaAddress => Sender
    case GuSourceTnaAddress => Sender
    case GuServiceLevel => Sender
    case _ => Reservation
  }

  // ---- Writers

  const TSPEC_PARAMETERS: seq<Write> := [
    Put(FloatC, RC_TOKEN_BUCKET_RATE), Put(FloatC, RC_TOKEN_BUCKET_SIZE), Put(FloatC, RC_PEAK_DATA_RATE),
    Put(IntC, RC_MINIMUM_POLICED_UNIT), Put(IntC, RC_MAXIMUM_PACKET_SIZE)
  ]

  const CONTROLLED_LOAD_TSPEC: seq<byte> := [0, 0, 0, 7, 1, 0, 0, 6, 127, 0, 0, 5]
  const CONTROLLED_LOAD_FLOWSPEC: seq<byte> := [0, 0, 0, 7, 5, 0, 0, 6, 127, 0, 0, 5]
  const GUARANTEED_FLOWSPEC: seq<byte> := [0, 0, 0, 10, 2, 0, 0, 9, 127, 0, 0, 5]
  const GUARANTEED_RSPEC: seq<byte> := [130, 0, 0, 2]
  const ETHERNET_MTU: u16 := 1518
  const ETHERNET_PROFILE_TYPE: u16 := 129
  const ETHERNET_PROFILE_LENGTH: u16 := 24

  function Padding(n: nat): nat {
    if n % 4 == 0 then 0 else 4 - n % 4
  }

  function Zeros(n: nat): (s: seq<byte>)
    ensures |s| == n
  {
    seq(n, _ => 0)
  }

  /** One hop of the explicit route, as the loop of `add_20_1_0_0` writes it. */
  function HopBytes(hop: Value): (s: seq<byte>)
    requires hop.Block? && |hop.bytes| == ERO_SIZE
    ensures |s| == 8
  {
    [if hop.bytes[5] == 1 then 0x81 else 0x01, 8] + hop.bytes[..4] + [hop.bytes[4], 0]
  }

  predicate AllHops(hops: seq<Value>) {
    forall i :: 0 <= i < |hops| ==> hops[i].Block? && |hops[i].bytes| == ERO_SIZE
  }

  predicate HopsStored(conf: Store) {
    RC_ERO in conf && AllHops(conf[RC_ERO])
  }

  function EroWrites(hops: seq<Value>): seq<Write>
    requires AllHops(hops)
  {
    seq(|hops|, i requires 0 <= i < |hops| => Lit(HopBytes(hops[i])))
  }

  /** The flag is one of the readings of a style that `add_8_1_0_0` recognises. */
  predicate IsSet(conf: Store, flag: Param) {
    flag in conf && conf[flag] != [] && conf[flag][0] == Char(1)
  }

  /** The first flag set decides; with none set the octet is not written at all. */
  function StyleOctet(conf: Store): seq<byte> {
    if IsSet(conf, RC_WILDCARD_FILTER) then [0x11]
    else if IsSet(conf, RC_FIXED_FILTER) then [0x0A]
    else if IsSet(conf, RC_SHARED_EXPLICIT) then [0x12]
    else []
  }

  predicate Guaranteed(conf: Store) {
    RC_RATE in conf && RC_SLACK_TERM in conf
  }

  predicate HasText(conf: Store, p: Param) {
    p in conf && conf[p] != [] && conf[p][0].Text?
  }

  predicate HasBlock(conf: Store, p: Param) {
    p in conf && conf[p] != [] && conf[p][0].Block?
  }

  predicate HasChar(conf: Store, p: Param) {
    p in conf && conf[p] != [] && conf[p][0].Char?
  }

  function Flag(conf: Store, p: Param, mask: byte): byte
    requires HasChar(conf, p)
  {
    if conf[p][0].c != 0 then mask else 0
  }

  /** The subobjects of `add_229_1_0_0`, in the order of the object list. */
  function SubWrites(c: ObjectClass): seq<Write> {
    match c
    case GuDestinationTnaAddress => [Lit(Net16(8) + [2, 1]), Put(AddrC, RC_TNA_DST_ADDR)]
    case GuSourceTnaAddress => [Lit(Net16(8) + [1, 1]), Put(AddrC, RC_TNA_SRC_ADDR)]
    case GuServiceLevel => [Lit(Net16(8) + [5, 1]), Put(CharC, RC_SERVICE_LEVEL), Lit([0, 0, 0])]
    case _ => []
  }

  function UniWrites(list: seq<ObjectClass>): seq<Write> {
    if list == [] then [] else SubWrites(list[0]) + UniWrites(list[1..])
  }

  /** What the writers that do arithmetic on a value find there before they write. */
  predicate Inspectable(c: ObjectClass, conf: Store) {
    match c
    case GeneralizedLabel => HasBlock(conf, RC_LABEL)
    case SessionAttribute =>
      && HasText(conf, RC_SESSION_NAME) && HasChar(conf, RC_LOCAL_PROTECTION_FLAG)
      && HasChar(conf, RC_LABEL_RECORDING_FLAG) && HasChar(conf, RC_SE_STYLE_FLAG)
    case Ero => HopsStored(conf)
    case _ => true
  }

  /** Keeps the writes in step with a reader that adds a value it has not just read. */
  const NOTHING: Write := Lit([])

  const MESSAGE_ID_WRITES: seq<Write> :=
    [Put(CharC, RC_MSG_ID_FLAGS), Put(Low24C, RC_MSG_ID_EPOCH), Put(IntC, RC_MSG_ID_ID)]
  const HELLO_WRITES: seq<Write> := [Put(IntC, RC_HELLO_SRC_INSTANCE), Put(IntC, RC_HELLO_DST_INSTANCE)]
  const SESSION_WRITES: seq<Write> := [
    Put(AddrC, RC_SESSION_DEST_ADDR), Lit([0, 0]), Put(ShortC, RC_TUNNEL_ID), Put(AddrC, RC_EXTENDED_IPV4_ADDR)
  ]
  const HOP_WRITES: seq<Write> := [
    Put(AddrC, RC_CONTROL_OUT_IF_ADDR), Lit([0, 0, 0, 0]), Lit(Net16(3) + Net16(12)), Put(AddrC, RC_DATA_OUT_IF_ADDR),
    Put(IntC, RC_DATA_OUT_IF_HANDLE)
  ]
  const SONETSDH_WRITES: seq<Write> := [
    Put(CharC, RC_SSDH_SIGNAL_TYPE), Put(CharC, RC_SSDH_RCC), Put(ShortC, RC_SSDH_NCC), Put(ShortC, RC_SSDH_NVC),
    Put(ShortC, RC_SSDH_MULTIPLIER), Put(IntC, RC_SSDH_TRANSPARENCY), Put(IntC, RC_SSDH_PROFILE)
  ]
  const ETHERNET_WRITES: seq<Write> := [
    Put(SignedCharC, RC_ETHERNET_SW_GRANUALITY),
    Lit(Net16(ETHERNET_MTU) + Net16(ETHERNET_PROFILE_TYPE) + Net16(ETHERNET_PROFILE_LENGTH)),
    Put(CharC, RC_ETHERNET_PROFILE), Put(CharC, RC_ETHERNET_INDEX), Lit([0, 0]),
    Put(FloatC, RC_ETHERNET_CIR), Put(FloatC, RC_ETHERNET_CBS), Put(FloatC, RC_ETHERNET_EIR),
      Put(FloatC, RC_ETHERNET_EBS)
  ]

  /** The body that the `add_` routine of the class appends after the object header. `add_7_1_0_0` is not among them:
      its loop does not advance. */
  function WritesOf(c: ObjectClass, conf: Store, list: seq<ObjectClass>): seq<Write>
    requires Inspectable(c, conf)
  {
    match c
    case MessageIdAck => MESSAGE_ID_WRITES + [NOTHING]
    case MessageIdNack => MESSAGE_ID_WRITES + [NOTHING]
    case MessageId => MESSAGE_ID_WRITES
    case MessageIdList => []
    case HelloRequest => HELLO_WRITES + [NOTHING]
    case HelloAck => HELLO_WRITES + [NOTHING]
    case RestartCap => [Put(IntC, RC_RESTART_TIME), Put(IntC, RC_RECOVERY_TIME)]
    case SessionOif => SESSION_WRITES
    case SessionIetf => SESSION_WRITES
    case Ipv4IfIdRsvpHop =>
      if RC_DATA_OUT_IF_HANDLE in conf then HOP_WRITES else HOP_WRITES[..2]
    case Ipv4RsvpHop => [Put(AddrC, RC_CONTROL_OUT_IF_ADDR), Put(IntC, RC_CONTROL_OUT_IF_HANDLE)]
    case TimeValues => [Put(IntC, RC_REFRESH_PERIOD)]
    case GeneralizedLabelRequest => [Put(CharC, RC_LSP_ENC_TYPE), Put(CharC, RC_LSP_SWITCHING_TYPE),
      Put(ShortC, RC_LSP_GPID)]
    case SessionAttribute =>
      var name := conf[RC_SESSION_NAME][0].text;
      var shown := |name| % 0x100;
      [Put(CharC, RC_SETUP_PRIORITY), Put(CharC, RC_HOLDING_PRIORITY), Lit([SessionFlags(conf)]), NOTHING, NOTHING,
       Lit([shown]), Lit(name[..shown]), Lit(name[shown..] + Zeros(Padding(|name|)))]
    case ErrorSpec => [Put(AddrC, RC_ERROR_NODE_ADDR), Put(CharC, RC_ERROR_FLAGS), Put(CharC, RC_ERROR_CODE),
      Put(ShortC, RC_ERROR_VALUE)]
    case NotifyRequest => [Put(AddrC, RC_NOTIFY_ADDRESS)]
    case CallId0 => []
    case CallId1 =>
      [Put(CharC, RC_CALL_ID_ADDR_TYPE), Lit([0, 0, 0]), Put(AddrC, RC_CALL_ID_SRC_TN_ADDR),
       Put(IntC, RC_CALL_ID_LOCAL_ID1), Put(IntC, RC_CALL_ID_LOCAL_ID2)]
    case CallId2 =>
      [Put(CharC, RC_CALL_ID_ADDR_TYPE), Put(Low24C, RC_CALL_ID_IS), Put(IntC, RC_CALL_ID_ITU_CC1),
       Put(ShortC, RC_CALL_ID_ITU_CC2), Put(ShortC, RC_CALL_ID_UAPC1), Put(IntC, RC_CALL_ID_UAPC2),
       Put(AddrC, RC_CALL_ID_SRC_TN_ADDR), Put(IntC, RC_CALL_ID_LOCAL_ID1), Put(IntC, RC_CALL_ID_LOCAL_ID2)]
    case ResvConfirm => [Put(AddrC, RC_RESV_CONFIRM_RECV_ADDR)]
    case AdminStatus => [Put(StatusC, RC_ADMIN_STATUS_RTAD_FLAGS)]
    case GeneralizedUni => UniWrites(list)
    case SenderTemplate => [Put(AddrC, RC_SENDER_SRC_ADDR), Lit([0, 0]), Put(ShortC, RC_SENDER_SRC_ID)]
    case SonetsdhSenderTspec => SONETSDH_WRITES
    case TokenSenderTspec => [Lit(CONTROLLED_LOAD_TSPEC)] + TSPEC_PARAMETERS
    case EthernetSenderTspec => ETHERNET_WRITES
    case UpstreamLabel => [Put(IntC, RC_UPSTREAM_LABEL)]
    case Style => [Lit([0, 0, 0]), Lit(StyleOctet(conf))]
    case TokenFlowspec =>
      if Guaranteed(conf) then
        [Lit(GUARANTEED_FLOWSPEC)] + TSPEC_PARAMETERS
          + [Lit(GUARANTEED_RSPEC), Put(FloatC, RC_RATE), Put(IntC, RC_SLACK_TERM)]
      else [Lit(CONTROLLED_LOAD_FLOWSPEC)] + TSPEC_PARAMETERS
    case SonetsdhFlowspec => SONETSDH_WRITES
    case EthernetFlowspec => ETHERNET_WRITES
    case FilterSpec => [Put(AddrC, RC_FILTER_SRC_ADDR), Lit([0, 0]), Put(ShortC, RC_FILTER_SRC_PORT)]
    case GeneralizedLabel =>
      var block := conf[RC_LABEL][0].bytes;
      [Lit(block + Zeros(Padding(|block|)))]
    case Ero => EroWrites(conf[RC_ERO])
    case _ => []
  }

  function SessionFlags(conf: Store): byte
    requires Inspectable(SessionAttribute, conf)
  {
    var a: int, b: int, d: int :=
      Flag(conf, RC_LOCAL_PROTECTION_FLAG, 1), Flag(conf, RC_LABEL_RECORDING_FLAG, 2), Flag(conf, RC_SE_STYLE_FLAG, 4);
    a + b + d
  }

  /** The size passed to `add_obj_header`; the one of GENERALIZED_UNI is patched in afterwards. */
  function DeclaredSize(c: ObjectClass, conf: Store, list: seq<ObjectClass>): nat
    requires Inspectable(c, conf)
  {
    match c
    case Ipv4IfIdRsvpHop => if RC_DATA_OUT_IF_HANDLE in conf then 20 else 16
    case SessionAttribute => var n := |conf[RC_SESSION_NAME][0].text|; n + Padding(n) + 4
    case GeneralizedLabel => var n := |conf[RC_LABEL][0].bytes|; n + Padding(n)
    case Ero => 8 * |conf[RC_ERO]|
    case GeneralizedUni => WidthFrom(UniWrites(list), 0)
    case TokenFlowspec => if Guaranteed(conf) then 44 else 32
    case TokenSenderTspec => 32
    case SessionOif => 12
    case SessionIetf => 12
    case CallId0 => 0
    case CallId1 => 16
    case CallId2 => 28
    case SonetsdhSenderTspec => 16
    case SonetsdhFlowspec => 16
    case EthernetSenderTspec => 28
    case EthernetFlowspec => 28
    case TimeValues => 4
    case GeneralizedLabelRequest => 4
    case NotifyRequest => 4
    case ResvConfirm => 4
    case AdminStatus => 4
    case UpstreamLabel => 4
    case Style => 4
    case _ => 8
  }

  /** `get_data` has no case for these: they put nothing in the message themselves. */
  predicate Silent(c: ObjectClass) {
    c.MessageIdList? || c.GuDestinationTnaAddress? || c.GuSourceTnaAddress? || c.GuServiceLevel?
  }

  // ---- Readers

  const MESSAGE_ID_READS: seq<Read> :=
    [Get(CharC, RC_MSG_ID_FLAGS), Get(Low24C, RC_MSG_ID_EPOCH), Get(IntC, RC_MSG_ID_ID)]
  const HELLO_READS: seq<Read> := [Get(IntC, RC_HELLO_SRC_INSTANCE), Get(IntC, RC_HELLO_DST_INSTANCE)]
  const SESSION_READS: seq<Read> := [
    Get(AddrC, RC_SESSION_DEST_ADDR), Skip(2), Get(ShortC, RC_TUNNEL_ID), Get(AddrC, RC_EXTENDED_IPV4_ADDR)
  ]
  const SONETSDH_READS: seq<Read> := [
    Get(CharC, RC_SSDH_SIGNAL_TYPE), Get(CharC, RC_SSDH_RCC), Get(ShortC, RC_SSDH_NCC), Get(ShortC, RC_SSDH_NVC),
    Get(ShortC, RC_SSDH_MULTIPLIER), Get(IntC, RC_SSDH_TRANSPARENCY), Get(IntC, RC_SSDH_PROFILE)
  ]
  const TSPEC_READS: seq<Read> := [
    Skip(12), Get(FloatC, RC_TOKEN_BUCKET_RATE), Get(FloatC, RC_TOKEN_BUCKET_SIZE), Get(FloatC, RC_PEAK_DATA_RATE),
    Get(IntC, RC_MINIMUM_POLICED_UNIT), Get(IntC, RC_MAXIMUM_PACKET_SIZE)
  ]
  const ETHERNET_READS: seq<Read> := [
    Get(SignedCharC, RC_ETHERNET_SW_GRANUALITY), Skip(6), Get(CharC, RC_ETHERNET_PROFILE),
      Get(CharC, RC_ETHERNET_INDEX),
    Skip(2), Get(FloatC, RC_ETHERNET_CIR), Get(FloatC, RC_ETHERNET_CBS), Get(FloatC, RC_ETHERNET_EIR),
      Get(FloatC, RC_ETHERNET_EBS)
  ]

  /** The byte there, or any byte when a read of it is about to run past the end. */
  function Peek(packet: seq<byte>, at: nat): byte {
    if at < |packet| then packet[at] else 0
  }

  predicate Holds(packet: seq<byte>, at: nat, piece: seq<byte>) {
    at + |piece| <= |packet| && packet[at..at + |piece|] == piece
  }

  function MarkIf(n: nat, set_: bool, p: Param): Read {
    if set_ then Took(n, p, Char(1)) else Skip(n)
  }

  function SessionAttributeReads(packet: seq<byte>, at: nat): seq<Read> {
    var flags := Peek(packet, at + 2);
    var shown := Peek(packet, at + 3);
    var text := if at + 4 + shown <= |packet| then CStringOf(packet[at + 4..at + 4 + shown]) else [];
    [Get(CharC, RC_SETUP_PRIORITY), Get(CharC, RC_HOLDING_PRIORITY),
     MarkIf(1, flags % 2 == 1, RC_LOCAL_PROTECTION_FLAG), MarkIf(0, flags / 2 % 2 == 1, RC_LABEL_RECORDING_FLAG),
     MarkIf(0, flags / 4 % 2 == 1, RC_SE_STYLE_FLAG), Skip(1), Took(shown, RC_SESSION_NAME, Text(text))]
  }

  /** Anything but 0x11 reads as the fixed filter: the second test assigns where it should compare. */
  function StyleReads(packet: seq<byte>, at: nat): seq<Read> {
    [Skip(3), Took(1, if Peek(packet, at + 3) == 0x11 then RC_WILDCARD_FILTER else RC_FIXED_FILTER, Char(1))]
  }

  function FlowspecReads(packet: seq<byte>, at: nat): seq<Read> {
    if Holds(packet, at, CONTROLLED_LOAD_FLOWSPEC) then TSPEC_READS
    else if Holds(packet, at, GUARANTEED_FLOWSPEC) then
      TSPEC_READS + [Skip(4)] +
      (if Holds(packet, at + 32, GUARANTEED_RSPEC) then [Get(FloatC, RC_RATE), Get(IntC, RC_SLACK_TERM)] else [])
    else [Skip(12)]
  }

  function TspecReads(packet: seq<byte>, at: nat): seq<Read> {
    if Holds(packet, at, CONTROLLED_LOAD_TSPEC) || Holds(packet, at, CONTROLLED_LOAD_FLOWSPEC) then TSPEC_READS
    else [Skip(12)]
  }

  function EthernetReads(packet: seq<byte>, at: nat): seq<Read> {
    if Holds(packet, at + 4, Net16(ETHERNET_PROFILE_TYPE) + Net16(ETHERNET_PROFILE_LENGTH)) then ETHERNET_READS
    else ETHERNET_READS[..2]
  }

  /** Words skipped when the address is not an IPv4 one; the division truncates. */
  function SkippedWords(size: int, rest: nat): seq<Read> {
    if size < rest then [] else [Skip((size - rest) / 4 * 4)]
  }

  function CallId1Reads(packet: seq<byte>, at: nat, size: int): seq<Read> {
    [Get(CharC, RC_CALL_ID_ADDR_TYPE), Skip(3)] +
    (if Peek(packet, at) == 1 then [Get(AddrC, RC_CALL_ID_SRC_TN_ADDR)] else SkippedWords(size, 12)) +
    [Get(IntC, RC_CALL_ID_LOCAL_ID1), Get(IntC, RC_CALL_ID_LOCAL_ID2)]
  }

  function CallId2Reads(packet: seq<byte>, at: nat, size: int): seq<Read> {
    [Get(CharC, RC_CALL_ID_ADDR_TYPE), Get(Low24C, RC_CALL_ID_IS), Get(IntC, RC_CALL_ID_ITU_CC1),
     Get(ShortC, RC_CALL_ID_ITU_CC2), Get(ShortC, RC_CALL_ID_UAPC1), Get(IntC, RC_CALL_ID_UAPC2)] +
    (if Peek(packet, at) == 1 then [Get(AddrC, RC_CALL_ID_SRC_TN_ADDR)] else SkippedWords(size, 24)) +
    [Get(IntC, RC_CALL_ID_LOCAL_ID1), Get(IntC, RC_CALL_ID_LOCAL_ID2)]
  }

  /** `get_void` of a negative size asks `malloc` for more than there is. */
  function LabelReads(packet: seq<byte>, at: nat, size: int): seq<Read> {
    if size < 0 || at + size > |packet| then [Skip(|packet| + 1)]
    else [Took(size, RC_LABEL, Block(packet[at..at + size]))]
  }

  /** The reads of the routines without a loop, `at` being the start of the body and `size` its declared size. */
  function ReadsOf(oc: byte, oct: byte, packet: seq<byte>, at: nat, size: int): seq<Read> {
    match oc
    case 1 => if oct == 7 || oct == 11 then SESSION_READS else []
    case 3 => if oct == 1 then [Get(AddrC, RC_CONTROL_OUT_IF_ADDR), Get(IntC, RC_CONTROL_OUT_IF_HANDLE)] else []
    case 5 => if oct == 1 then [Get(IntC, RC_REFRESH_PERIOD)] else []
    case 6 =>
      if oct == 1
      then [Get(AddrC, RC_ERROR_NODE_ADDR), Get(CharC, RC_ERROR_FLAGS), Get(CharC, RC_ERROR_CODE),
        Get(ShortC, RC_ERROR_VALUE)]
      else []
    case 8 => if oct == 1 then StyleReads(packet, at) else []
    case 9 =>
      if oct == 2 then FlowspecReads(packet, at) else if oct == 4 then SONETSDH_READS
      else if oct == 6 then EthernetReads(packet, at) else []
    case 10 => if oct == 7 then [Get(AddrC, RC_FILTER_SRC_ADDR), Skip(2), Get(ShortC, RC_FILTER_SRC_PORT)] else []
    case 11 => if oct == 7 then [Get(AddrC, RC_SENDER_SRC_ADDR), Skip(2), Get(ShortC, RC_SENDER_SRC_ID)] else []
    case 12 =>
      if oct == 2 then TspecReads(packet, at) else if oct == 4 then SONETSDH_READS
      else if oct == 6 then EthernetReads(packet, at) else []
    case 15 => if oct == 1 then [Get(AddrC, RC_RESV_CONFIRM_RECV_ADDR)] else []
    case 16 => if oct == 2 then LabelReads(packet, at, size) else []
    case 19 =>
      if oct == 4 then [Get(CharC, RC_LSP_ENC_TYPE), Get(CharC, RC_LSP_SWITCHING_TYPE), Get(ShortC, RC_LSP_GPID)]
        else []
    case 22 =>
      if oct == 1 then HELLO_READS + [Took(0, RC_HELLO_REQ_ACK, Char(1))]
      else if oct == 2 then HELLO_READS + [Took(0, RC_HELLO_REQ_ACK, Char(2))] else []
    case 23 => if oct == 1 then MESSAGE_ID_READS else []
    case 24 =>
      if oct == 1 then MESSAGE_ID_READS + [Took(0, RC_MSG_ID_ACK_NACK, Char(1))]
      else if oct == 2 then MESSAGE_ID_READS + [Took(0, RC_MSG_ID_ACK_NACK, Char(2))] else []
    case 25 => // no `break`: a C-Type of 2 is read as an upstream label
      if oct == 1 then [Skip(4)] + (if size > 0 then [Get(IntC, RC_SREFRESH_MESSAGE_ID)] else [])
      else if oct == 2 then [Get(IntC, RC_UPSTREAM_LABEL)] else []
    case 35 => if oct == 2 then [Get(IntC, RC_UPSTREAM_LABEL)] else []
    case 131 => if oct == 1 then [Get(IntC, RC_RECOVERY_TIME)] else []
    case 195 => if oct == 1 then [Get(IntC, RC_NOTIFY_ADDRESS)] else []
    case 196 => if oct == 1 then [Get(StatusC, RC_ADMIN_STATUS_RTAD_FLAGS)] else []
    case 207 => if oct == 7 then SessionAttributeReads(packet, at) else []
    case 230 =>
      if oct == 0 then [Get(IntC, RC_CALL_ID)] else if oct == 1 then CallId1Reads(packet, at, size)
      else if oct == 2 then CallId2Reads(packet, at, size) else []
    case _ => []
  }

  /** The address, prefix length and loose flag of a hop, as `struct rc_ero`. */
  function HopValue(packet: seq<byte>, at: nat): (v: Value)
    requires at + 7 <= |packet|
    ensures v.Block? && |v.bytes| == ERO_SIZE
  {
    Block(packet[at + 2..at + 6] + [packet[at + 6], if packet[at] >= 0x80 then 1 else 0, 0, 0])
  }

  /** `parse_20_1_0_0`. */
  function ParseEro(packet: seq<byte>, at: nat, end: int, conf: Store): Parse
    decreases |packet| - at
  {
    if at >= end then Parsed(conf)
    else if at + 2 > |packet| then Overrun
    else if packet[at] % 0x80 == 1 && packet[at + 1] == 8 then
      if at + 7 > |packet| then Overrun
      else
        var change := AddTo(conf, TypeOf(RC_ERO), RC_ERO, HopValue(packet, at));
        if change.code != 0 then Parsed(conf)
        else if at + 8 > |packet| then Overrun
        else ParseEro(packet, at + 8, end, change.store)
    else if packet[at + 1] == 0 then Endless
    else ParseEro(packet, at + packet[at + 1], end, conf)
  }

  /** The reads of one TLV of `parse_3_3_0_0`, after its type and length. */
  function TlvReads(kind: u16, length: u16): seq<Read> {
    (if kind == 1 && length == 8 then [Get(AddrC, RC_DATA_OUT_IF_ADDR)]
     else if (kind == 3 || kind == 4) && length == 12 then [Get(AddrC, RC_DATA_OUT_IF_ADDR),
       Get(IntC, RC_DATA_OUT_IF_HANDLE)]
     else if kind == 5 && length == 12 then [Get(AddrC, RC_DATA_IN_IF_ADDR), Get(IntC, RC_DATA_IN_IF_HANDLE)]
     else []) +
    (if kind !in {1, 4, 5} && length > 4 then [Skip(length - 4)] else [])
  }

  function ParseTlvs(packet: seq<byte>, at: nat, end: int, conf: Store): Parse
    decreases |packet| - at
  {
    if at >= end then Parsed(conf)
    else if at + 4 > |packet| then Overrun
    else
      var gets := TlvReads(FromNet16(packet[at..at + 2]), FromNet16(packet[at + 2..at + 4]));
      var step := RunReads(gets, 0, packet, at + 4, conf);
      if step.Next? then ParseTlvs(packet, step.at, end, step.store) else Finish(step)
  }

  /** `parse_3_3_0_0`. */
  function ParseHop(packet: seq<byte>, at: nat, size: int, conf: Store): Parse {
    var step := RunReads(ReadsOf(3, 1, packet, at, size), 0, packet, at, conf);
    if step.Next? then ParseTlvs(packet, step.at, at + size, step.store) else Finish(step)
  }

  function SubReads(ot: byte, ost: byte): seq<Read> {
    if ost != 1 then []
    else if ot == 1 then [Get(AddrC, RC_TNA_SRC_ADDR)]
    else if ot == 2 then [Get(AddrC, RC_TNA_DST_ADDR)]
    else if ot == 5 then [Get(CharC, RC_SERVICE_LEVEL), Skip(3)]
    else []
  }

  /** `parse_229_1_0_0`. A subobject of length zero is met again, and then its parameter is already present. */
  function ParseUni(packet: seq<byte>, at: nat, end: int, conf: Store): Parse
    decreases |packet| - at
  {
    if at >= end then Parsed(conf)
    else if at + 4 > |packet| then Overrun
    else
      var length := FromNet16(packet[at..at + 2]);
      var gets := SubReads(packet[at + 2], packet[at + 3]);
      var step := RunReads(gets, 0, packet, at + 4, conf);
      if !step.Next? then Finish(step)
      else if length > 0 then ParseUni(packet, at + length, end, step.store)
      else if gets == [] then Endless
      else Parsed(step.store)
  }

  /** `parse_7_1_0_0`. */
  function ParseScope(packet: seq<byte>, at: nat, end: int, conf: Store): Parse
    decreases |packet| - at
  {
    if at >= end then Parsed(conf)
    else
      var step := ReadOne(Get(AddrC, RC_SCOPE_ADDR), packet, at, conf);
      if step.Next? then ParseScope(packet, step.at, end, step.store) else Finish(step)
  }

  /** The `switch` of `parse_data`. */
  function ParseBody(oc: byte, oct: byte, packet: seq<byte>, at: nat, size: int, conf: Store): Parse {
    if oc == 3 && oct == 3 then ParseHop(packet, at, size, conf)
    else if oc == 7 && oct == 1 then ParseScope(packet, at, at + size, conf)
    else if oc == 20 && oct == 1 then ParseEro(packet, at, at + size, conf)
    else if oc == 229 && oct == 1 then ParseUni(packet, at, at + size, conf)
    else Finish(RunReads(ReadsOf(oc, oct, packet, at, size), 0, packet, at, conf))
  }
}
