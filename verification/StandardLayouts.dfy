/** The objects as the standards draw them, and as a receiver of another make reads them: section 3.1.2 and appendix A
    of RFC 2205, section 3 of RFC 2210, section 4 of RFC 2961, sections 4 and 5 of RFC 3209, sections 2, 3, 4, 7, 8
    and 9 of RFC 3473, section 2.1 of RFC 4606 and section 4 of RFC 6003. What `get_data` leaves is read here by
    position alone, without the agent's own parser. */
module StandardLayouts {
  import opened Bytes
  import opened Options
  import opened Parameters
  import opened Configuration
  import opened WireFormats
  import opened ObjectList
  import opened ObjectFormats
  import opened ObjectRoundTrips
  import opened MessagePieces
  import opened RsvpMessage
  import opened FloatSigns

  /** Most significant byte first. */
  function BigEndian(s: seq<byte>): nat {
    if s == [] then 0 else 0x100 * BigEndian(s[..|s| - 1]) + s[|s| - 1]
  }

  /** A number is sent most significant byte first, an address as it lies in memory, in network order already. The
      sign of a rate is a matter of its own, see `FloatSigns`. */
  datatype Content =
    | Number(p: Param)
    | Narrowed(p: Param)
    | Address(p: Param)
    | Rate(p: Param)
    | Octets(bytes: seq<byte>)

  datatype Field = Field(at: nat, width: nat, content: Content)

  /** Class-Num, C-Type, the length of the body, and its fields. */
  datatype Drawing = Drawing(cnum: byte, ctnum: byte, size: nat, fields: seq<Field>)

  function NumberOf(v: Value): nat {
    match v
    case Char(c) => c
    case Short(s) => s
    case Int(i) => i
    case _ => 0
  }

  /** What the bytes of a field say of the configuration. */
  predicate Shows(piece: seq<byte>, f: Content, conf: Store) {
    match f
    case Octets(bytes) => piece == bytes
    case Number(p) =>
      p in conf && conf[p] != [] && !conf[p][0].Real?
      && BigEndian(piece) == if |piece| == 3 then NumberOf(conf[p][0]) % 0x100_0000 else NumberOf(conf[p][0])
    case Narrowed(p) =>
      p in conf && conf[p] != [] && conf[p][0].Short? && BigEndian(piece) == ThroughSignedChar(conf[p][0].s)
    case Address(p) => p in conf && conf[p] != [] && conf[p][0].Int? && piece == Host32(conf[p][0].i)
    case Rate(p) => p in conf && conf[p] != [] && conf[p][0].Real? && |piece| == 4
  }

  const SESSION_FIELDS: seq<Field> := [
    Field(0, 4, Address(RC_SESSION_DEST_ADDR)), Field(4, 2, Octets([0, 0])), Field(6, 2, Number(RC_TUNNEL_ID)),
    Field(8, 4, Address(RC_EXTENDED_IPV4_ADDR))
  ]
  const MESSAGE_ID_FIELDS: seq<Field> := [
    Field(0, 1, Number(RC_MSG_ID_FLAGS)), Field(1, 3, Number(RC_MSG_ID_EPOCH)), Field(4, 4, Number(RC_MSG_ID_ID))
  ]
  const HELLO_FIELDS: seq<Field> := [
    Field(0, 4, Number(RC_HELLO_SRC_INSTANCE)), Field(4, 4, Number(RC_HELLO_DST_INSTANCE))
  ]
  const SONETSDH_FIELDS: seq<Field> := [
    Field(0, 1, Number(RC_SSDH_SIGNAL_TYPE)), Field(1, 1, Number(RC_SSDH_RCC)), Field(2, 2, Number(RC_SSDH_NCC)),
    Field(4, 2, Number(RC_SSDH_NVC)), Field(6, 2, Number(RC_SSDH_MULTIPLIER)),
      Field(8, 4, Number(RC_SSDH_TRANSPARENCY)),
    Field(12, 4, Number(RC_SSDH_PROFILE))
  ]
  const ETHERNET_FIELDS: seq<Field> := [
    Field(0, 2, Narrowed(RC_ETHERNET_SW_GRANUALITY)), Field(2, 6, Octets([0x05, 0xEE, 0, 129, 0, 24])),
    Field(8, 1, Number(RC_ETHERNET_PROFILE)), Field(9, 1, Number(RC_ETHERNET_INDEX)), Field(10, 2, Octets([0, 0])),
    Field(12, 4, Rate(RC_ETHERNET_CIR)), Field(16, 4, Rate(RC_ETHERNET_CBS)), Field(20, 4, Rate(RC_ETHERNET_EIR)),
    Field(24, 4, Rate(RC_ETHERNET_EBS))
  ]

  /** The token bucket of a controlled load or guaranteed service, behind its three header words. */
  function TokenFields(service: byte, words: byte): seq<Field>
    requires words < 255
  {
    [Field(0, 12, Octets([0, 0, 0, words + 1, service, 0, 0, words, 127, 0, 0, 5])),
     Field(12, 4, Rate(RC_TOKEN_BUCKET_RATE)), Field(16, 4, Rate(RC_TOKEN_BUCKET_SIZE)),
     Field(20, 4, Rate(RC_PEAK_DATA_RATE)), Field(24, 4, Number(RC_MINIMUM_POLICED_UNIT)),
     Field(28, 4, Number(RC_MAXIMUM_PACKET_SIZE))]
  }

  /** The objects of fixed layout. */
  function Drawn(c: ObjectClass, conf: Store): Option<Drawing> {
    match c
    case SessionOif => Some(Drawing(1, 11, 12, SESSION_FIELDS))
    case SessionIetf => Some(Drawing(1, 7, 12, SESSION_FIELDS))
    case Ipv4RsvpHop => Some(Drawing(3, 1, 8,
      [Field(0, 4, Address(RC_CONTROL_OUT_IF_ADDR)), Field(4, 4, Number(RC_CONTROL_OUT_IF_HANDLE))]))
    case Ipv4IfIdRsvpHop =>
      if RC_DATA_OUT_IF_HANDLE !in conf then None
      else Some(Drawing(3, 3, 20,
        [Field(0, 4, Address(RC_CONTROL_OUT_IF_ADDR)), Field(4, 4, Octets([0, 0, 0, 0])),
         Field(8, 4, Octets([0, 3, 0, 12])), Field(12, 4, Address(RC_DATA_OUT_IF_ADDR)),
         Field(16, 4, Number(RC_DATA_OUT_IF_HANDLE))]))
    case TimeValues => Some(Drawing(5, 1, 4, [Field(0, 4, Number(RC_REFRESH_PERIOD))]))
    case ErrorSpec => Some(Drawing(6, 1, 8,
      [Field(0, 4, Address(RC_ERROR_NODE_ADDR)), Field(4, 1, Number(RC_ERROR_FLAGS)),
       Field(5, 1, Number(RC_ERROR_CODE)), Field(6, 2, Number(RC_ERROR_VALUE))]))
    case TokenFlowspec =>
      if Guaranteed(conf) then Some(Drawing(9, 2, 44, TokenFields(2, 9)
        + [Field(32, 4, Octets([130, 0, 0, 2])), Field(36, 4, Rate(RC_RATE)), Field(40, 4, Number(RC_SLACK_TERM))]))
      else Some(Drawing(9, 2, 32, TokenFields(5, 6)))
    case SonetsdhFlowspec => Some(Drawing(9, 4, 16, SONETSDH_FIELDS))
    case EthernetFlowspec => Some(Drawing(9, 6, 28, ETHERNET_FIELDS))
    case FilterSpec => Some(Drawing(10, 7, 8,
      [Field(0, 4, Address(RC_FILTER_SRC_ADDR)), Field(4, 2, Octets([0, 0])), Field(6, 2, Number(RC_FILTER_SRC_PORT))]))
    case SenderTemplate => Some(Drawing(11, 7, 8,
      [Field(0, 4, Address(RC_SENDER_SRC_ADDR)), Field(4, 2, Octets([0, 0])), Field(6, 2, Number(RC_SENDER_SRC_ID))]))
    case TokenSenderTspec => Some(Drawing(12, 2, 32, TokenFields(1, 6)))
    case SonetsdhSenderTspec => Some(Drawing(12, 4, 16, SONETSDH_FIELDS))
    case EthernetSenderTspec => Some(Drawing(12, 6, 28, ETHERNET_FIELDS))
    case ResvConfirm => Some(Drawing(15, 1, 4, [Field(0, 4, Address(RC_RESV_CONFIRM_RECV_ADDR))]))
    case GeneralizedLabelRequest => Some(Drawing(19, 4, 4,
      [Field(0, 1, Number(RC_LSP_ENC_TYPE)), Field(1, 1, Number(RC_LSP_SWITCHING_TYPE)),
       Field(2, 2, Number(RC_LSP_GPID))]))
    case HelloRequest => Some(Drawing(22, 1, 8, HELLO_FIELDS))
    case HelloAck => Some(Drawing(22, 2, 8, HELLO_FIELDS))
    case MessageId => Some(Drawing(23, 1, 8, MESSAGE_ID_FIELDS))
    case MessageIdAck => Some(Drawing(24, 1, 8, MESSAGE_ID_FIELDS))
    case MessageIdNack => Some(Drawing(24, 2, 8, MESSAGE_ID_FIELDS))
    case UpstreamLabel => Some(Drawing(35, 2, 4, [Field(0, 4, Number(RC_UPSTREAM_LABEL))]))
    case RestartCap => Some(Drawing(131, 1, 8,
      [Field(0, 4, Number(RC_RESTART_TIME)), Field(4, 4, Number(RC_RECOVERY_TIME))]))
    case NotifyRequest => Some(Drawing(195, 1, 4, [Field(0, 4, Address(RC_NOTIFY_ADDRESS))]))
    case CallId1 => Some(Drawing(230, 1, 16,
      [Field(0, 1, Number(RC_CALL_ID_ADDR_TYPE)), Field(1, 3, Octets([0, 0, 0])),
       Field(4, 4, Address(RC_CALL_ID_SRC_TN_ADDR)), Field(8, 4, Number(RC_CALL_ID_LOCAL_ID1)),
       Field(12, 4, Number(RC_CALL_ID_LOCAL_ID2))]))
    case CallId2 => Some(Drawing(230, 2, 28,
      [Field(0, 1, Number(RC_CALL_ID_ADDR_TYPE)), Field(1, 3, Number(RC_CALL_ID_IS)),
       Field(4, 4, Number(RC_CALL_ID_ITU_CC1)), Field(8, 2, Number(RC_CALL_ID_ITU_CC2)),
       Field(10, 2, Number(RC_CALL_ID_UAPC1)), Field(12, 4, Number(RC_CALL_ID_UAPC2)),
       Field(16, 4, Address(RC_CALL_ID_SRC_TN_ADDR)), Field(20, 4, Number(RC_CALL_ID_LOCAL_ID1)),
       Field(24, 4, Number(RC_CALL_ID_LOCAL_ID2))]))
    case _ => None
  }

  // ---- The writers keep to the drawings

  /** The write puts the field in the message. */
  predicate Draws(w: Write, f: Field) {
    && WidthOf(w) == f.width
    && match f.content
       case Octets(bytes) => w == Lit(bytes)
       case Address(p) => w == Put(AddrC, p)
       case Rate(p) => w == Put(FloatC, p)
       case Narrowed(p) => w == Put(SignedCharC, p)
       case Number(p) => w.Put? && w.p == p && w.w in {IntC, ShortC, CharC, Low24C}
  }

  predicate AllDrawn(writes: seq<Write>, fields: seq<Field>) {
    |fields| <= |writes| && forall k :: 0 <= k < |fields| ==> Draws(writes[k], fields[k])
  }

  /** The fields follow each other without a gap and fill the body. */
  predicate Tiles(fields: seq<Field>, size: nat) {
    && fields != [] && fields[0].at == 0 && fields[|fields| - 1].at + fields[|fields| - 1].width == size
    && forall k :: 0 < k < |fields| ==> fields[k].at == fields[k - 1].at + fields[k - 1].width
  }

  lemma HeadingTile(c: ObjectClass, conf: Store)
    requires PartOf(c) in {Heading, Request} && Drawn(c, conf).Some?
    ensures Tiles(Drawn(c, conf).value.fields, Drawn(c, conf).value.size)
  {
  }

  lemma SenderTile(c: ObjectClass, conf: Store)
    requires PartOf(c) == Sender && Drawn(c, conf).Some?
    ensures Tiles(Drawn(c, conf).value.fields, Drawn(c, conf).value.size)
  {
  }

  lemma ReservationTile(c: ObjectClass, conf: Store)
    requires PartOf(c) == Reservation && !c.TokenFlowspec? && Drawn(c, conf).Some?
    ensures Tiles(Drawn(c, conf).value.fields, Drawn(c, conf).value.size)
  {
  }

  lemma TokenTile(service: byte, words: byte, rest: seq<Field>)
    requires words < 255
    requires rest in {[], [Field(32, 4, Octets([130, 0, 0, 2])), Field(36, 4, Rate(RC_RATE)),
                           Field(40, 4, Number(RC_SLACK_TERM))]}
    ensures Tiles(TokenFields(service, words) + rest, if rest == [] then 32 else 44)
  {
  }

  lemma DrawingsTile(c: ObjectClass, conf: Store)
    requires Drawn(c, conf).Some?
    ensures Tiles(Drawn(c, conf).value.fields, Drawn(c, conf).value.size)
  {
    hide Tiles;
    match PartOf(c)
    case Heading => HeadingTile(c, conf);
    case Request => HeadingTile(c, conf);
    case Sender => SenderTile(c, conf);
    case Reservation =>
      if c.TokenFlowspec? {
        TokenTile(2, 9, [Field(32, 4, Octets([130, 0, 0, 2])), Field(36, 4, Rate(RC_RATE)),
                         Field(40, 4, Number(RC_SLACK_TERM))]);
        TokenTile(5, 6, []);
        assert TokenFields(5, 6) + [] == TokenFields(5, 6);
      } else {
        ReservationTile(c, conf);
      }
  }

  lemma HeadingDrawn(c: ObjectClass, conf: Store, list: seq<ObjectClass>)
    requires PartOf(c) == Heading && Inspectable(c, conf) && Drawn(c, conf).Some?
    ensures AllDrawn(WritesOf(c, conf, list), Drawn(c, conf).value.fields)
  {
  }

  lemma RequestDrawn(c: ObjectClass, conf: Store, list: seq<ObjectClass>)
    requires PartOf(c) == Request && Inspectable(c, conf) && Drawn(c, conf).Some?
    ensures AllDrawn(WritesOf(c, conf, list), Drawn(c, conf).value.fields)
  {
  }

  lemma SenderDrawn(c: ObjectClass, conf: Store, list: seq<ObjectClass>)
    requires PartOf(c) == Sender && !c.TokenSenderTspec? && Inspectable(c, conf) && Drawn(c, conf).Some?
    ensures AllDrawn(WritesOf(c, conf, list), Drawn(c, conf).value.fields)
  {
  }

  lemma ReservationDrawn(c: ObjectClass, conf: Store, list: seq<ObjectClass>)
    requires PartOf(c) == Reservation && !c.TokenFlowspec? && Inspectable(c, conf) && Drawn(c, conf).Some?
    ensures AllDrawn(WritesOf(c, conf, list), Drawn(c, conf).value.fields)
  {
  }

  lemma DrawnJoin(a: seq<Write>, b: seq<Write>, x: seq<Field>, y: seq<Field>)
    requires AllDrawn(a, x) && |a| == |x| && AllDrawn(b, y)
    ensures AllDrawn(a + b, x + y)
  {
    forall k | 0 <= k < |x + y|
      ensures Draws((a + b)[k], (x + y)[k])
    {
      if k >= |x| { assert Draws(b[k - |x|], y[k - |x|]); } else { assert Draws(a[k], x[k]); }
    }
  }

  lemma TokenDrawn(head: seq<byte>, service: byte, words: byte)
    requires words < 255 && head == [0, 0, 0, words + 1, service, 0, 0, words, 127, 0, 0, 5]
    ensures AllDrawn([Lit(head)] + TSPEC_PARAMETERS, TokenFields(service, words))
  {
  }

  lemma TspecDrawn(conf: Store, list: seq<ObjectClass>)
    requires Inspectable(TokenSenderTspec, conf)
    ensures AllDrawn(WritesOf(TokenSenderTspec, conf, list), Drawn(TokenSenderTspec, conf).value.fields)
  {
    TokenDrawn(CONTROLLED_LOAD_TSPEC, 1, 6);
  }

  lemma FlowspecDrawn(conf: Store, list: seq<ObjectClass>)
    requires Inspectable(TokenFlowspec, conf)
    ensures AllDrawn(WritesOf(TokenFlowspec, conf, list), Drawn(TokenFlowspec, conf).value.fields)
  {
    TokenDrawn(CONTROLLED_LOAD_FLOWSPEC, 5, 6);
    TokenDrawn(GUARANTEED_FLOWSPEC, 2, 9);
    var rest, fields := [Lit(GUARANTEED_RSPEC), Put(FloatC, RC_RATE), Put(IntC, RC_SLACK_TERM)],
      [Field(32, 4, Octets([130, 0, 0, 2])), Field(36, 4, Rate(RC_RATE)), Field(40, 4, Number(RC_SLACK_TERM))];
    assert AllDrawn(rest, fields);
    hide AllDrawn;
    DrawnJoin([Lit(GUARANTEED_FLOWSPEC)] + TSPEC_PARAMETERS, rest, TokenFields(2, 9), fields);
  }

  lemma EveryoneDrawn(c: ObjectClass, conf: Store, list: seq<ObjectClass>)
    requires Inspectable(c, conf) && Drawn(c, conf).Some?
    ensures AllDrawn(WritesOf(c, conf, list), Drawn(c, conf).value.fields)
  {
    hide AllDrawn;
    match PartOf(c)
    case Heading => HeadingDrawn(c, conf, list);
    case Request => RequestDrawn(c, conf, list);
    case Sender => if c.TokenSenderTspec? { TspecDrawn(conf, list); } else { SenderDrawn(c, conf, list); }
    case Reservation =>
      if c.TokenFlowspec? { FlowspecDrawn(conf, list); } else { ReservationDrawn(c, conf, list); }
  }

  lemma NumbersDrawn(c: ObjectClass, conf: Store, list: seq<ObjectClass>)
    requires Inspectable(c, conf) && Drawn(c, conf).Some?
    ensures NumbersOf(c).cnum == Drawn(c, conf).value.cnum && NumbersOf(c).ctnum == Drawn(c, conf).value.ctnum
    ensures DeclaredSize(c, conf, list) == Drawn(c, conf).value.size && !Silent(c)
  {
  }

  // ---- Positions

  lemma Behind(a: seq<byte>, b: seq<byte>, n: nat, w: nat)
    requires n + w <= |b|
    ensures (a + b)[|a| + n..|a| + n + w] == b[n..n + w] && (a + b)[..|a|] == a
  {
  }

  /** Where a write lands, whatever the floats before it look like. */
  lemma {:induction false} PieceAt(writes: seq<Write>, i: nat, k: nat, conf: Store, at: nat, junk: Stack)
    requires i <= k < |writes| && AllReadable(writes, conf)
    ensures Readable(writes[k], conf)
    ensures var n := WidthBefore(writes, i, k);
      n + WidthOf(writes[k]) <= |EmittedAs(writes, i, conf, at, junk)|
      && EmittedAs(writes, i, conf, at, junk)[n..n + WidthOf(writes[k])] == WrittenAs(writes[k], conf, junk(at + n))
    decreases k - i
  {
    hide WrittenAs;
    assert Readable(writes[i], conf) && Readable(writes[k], conf);
    var first, rest := WrittenAs(writes[i], conf, junk(at)),
      EmittedAs(writes, i + 1, conf, at + WidthOf(writes[i]), junk);
    if i < k {
      PieceAt(writes, i + 1, k, conf, at + WidthOf(writes[i]), junk);
      Behind(first, rest, WidthBefore(writes, i + 1, k), WidthOf(writes[k]));
    } else {
      Behind(first, rest, 0, 0);
    }
  }

  lemma {:induction false} TiledOffset(writes: seq<Write>, fields: seq<Field>, size: nat, k: nat)
    requires AllDrawn(writes, fields) && Tiles(fields, size) && k < |fields|
    ensures WidthBefore(writes, 0, k) == fields[k].at
  {
    if k > 0 {
      TiledOffset(writes, fields, size, k - 1);
      OneFurther(writes, 0, k - 1);
      assert Draws(writes[k - 1], fields[k - 1]);
    }
  }

  // ---- Values

  lemma ReadsShort(s: seq<byte>)
    requires |s| == 2
    ensures BigEndian(s) == FromNet16(s)
  {
    var a := s[..1];
    assert a == [s[0]] && a[..0] == [];
    assert BigEndian(a) == s[0];
  }

  lemma ReadsThree(s: seq<byte>)
    requires |s| == 3
    ensures BigEndian(s) == FromNet32([0] + s)
  {
    ReadsShort(s[..2]);
    var t := [0] + s;
    assert t[..2] == [0, s[0]] && t[2..] == [s[1], s[2]];
    assert s[..2] == [s[0], s[1]];
  }

  lemma ReadsWord(s: seq<byte>)
    requires |s| == 4
    ensures BigEndian(s) == FromNet32(s)
  {
    assert s[..3][..2] == s[..2];
    ReadsShort(s[..2]);
    assert s[2..] == [s[2], s[3]];
  }

  lemma NumberShown(w: Codec, v: Value)
    requires KindOf(v) == KindFor(w) && w in {IntC, ShortC, CharC, Low24C}
    ensures !v.Real? && |Encode(w, v)| == Width(w)
    ensures BigEndian(Encode(w, v)) == if Width(w) == 3 then NumberOf(v) % 0x100_0000 else NumberOf(v)
  {
    var s := Encode(w, v);
    match w
    case IntC => ReadsWord(s); Net32RoundTrip(v.i);
    case ShortC => ReadsShort(s); Net16RoundTrip(v.s);
    case CharC => assert s[..0] == [];
    case Low24C => ReadsThree(s); Low24Wired(v.i);
  }

  lemma WriteShows(w: Write, f: Field, conf: Store, junk: int)
    requires Readable(w, conf) && Draws(w, f)
    ensures Shows(WrittenAs(w, conf, junk), f.content, conf)
  {
    match f.content
    case Number(p) => NumberShown(w.w, conf[p][0]);
    case Narrowed(p) =>
      ReadsShort(WrittenAs(w, conf, junk));
      Net16RoundTrip(ThroughSignedChar(conf[p][0].s));
    case _ =>
  }

  // ---- Objects

  /** Section 3.1.2 of RFC 2205: the length of the whole object, the class and the type. */
  predicate Headed(bytes: seq<byte>, cnum: byte, ctnum: byte) {
    |bytes| >= 4 && BigEndian(bytes[..2]) == |bytes| && bytes[2] == cnum && bytes[3] == ctnum
  }

  lemma HeaderShown(size: nat, cnum: byte, ctnum: byte, body: seq<byte>)
    requires size == |body| && size + 4 < 0x1_0000
    ensures Headed(ObjHeader(size, cnum, ctnum) + body, cnum, ctnum)
    ensures (ObjHeader(size, cnum, ctnum) + body)[4..] == body
  {
    var bytes := ObjHeader(size, cnum, ctnum) + body;
    assert bytes[..2] == Net16((size + 4) % 0x1_0000);
    ReadsShort(bytes[..2]);
    Net16RoundTrip(size + 4);
  }

  lemma BodySize(c: ObjectClass, conf: Store, list: seq<ObjectClass>)
    requires Writable(c, conf, list) && Drawn(c, conf).Some?
    ensures WidthFrom(WritesOf(c, conf, list), 0) == Drawn(c, conf).value.size < 100
  {
    NumbersDrawn(c, conf, list);
    Framed(c, conf, list);
    EmittedWidth(WritesOf(c, conf, list), 0, conf);
  }

  lemma HeadedField(d: Drawing, writes: seq<Write>, conf: Store, at: nat, junk: Stack, k: nat, bytes: seq<byte>)
    requires AllReadable(writes, conf) && AllDrawn(writes, d.fields) && Tiles(d.fields, d.size) && k < |d.fields|
    requires WidthFrom(writes, 0) == d.size < 100
    requires bytes == ObjHeader(d.size, d.cnum, d.ctnum) + EmittedAs(writes, 0, conf, at, junk)
    ensures var f := d.fields[k];
      && Headed(bytes, d.cnum, d.ctnum) && |bytes| == 4 + d.size && f.at + f.width <= d.size
      && Shows(bytes[4 + f.at..4 + f.at + f.width], f.content, conf)
  {
    hide EmittedAs, Shows, AllDrawn, Tiles, Headed, AllReadable, WidthFrom;
    FieldAsDrawn(writes, d.fields, d.size, conf, at, junk, k);
    var body, f := EmittedAs(writes, 0, conf, at, junk), d.fields[k];
    HeaderShown(d.size, d.cnum, d.ctnum, body);
    Behind(ObjHeader(d.size, d.cnum, d.ctnum), body, f.at, f.width);
  }

  lemma BytesDrawn(c: ObjectClass, conf: Store, list: seq<ObjectClass>, at: nat, junk: Stack)
    requires Writable(c, conf, list) && Drawn(c, conf).Some?
    ensures var d, writes := Drawn(c, conf).value, WritesOf(c, conf, list);
      && AllReadable(writes, conf) && WidthFrom(writes, 0) == d.size < 100
      && ObjectBytesAs(c, conf, list, at, junk)
        == ObjHeader(d.size, d.cnum, d.ctnum) + EmittedAs(writes, 0, conf, at + 4, junk)
  {
    NumbersDrawn(c, conf, list);
    BodySize(c, conf, list);
    hide Drawn, WritesOf, DeclaredSize, EmittedAs, AllReadable, WidthFrom, NumbersOf, Inspectable, Silent;
  }

  /** An object of fixed layout, as the standard draws it: its length, class and type, and every field in its place. */
  lemma ObjectAsDrawn(c: ObjectClass, conf: Store, list: seq<ObjectClass>, at: nat, junk: Stack, k: nat)
    requires Writable(c, conf, list) && Drawn(c, conf).Some? && k < |Drawn(c, conf).value.fields|
    ensures var d := Drawn(c, conf).value; var f := d.fields[k]; var bytes := ObjectBytesAs(c, conf, list, at, junk);
      && Headed(bytes, d.cnum, d.ctnum) && |bytes| == 4 + d.size && f.at + f.width <= d.size
      && Shows(bytes[4 + f.at..4 + f.at + f.width], f.content, conf)
  {
    hide Drawn, WritesOf, EmittedAs, Shows, AllDrawn, Tiles, Headed, AllReadable, WidthFrom, ObjectBytesAs;
    BytesDrawn(c, conf, list, at, junk);
    EveryoneDrawn(c, conf, list);
    DrawingsTile(c, conf);
    HeadedField(Drawn(c, conf).value, WritesOf(c, conf, list), conf, at + 4, junk, k,
      ObjectBytesAs(c, conf, list, at, junk));
  }

  lemma FieldAsDrawn(writes: seq<Write>, fields: seq<Field>, size: nat, conf: Store, at: nat, junk: Stack, k: nat)
    requires AllReadable(writes, conf) && AllDrawn(writes, fields) && Tiles(fields, size) && k < |fields|
    requires WidthFrom(writes, 0) == size
    ensures var f, body := fields[k], EmittedAs(writes, 0, conf, at, junk);
      f.at + f.width <= |body| == size && Shows(body[f.at..f.at + f.width], f.content, conf)
  {
    hide EmittedAs, Shows;
    TiledOffset(writes, fields, size, k);
    PieceAt(writes, 0, k, conf, at, junk);
    assert Draws(writes[k], fields[k]);
    WriteShows(writes[k], fields[k], conf, junk(at + fields[k].at));
  }

  // ---- Objects that are drawn bit by bit, or of any length

  /** Section A.7 of RFC 2205: bits 3 and 4 of the option vector say whether reservations are distinct or shared, bits
      0 to 2 whether the senders are any or named. */
  const DISTINCT: nat := 1
  const SHARED: nat := 2
  const WILDCARD: nat := 1
  const EXPLICIT: nat := 2

  function SharingControl(octet: byte): nat {
    octet / 8 % 4
  }

  function SenderSelection(octet: byte): nat {
    octet % 8
  }

  /** The style by the first flag that is set: wildcard filter, fixed filter, shared explicit. */
  predicate SaysStyle(octet: byte, conf: Store) {
    && octet / 0x20 == 0
    && SharingControl(octet)
      == (if !IsSet(conf, RC_WILDCARD_FILTER) && IsSet(conf, RC_FIXED_FILTER) then DISTINCT else SHARED)
    && SenderSelection(octet) == (if IsSet(conf, RC_WILDCARD_FILTER) then WILDCARD else EXPLICIT)
  }

  lemma TwoPieces(conf: Store, a: Write, b: Write, at: nat, junk: Stack)
    requires a.Lit? && b.Lit?
    ensures AllReadable([a, b], conf) && EmittedAs([a, b], 0, conf, at, junk) == a.bytes + b.bytes
  {
    var writes := [a, b];
    assert EmittedAs(writes, 2, conf, at + WidthOf(a) + WidthOf(b), junk) == [];
    assert EmittedAs(writes, 1, conf, at + WidthOf(a), junk) == b.bytes + [];
  }

  lemma StyleBytes(conf: Store, list: seq<ObjectClass>, at: nat, junk: Stack)
    requires Writable(Style, conf, list)
    ensures ObjectBytesAs(Style, conf, list, at, junk)
      == ObjHeader(4, 8, 1) + EmittedAs([Lit([0, 0, 0]), Lit(StyleOctet(conf))], 0, conf, at + 4, junk)
    ensures AllReadable([Lit([0, 0, 0]), Lit(StyleOctet(conf))], conf)
  {
    assert WritesOf(Style, conf, list) == [Lit([0, 0, 0]), Lit(StyleOctet(conf))];
    hide EmittedAs, StyleOctet;
  }

  lemma StyleAsDrawn(conf: Store, list: seq<ObjectClass>, at: nat, junk: Stack)
    requires Writable(Style, conf, list)
    requires IsSet(conf, RC_WILDCARD_FILTER) || IsSet(conf, RC_FIXED_FILTER) || IsSet(conf, RC_SHARED_EXPLICIT)
    ensures var bytes := ObjectBytesAs(Style, conf, list, at, junk);
      |bytes| == 8 && Headed(bytes, 8, 1) && bytes[4..7] == [0, 0, 0] && SaysStyle(bytes[7], conf)
  {
    hide Writable, ObjectBytesAs, EmittedAs, Headed, AllReadable;
    StyleBytes(conf, list, at, junk);
    TwoPieces(conf, Lit([0, 0, 0]), Lit(StyleOctet(conf)), at + 4, junk);
    HeaderShown(4, 8, 1, [0, 0, 0] + StyleOctet(conf));
    var bytes := ObjectBytesAs(Style, conf, list, at, junk);
    assert bytes[4..] == [0, 0, 0] + StyleOctet(conf);
  }

  lemma OnePiece(conf: Store, w: Write, at: nat, junk: Stack)
    requires Readable(w, conf)
    ensures AllReadable([w], conf) && EmittedAs([w], 0, conf, at, junk) == WrittenAs(w, conf, junk(at))
  {
    assert EmittedAs([w], 1, conf, at + WidthOf(w), junk) == [];
    assert WrittenAs(w, conf, junk(at)) + [] == WrittenAs(w, conf, junk(at));
  }

  /** Section 7.1 of RFC 3473: the R flag is the top bit of the word, T, A and D are the lowest three, the others are
      zero. */
  lemma StatusAsDrawn(conf: Store, list: seq<ObjectClass>, at: nat, junk: Stack)
    requires Writable(AdminStatus, conf, list)
    ensures var bytes := ObjectBytesAs(AdminStatus, conf, list, at, junk);
      && |bytes| == 8 && Headed(bytes, 196, 1) && HasChar(conf, RC_ADMIN_STATUS_RTAD_FLAGS)
      && var flags := conf[RC_ADMIN_STATUS_RTAD_FLAGS][0].c;
         BigEndian(bytes[4..]) == (if flags / 8 % 2 == 1 then 0x8000_0000 else 0) + flags % 8
  {
    var w := Put(StatusC, RC_ADMIN_STATUS_RTAD_FLAGS);
    assert WritesOf(AdminStatus, conf, list) == [w];
    assert AllReadable([w], conf) && Readable([w][0], conf);
    OnePiece(conf, w, at + 4, junk);
    var body := WrittenAs(w, conf, junk(at + 4));
    HeaderShown(4, 196, 1, body);
    ReadsWord(body);
  }

  lemma LabelBytes(conf: Store, list: seq<ObjectClass>, at: nat, junk: Stack)
    requires Writable(GeneralizedLabel, conf, list)
    ensures HasBlock(conf, RC_LABEL)
    ensures var block := conf[RC_LABEL][0].bytes; var n := |block|;
      ObjectBytesAs(GeneralizedLabel, conf, list, at, junk)
      == ObjHeader(n + Padding(n), 16, 2) + (block + Zeros(Padding(n)))
  {
    var block := conf[RC_LABEL][0].bytes;
    var w := Lit(block + Zeros(Padding(|block|)));
    assert WritesOf(GeneralizedLabel, conf, list) == [w];
    OnePiece(conf, w, at + 4, junk);
    hide EmittedAs, Zeros, Padding;
  }

  lemma AllZero(n: nat)
    ensures |Zeros(n)| == n && forall i :: 0 <= i < n ==> Zeros(n)[i] == 0
  {
  }

  lemma Padded(block: seq<byte>, bytes: seq<byte>, zeros: seq<byte>)
    requires |bytes| >= 4 && bytes[4..] == block + zeros && forall i :: 0 <= i < |zeros| ==> zeros[i] == 0
    ensures bytes[4..4 + |block|] == block && forall i :: 4 + |block| <= i < |bytes| ==> bytes[i] == 0
  {
    var body := bytes[4..];
    assert body[..|block|] == block;
    forall i | 4 + |block| <= i < |bytes|
      ensures bytes[i] == 0
    {
      assert bytes[i] == body[i - 4] == zeros[i - 4 - |block|];
    }
  }

  /** Section 2.3 of RFC 3473: a label is padded with zeros to whole words. */
  lemma LabelAsDrawn(conf: Store, list: seq<ObjectClass>, at: nat, junk: Stack)
    requires Writable(GeneralizedLabel, conf, list) && |conf[RC_LABEL][0].bytes| < 0xFFF0
    ensures HasBlock(conf, RC_LABEL)
    ensures var bytes, block := ObjectBytesAs(GeneralizedLabel, conf, list, at, junk), conf[RC_LABEL][0].bytes;
      && Headed(bytes, 16, 2) && |bytes| % 4 == 0 && |block| <= |bytes| - 4 < |block| + 4
      && bytes[4..4 + |block|] == block && forall i :: 4 + |block| <= i < |bytes| ==> bytes[i] == 0
  {
    hide Writable, ObjectBytesAs, Headed, Padding, Zeros;
    LabelBytes(conf, list, at, junk);
    var block := conf[RC_LABEL][0].bytes;
    PaddedWidth(|block|);
    ShortPadding(|block|);
    AllZero(Padding(|block|));
    HeaderShown(|block| + Padding(|block|), 16, 2, block + Zeros(Padding(|block|)));
    Padded(block, ObjectBytesAs(GeneralizedLabel, conf, list, at, junk), Zeros(Padding(|block|)));
  }

  /** Section 4.7.1 of RFC 3209: priorities, flags, the length of the name, and the name padded with zeros. */
  predicate SessionDrawn(body: seq<byte>, conf: Store)
    requires Inspectable(SessionAttribute, conf)
  {
    var name := conf[RC_SESSION_NAME][0].text;
    && |body| >= 4 + |name|
    && Shows(body[..1], Number(RC_SETUP_PRIORITY), conf) && Shows(body[1..2], Number(RC_HOLDING_PRIORITY), conf)
    && (body[2] % 2 == 1 <==> conf[RC_LOCAL_PROTECTION_FLAG][0].c != 0)
    && (body[2] / 2 % 2 == 1 <==> conf[RC_LABEL_RECORDING_FLAG][0].c != 0)
    && (body[2] / 4 % 2 == 1 <==> conf[RC_SE_STYLE_FLAG][0].c != 0) && body[2] / 8 == 0
    && body[3] == |name| % 0x100 && body[4..4 + |name|] == name
    && forall i :: 4 + |name| <= i < |body| ==> body[i] == 0
  }

  lemma SessionPlaces(writes: seq<Write>)
    requires |writes| == 8 && WidthOf(writes[0]) == WidthOf(writes[1]) == WidthOf(writes[2]) == WidthOf(writes[5]) == 1
    requires WidthOf(writes[3]) == WidthOf(writes[4]) == 0
    ensures WidthBefore(writes, 0, 0) == 0 && WidthBefore(writes, 0, 1) == 1 && WidthBefore(writes, 0, 2) == 2
    ensures WidthBefore(writes, 0, 5) == 3 && WidthBefore(writes, 0, 6) == 4
    ensures WidthBefore(writes, 0, 7) == 4 + WidthOf(writes[6])
    ensures WidthFrom(writes, 0) == 4 + WidthOf(writes[6]) + WidthOf(writes[7])
  {
    OneFurther(writes, 0, 0);
    OneFurther(writes, 0, 1);
    OneFurther(writes, 0, 2);
    OneFurther(writes, 0, 3);
    OneFurther(writes, 0, 4);
    OneFurther(writes, 0, 5);
    OneFurther(writes, 0, 6);
    WidthSum(writes);
  }

  /** Two characters, two octets with nothing between them, and two pieces of any length. */
  predicate SessionWidths(writes: seq<Write>) {
    && |writes| == 8 && WidthOf(writes[0]) == WidthOf(writes[1]) == WidthOf(writes[2]) == WidthOf(writes[5]) == 1
    && WidthOf(writes[3]) == WidthOf(writes[4]) == 0
    && forall i :: 2 <= i < 8 ==> writes[i].Lit?
  }

  lemma SessionHeadAt(conf: Store, writes: seq<Write>, at: nat, junk: Stack)
    requires SessionWidths(writes) && AllReadable(writes, conf)
    ensures var body := EmittedAs(writes, 0, conf, at, junk);
      && |body| >= 4 && Readable(writes[0], conf) && Readable(writes[1], conf)
      && body[..1] == WrittenAs(writes[0], conf, junk(at)) && body[1..2] == WrittenAs(writes[1], conf, junk(at + 1))
      && body[2..3] == writes[2].bytes && body[3..4] == writes[5].bytes
  {
    SessionPlaces(writes);
    hide EmittedAs, WrittenAs, AllReadable, WidthFrom, WidthBefore;
    PieceAt(writes, 0, 0, conf, at, junk);
    PieceAt(writes, 0, 1, conf, at, junk);
    PieceAt(writes, 0, 2, conf, at, junk);
    PieceAt(writes, 0, 5, conf, at, junk);
    LitWritten(writes[2], conf, junk(at + 2));
    LitWritten(writes[5], conf, junk(at + 3));
  }

  lemma SessionNameAt(conf: Store, writes: seq<Write>, at: nat, junk: Stack)
    requires SessionWidths(writes) && AllReadable(writes, conf)
    ensures var body := EmittedAs(writes, 0, conf, at, junk);
      && |body| == 4 + |writes[6].bytes| + |writes[7].bytes|
      && body[4..4 + |writes[6].bytes|] == writes[6].bytes && body[4 + |writes[6].bytes|..] == writes[7].bytes
  {
    SessionPlaces(writes);
    hide EmittedAs, WrittenAs, AllReadable, WidthFrom, WidthBefore;
    PieceAt(writes, 0, 6, conf, at, junk);
    PieceAt(writes, 0, 7, conf, at, junk);
    LitWritten(writes[6], conf, junk(at + 4));
    LitWritten(writes[7], conf, junk(at + (4 + |writes[6].bytes|)));
  }

  lemma SessionBody(conf: Store, at: nat, junk: Stack)
    requires Writable(SessionAttribute, conf, [])
    ensures var name := conf[RC_SESSION_NAME][0].text; var shown := |name| % 0x100;
      var body := EmittedAs(WritesOf(SessionAttribute, conf, []), 0, conf, at, junk);
      && Readable(Put(CharC, RC_SETUP_PRIORITY), conf) && Readable(Put(CharC, RC_HOLDING_PRIORITY), conf)
      && |body| == 4 + |name| + Padding(|name|)
      && body[..1] == Written(Put(CharC, RC_SETUP_PRIORITY), conf)
      && body[1..2] == Written(Put(CharC, RC_HOLDING_PRIORITY), conf)
      && body[2] == SessionFlags(conf) && body[3] == shown
      && body[4..4 + shown] == name[..shown] && body[4 + shown..] == name[shown..] + Zeros(Padding(|name|))
  {
    var writes := WritesOf(SessionAttribute, conf, []);
    var body := EmittedAs(writes, 0, conf, at, junk);
    assert Readable(writes[0], conf) && Readable(writes[1], conf);
    hide EmittedAs, SessionFlags, AllReadable;
    SessionHeadAt(conf, writes, at, junk);
    SessionNameAt(conf, writes, at, junk);
    assert body[2..3][0] == body[2] && body[3..4][0] == body[3];
  }

  lemma LitWritten(w: Write, conf: Store, junk: int)
    requires w.Lit?
    ensures Readable(w, conf) && WrittenAs(w, conf, junk) == w.bytes
  {
  }

  lemma Spliced(body: seq<byte>, name: seq<byte>, shown: nat, zeros: seq<byte>)
    requires shown <= |name| && |body| == 4 + |name| + |zeros|
    requires body[4..4 + shown] == name[..shown] && body[4 + shown..] == name[shown..] + zeros
    ensures body[4..4 + |name|] == name && body[4 + |name|..] == zeros
  {
    assert body[4..] == body[4..4 + shown] + body[4 + shown..];
    assert name == name[..shown] + name[shown..];
    assert body[4..] == name + zeros;
  }

  lemma SessionShown(conf: Store, body: seq<byte>)
    requires Inspectable(SessionAttribute, conf)
    requires Readable(Put(CharC, RC_SETUP_PRIORITY), conf) && Readable(Put(CharC, RC_HOLDING_PRIORITY), conf)
    requires var name := conf[RC_SESSION_NAME][0].text; var shown := |name| % 0x100;
      && |body| == 4 + |name| + Padding(|name|)
      && body[..1] == Written(Put(CharC, RC_SETUP_PRIORITY), conf)
      && body[1..2] == Written(Put(CharC, RC_HOLDING_PRIORITY), conf)
      && body[2] == SessionFlags(conf) && body[3] == shown
      && body[4..4 + shown] == name[..shown] && body[4 + shown..] == name[shown..] + Zeros(Padding(|name|))
    ensures SessionDrawn(body, conf)
  {
    hide SessionFlags;
    var name := conf[RC_SESSION_NAME][0].text;
    Spliced(body, name, |name| % 0x100, Zeros(Padding(|name|)));
    SessionNumbers(conf, body);
    forall i | 4 + |name| <= i < |body|
      ensures body[i] == 0
    {
      assert body[i] == body[4 + |name|..][i - 4 - |name|];
    }
  }

  lemma SessionBytes(conf: Store, list: seq<ObjectClass>, at: nat, junk: Stack)
    requires Writable(SessionAttribute, conf, list)
    ensures Writable(SessionAttribute, conf, [])
    ensures var n := |conf[RC_SESSION_NAME][0].text|;
      ObjectBytesAs(SessionAttribute, conf, list, at, junk)
      == ObjHeader(n + Padding(n) + 4, 207, 7) + EmittedAs(WritesOf(SessionAttribute, conf, []), 0, conf, at + 4, junk)
  {
    ListUnused(SessionAttribute, conf, list);
    hide EmittedAs, SessionFlags, Zeros;
  }

  lemma ShortPadding(n: nat)
    ensures Padding(n) < 4
  {
  }

  lemma SessionBodyDrawn(conf: Store, at: nat, junk: Stack)
    requires Writable(SessionAttribute, conf, [])
    ensures var body := EmittedAs(WritesOf(SessionAttribute, conf, []), 0, conf, at, junk);
      var n := |conf[RC_SESSION_NAME][0].text|;
      SessionDrawn(body, conf) && |body| == n + Padding(n) + 4 && |body| % 4 == 0 && |body| < n + 8
  {
    hide WritesOf, AllReadable, EmittedAs, SessionDrawn, SessionFlags, Written, Readable, Padding, Zeros;
    PaddedWidth(|conf[RC_SESSION_NAME][0].text|);
    ShortPadding(|conf[RC_SESSION_NAME][0].text|);
    SessionBody(conf, at, junk);
    SessionShown(conf, EmittedAs(WritesOf(SessionAttribute, conf, []), 0, conf, at, junk));
  }

  lemma SessionAsDrawn(conf: Store, list: seq<ObjectClass>, at: nat, junk: Stack)
    requires Writable(SessionAttribute, conf, list) && |conf[RC_SESSION_NAME][0].text| < 0xFFF0
    ensures var bytes := ObjectBytesAs(SessionAttribute, conf, list, at, junk);
      Headed(bytes, 207, 7) && |bytes| % 4 == 0 && SessionDrawn(bytes[4..], conf)
  {
    hide WritesOf, AllReadable, ObjectBytesAs, SessionDrawn, Headed, EmittedAs, Padding;
    SessionBytes(conf, list, at, junk);
    SessionBodyDrawn(conf, at + 4, junk);
    var body := EmittedAs(WritesOf(SessionAttribute, conf, []), 0, conf, at + 4, junk);
    HeaderShown(|body|, 207, 7, body);
  }

  lemma SessionNumbers(conf: Store, body: seq<byte>)
    requires Inspectable(SessionAttribute, conf) && |body| >= 4 && body[2] == SessionFlags(conf)
    requires Readable(Put(CharC, RC_SETUP_PRIORITY), conf) && Readable(Put(CharC, RC_HOLDING_PRIORITY), conf)
    requires body[..1] == Written(Put(CharC, RC_SETUP_PRIORITY), conf)
    requires body[1..2] == Written(Put(CharC, RC_HOLDING_PRIORITY), conf)
    ensures Shows(body[..1], Number(RC_SETUP_PRIORITY), conf) && Shows(body[1..2], Number(RC_HOLDING_PRIORITY), conf)
    ensures body[2] % 2 == 1 <==> conf[RC_LOCAL_PROTECTION_FLAG][0].c != 0
    ensures body[2] / 2 % 2 == 1 <==> conf[RC_LABEL_RECORDING_FLAG][0].c != 0
    ensures body[2] / 4 % 2 == 1 <==> conf[RC_SE_STYLE_FLAG][0].c != 0
    ensures body[2] / 8 == 0
  {
    NumberShown(CharC, conf[RC_SETUP_PRIORITY][0]);
    NumberShown(CharC, conf[RC_HOLDING_PRIORITY][0]);
  }

  /** Section 4.3.3.2 of RFC 3209: the loose bit and the type, the length, the address, the prefix length, and a
      zero. */
  predicate HopDrawn(sub: seq<byte>, hop: Value)
    requires hop.Block? && |hop.bytes| == ERO_SIZE
  {
    && |sub| == 8 && (sub[0] / 0x80 == 1 <==> hop.bytes[5] == 1) && sub[0] % 0x80 == 1 && sub[1] == 8
    && sub[2..6] == hop.bytes[..4] && sub[6] == hop.bytes[4] && sub[7] == 0
  }

  lemma {:induction false} HopOffset(hops: seq<Value>, i: nat)
    requires AllHops(hops) && i <= |hops|
    ensures WidthBefore(EroWrites(hops), 0, i) == 8 * i
  {
    if i > 0 {
      HopOffset(hops, i - 1);
      OneFurther(EroWrites(hops), 0, i - 1);
    }
  }

  lemma RouteWidths(hops: seq<Value>, i: nat)
    requires AllHops(hops) && i < |hops|
    ensures var writes := EroWrites(hops);
      && |writes| == |hops| && WidthFrom(writes, 0) == 8 * |hops| && WidthBefore(writes, 0, i) == 8 * i
      && writes[i] == Lit(HopBytes(hops[i])) && WidthOf(writes[i]) == 8
  {
    EroWidth(hops, 0);
    HopOffset(hops, i);
  }

  lemma RouteBody(conf: Store, hops: seq<Value>, at: nat, junk: Stack, i: nat)
    requires AllHops(hops) && AllReadable(EroWrites(hops), conf) && i < |hops|
    ensures var body := EmittedAs(EroWrites(hops), 0, conf, at, junk);
      |body| == 8 * |hops| && body[8 * i..8 * i + 8] == HopBytes(hops[i])
  {
    hide EmittedAs, EroWrites, HopBytes, AllReadable, WidthBefore, WidthFrom, WidthOf, WrittenAs;
    var writes := EroWrites(hops);
    RouteWidths(hops, i);
    PieceAt(writes, 0, i, conf, at, junk);
    LitWritten(writes[i], conf, junk(at + 8 * i));
  }

  lemma RouteAsDrawn(conf: Store, list: seq<ObjectClass>, at: nat, junk: Stack, i: nat)
    requires Writable(Ero, conf, list) && i < |conf[RC_ERO]| < 8000
    ensures HopsStored(conf)
    ensures var bytes := ObjectBytesAs(Ero, conf, list, at, junk);
      && Headed(bytes, 20, 1) && |bytes| == 4 + 8 * |conf[RC_ERO]|
      && HopDrawn(bytes[4 + 8 * i..12 + 8 * i], conf[RC_ERO][i])
  {
    var hops := conf[RC_ERO];
    assert WritesOf(Ero, conf, list) == EroWrites(hops) && DeclaredSize(Ero, conf, list) == 8 * |hops|;
    hide EmittedAs, EroWrites, HopDrawn, Headed, AllReadable, WritesOf, DeclaredSize;
    RouteBody(conf, hops, at + 4, junk, i);
    var body := EmittedAs(EroWrites(hops), 0, conf, at + 4, junk);
    HeaderShown(8 * |hops|, 20, 1, body);
    Behind(ObjHeader(8 * |hops|, 20, 1), body, 8 * i, 8);
    HopBytesDrawn(hops[i]);
  }

  lemma HopBytesDrawn(hop: Value)
    requires hop.Block? && |hop.bytes| == ERO_SIZE
    ensures HopDrawn(HopBytes(hop), hop)
  {
  }

  lemma NothingLeft(writes: seq<Write>, conf: Store)
    requires AllReadable(writes, conf)
    ensures EmittedFrom(writes, |writes|, conf) == []
  {
  }

  lemma SubobjectBytes(head: seq<byte>, w: Write, tail: seq<byte>, conf: Store)
    requires Readable(w, conf) && |head| == 4
    ensures AllReadable([Lit(head), w, Lit(tail)], conf) && AllReadable([Lit(head), w], conf)
    ensures Emission([Lit(head), w, Lit(tail)], conf) == head + (Written(w, conf) + tail)
    ensures Emission([Lit(head), w], conf) == head + Written(w, conf)
  {
    var long, short := [Lit(head), w, Lit(tail)], [Lit(head), w];
    NothingLeft(long, conf);
    NothingLeft(short, conf);
    assert EmittedFrom(long, 2, conf) == tail + [];
    assert EmittedFrom(long, 1, conf) == Written(w, conf) + tail;
    assert EmittedFrom(short, 1, conf) == Written(w, conf) + [];
  }

  /** The subobjects of GENERALIZED_UNI: length, the type and subtype that the class is listed under, and an address or
      a level padded with zeros. */
  lemma SubobjectAsDrawn(c: ObjectClass, conf: Store)
    requires c.GuSourceTnaAddress? || c.GuDestinationTnaAddress? || c.GuServiceLevel?
    requires AllReadable(SubWrites(c), conf)
    ensures var bytes := Emission(SubWrites(c), conf);
      && |bytes| == 8 && BigEndian(bytes[..2]) == 8 && bytes[3] == 1
      && bytes[2] == NumbersOf(c).scnum && bytes[3] == NumbersOf(c).sctnum
      && (c.GuSourceTnaAddress? ==> bytes[2] == 1 && Shows(bytes[4..], Address(RC_TNA_SRC_ADDR), conf))
      && (c.GuDestinationTnaAddress? ==> bytes[2] == 2 && Shows(bytes[4..], Address(RC_TNA_DST_ADDR), conf))
      && (c.GuServiceLevel? ==>
            bytes[2] == 5 && Shows(bytes[4..5], Number(RC_SERVICE_LEVEL), conf) && bytes[5..] == [0, 0, 0])
  {
    var writes := SubWrites(c);
    assert Readable(writes[1], conf);
    SubobjectBytes(writes[0].bytes, writes[1], [0, 0, 0], conf);
    hide Emission, AllReadable;
    assert writes[0].bytes[..2] == Net16(8);
    ReadsShort(Net16(8));
    if c.GuServiceLevel? { NumberShown(CharC, conf[RC_SERVICE_LEVEL][0]); }
  }

  // ---- In the message

  lemma Within(message: seq<byte>, at: nat, bytes: seq<byte>, from: nat, to: nat)
    requires LiesAt(message, at, bytes) && from <= to <= |bytes|
    ensures at + to <= |message| && message[at + from..at + to] == bytes[from..to]
  {
    var piece := message[at..at + |bytes|];
    assert piece == bytes;
    forall i | 0 <= i < to - from
      ensures message[at + from..at + to][i] == bytes[from..to][i]
    {
      assert piece[from + i] == message[at + from + i];
    }
  }

  lemma LiesLonger(a: seq<byte>, b: seq<byte>, at: nat, bytes: seq<byte>)
    requires LiesAt(a, at, bytes)
    ensures LiesAt(a + b, at, bytes)
  {
    assert (a + b)[at..at + |bytes|] == a[at..at + |bytes|];
  }

  lemma LiesLast(a: seq<byte>, bytes: seq<byte>)
    ensures LiesAt(a + bytes, |a|, bytes)
  {
  }

  /** The objects lie in the message one after the other. */
  lemma {:induction false} ObjectLies(list: seq<ObjectClass>, conf: Store, n: nat, junk: Stack, j: nat)
    requires CanWrite(list, conf) && j < n <= |list|
    ensures var at := |MessageAs(list, conf, j, junk)|;
      LiesAt(MessageAs(list, conf, n, junk), at, ObjectBytesAs(list[j], conf, list, at, junk))
  {
    hide Writable, MessageAs, ObjectBytesAs, LiesAt;
    MessageStep(list, conf, n - 1, junk);
    var at, before := |MessageAs(list, conf, j, junk)|, MessageAs(list, conf, n - 1, junk);
    var last := ObjectBytesAs(list[n - 1], conf, list, |before|, junk);
    if j < n - 1 {
      ObjectLies(list, conf, n - 1, junk, j);
      LiesLonger(before, last, at, ObjectBytesAs(list[j], conf, list, at, junk));
    } else {
      LiesLast(before, last);
    }
  }

  /** Whoever reads the message that `get_data` leaves by the standards finds every object of fixed layout, with every
      field in its place. */
  lemma MessageAsDrawn(list: seq<ObjectClass>, conf: Store, junk: Stack, j: nat, k: nat)
    requires CanWrite(list, conf) && j < |list| && Drawn(list[j], conf).Some?
    requires k < |Drawn(list[j], conf).value.fields|
    ensures var message, at := MessageAs(list, conf, |list|, junk), |MessageAs(list, conf, j, junk)|;
      var d := Drawn(list[j], conf).value; var f := d.fields[k];
      && at + 4 + d.size <= |message| && f.at + f.width <= d.size
      && Headed(message[at..at + 4 + d.size], d.cnum, d.ctnum)
      && Shows(message[at + 4 + f.at..at + 4 + f.at + f.width], f.content, conf)
  {
    hide Drawn, MessageAs, ObjectBytesAs, Shows, Headed, LiesAt, Writable;
    var message, at := MessageAs(list, conf, |list|, junk), |MessageAs(list, conf, j, junk)|;
    var d := Drawn(list[j], conf).value;
    var f := d.fields[k];
    ObjectLies(list, conf, |list|, junk, j);
    ObjectAsDrawn(list[j], conf, list, at, junk, k);
    var bytes := ObjectBytesAs(list[j], conf, list, at, junk);
    Within(message, at, bytes, 0, 4 + d.size);
    Within(message, at, bytes, 4 + f.at, 4 + f.at + f.width);
    assert bytes[0..4 + d.size] == bytes;
  }

  /** And the style it was set to. */
  lemma StyleInMessage(list: seq<ObjectClass>, conf: Store, junk: Stack, j: nat)
    requires CanWrite(list, conf) && j < |list| && list[j].Style?
    requires IsSet(conf, RC_WILDCARD_FILTER) || IsSet(conf, RC_FIXED_FILTER) || IsSet(conf, RC_SHARED_EXPLICIT)
    ensures var message, at := MessageAs(list, conf, |list|, junk), |MessageAs(list, conf, j, junk)|;
      && at + 8 <= |message| && Headed(message[at..at + 8], 8, 1)
      && message[at + 4..at + 7] == [0, 0, 0] && SaysStyle(message[at + 7], conf)
  {
    hide MessageAs, ObjectBytesAs, SaysStyle, Headed, LiesAt, CanWrite;
    var message, at := MessageAs(list, conf, |list|, junk), |MessageAs(list, conf, j, junk)|;
    ObjectLies(list, conf, |list|, junk, j);
    assert Writable(Style, conf, list) by { assert Writable(list[j], conf, list); }
    StyleAsDrawn(conf, list, at, junk);
    var bytes := ObjectBytesAs(Style, conf, list, at, junk);
    Within(message, at, bytes, 0, 8);
    Within(message, at, bytes, 4, 7);
    Within(message, at, bytes, 7, 8);
    assert bytes[0..8] == bytes && bytes[7..8][0] == bytes[7] && message[at + 7..at + 8][0] == message[at + 7];
  }
}
