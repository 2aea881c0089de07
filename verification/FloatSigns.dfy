/** The sign that `write_ieee_float` never sets for a positive value (see `Binary32.WriteIeeeFloat`), through a whole
    message. What the stack held when the float at an offset of the message was written is `junk(offset)`. */
module FloatSigns {
  import opened Bytes
  import opened Binary32
  import opened Parameters
  import opened Configuration
  import opened WireFormats
  import opened ObjectList
  import opened ObjectFormats
  import opened ObjectRoundTrips
  import opened ObjectRecovery
  import opened ObjectFidelity
  import opened MessagePieces
  import opened RsvpMessage
  import Headers

  type Stack = nat -> int

  /** The value whose bytes `add_float` leaves: infinity does not go through the encoder. */
  function FloatLeft(f: Float, junk: int): (left: Float)
    requires Standard(f)
    ensures Standard(left)
  {
    if f.Infinity? then f else Left(f, junk)
  }

  /** The bytes one write appends. */
  function WrittenAs(w: Write, conf: Store, junk: int): (s: seq<byte>)
    requires Readable(w, conf)
    ensures |s| == WidthOf(w)
  {
    if w.Put? && w.w.FloatC? then FloatBytes(FloatLeft(conf[w.p][0].f, junk)) else Written(w, conf)
  }

  /** The bytes the writes from the i-th on append, the first of them at offset `at` of the message. */
  function EmittedAs(writes: seq<Write>, i: nat, conf: Store, at: nat, junk: Stack): (s: seq<byte>)
    requires i <= |writes| && AllReadable(writes, conf)
    ensures |s| == WidthFrom(writes, i)
    decreases |writes| - i
  {
    if i == |writes| then []
    else
      assert Readable(writes[i], conf);
      WrittenAs(writes[i], conf, junk(at)) + EmittedAs(writes, i + 1, conf, at + WidthOf(writes[i]), junk)
  }

  function ObjectBytesAs(c: ObjectClass, conf: Store, list: seq<ObjectClass>, at: nat, junk: Stack): seq<byte>
    requires Writable(c, conf, list)
  {
    if Silent(c) then []
    else
      ObjHeader(DeclaredSize(c, conf, list), NumbersOf(c).cnum, NumbersOf(c).ctnum)
      + EmittedAs(WritesOf(c, conf, list), 0, conf, at + 4, junk)
  }

  predicate CanWrite(list: seq<ObjectClass>, conf: Store) {
    forall i :: 0 <= i < |list| ==> Writable(list[i], conf, list)
  }

  /** What the first n turns of the loop of `get_data` have written. */
  function MessageAs(list: seq<ObjectClass>, conf: Store, n: nat, junk: Stack): seq<byte>
    requires CanWrite(list, conf) && n <= |list|
  {
    if n == 0 then []
    else
      var before := MessageAs(list, conf, n - 1, junk);
      before + ObjectBytesAs(list[n - 1], conf, list, |before|, junk)
  }

  // ---- The same bytes, from floats with other signs

  /** The configuration with its floats as the writes from the i-th on leave them. */
  function SentStore(writes: seq<Write>, i: nat, conf: Store, at: nat, junk: Stack): Store
    requires i <= |writes| && AllReadable(writes, conf)
    decreases |writes| - i
  {
    if i == |writes| then conf
    else
      var w, rest := writes[i], SentStore(writes, i + 1, conf, at + WidthOf(writes[i]), junk);
      assert Readable(w, conf);
      if w.Put? && w.w.FloatC? then rest[w.p := [Real(FloatLeft(conf[w.p][0].f, junk(at)))]] else rest
  }

  /** The k-th write is a float, and the only one of its parameter. */
  predicate FloatAt(writes: seq<Write>, k: nat) {
    k < |writes| && writes[k].Put? && writes[k].w.FloatC?
  }

  predicate FloatsOnce(writes: seq<Write>) {
    forall j, k :: 0 <= j < k < |writes| && FloatAt(writes, j) && FloatAt(writes, k) ==> writes[j].p != writes[k].p
  }

  /** The same but for the values of floats. */
  predicate SameButFloats(a: Store, b: Store) {
    a.Keys == b.Keys && forall p :: p in a ==> a[p] == b[p] || FloatsBoth(a[p], b[p])
  }

  predicate FloatsBoth(x: seq<Value>, y: seq<Value>) {
    && x != [] && |y| == 1 && x[0].Real? && y[0].Real? && Standard(y[0].f)
    && (y[0].f == Infinity(true) ==> x[0].f == Infinity(true))
  }

  lemma {:induction false} SentSame(writes: seq<Write>, i: nat, conf: Store, at: nat, junk: Stack)
    requires i <= |writes| && AllReadable(writes, conf)
    ensures SameButFloats(conf, SentStore(writes, i, conf, at, junk))
    decreases |writes| - i
  {
    if i < |writes| {
      assert Readable(writes[i], conf);
      SentSame(writes, i + 1, conf, at + WidthOf(writes[i]), junk);
    }
  }

  function WidthBefore(writes: seq<Write>, i: nat, k: nat): nat
    requires i <= k <= |writes|
    decreases k - i
  {
    if i == k then 0 else WidthOf(writes[i]) + WidthBefore(writes, i + 1, k)
  }

  /** What a float write leaves of its value. */
  lemma {:induction false} SentAt(writes: seq<Write>, i: nat, conf: Store, at: nat, junk: Stack, k: nat)
    requires i <= k && AllReadable(writes, conf) && FloatsOnce(writes) && FloatAt(writes, k)
    ensures Readable(writes[k], conf) && writes[k].p in SentStore(writes, i, conf, at, junk)
    ensures SentStore(writes, i, conf, at, junk)[writes[k].p]
            == [Real(FloatLeft(conf[writes[k].p][0].f, junk(at + WidthBefore(writes, i, k))))]
    decreases k - i
  {
    assert Readable(writes[k], conf);
    if i < k {
      assert Readable(writes[i], conf);
      if writes[i].Put? && writes[i].w.FloatC? { assert FloatAt(writes, i) && FloatAt(writes, k); }
      SentAt(writes, i + 1, conf, at + WidthOf(writes[i]), junk, k);
    }
  }

  lemma ReadableSame(w: Write, conf: Store, sent: Store)
    requires Readable(w, conf) && SameButFloats(conf, sent)
    ensures Readable(w, sent)
    ensures w.Put? && !w.w.FloatC? ==> sent[w.p] == conf[w.p]
  {
    if w.Put? { assert w.p in sent; }
  }

  lemma WrittenSent(writes: seq<Write>, i: nat, conf: Store, start: nat, junk: Stack)
    requires AllReadable(writes, conf) && FloatsOnce(writes) && i < |writes|
    ensures var sent := SentStore(writes, 0, conf, start, junk);
      && Readable(writes[i], conf) && Readable(writes[i], sent)
      && WrittenAs(writes[i], conf, junk(start + WidthBefore(writes, 0, i))) == Written(writes[i], sent)
  {
    assert Readable(writes[i], conf);
    SentSame(writes, 0, conf, start, junk);
    ReadableSame(writes[i], conf, SentStore(writes, 0, conf, start, junk));
    if FloatAt(writes, i) { SentAt(writes, 0, conf, start, junk, i); }
  }

  /** The bytes with the unset signs are those of the configuration that has the floats with these signs. */
  lemma {:induction false} EmittedSent(writes: seq<Write>, i: nat, conf: Store, start: nat, junk: Stack, sent: Store)
    requires i <= |writes| && AllReadable(writes, conf) && FloatsOnce(writes) && AllReadable(writes, sent)
    requires sent == SentStore(writes, 0, conf, start, junk)
    ensures EmittedAs(writes, i, conf, start + WidthBefore(writes, 0, i), junk) == EmittedFrom(writes, i, sent)
    decreases |writes| - i
  {
    if i < |writes| {
      WrittenSent(writes, i, conf, start, junk);
      OneFurther(writes, 0, i);
      EmittedSent(writes, i + 1, conf, start, junk, sent);
    }
  }

  lemma {:induction false} OneFurther(writes: seq<Write>, i: nat, k: nat)
    requires i <= k < |writes|
    ensures WidthBefore(writes, i, k + 1) == WidthBefore(writes, i, k) + WidthOf(writes[k])
    decreases k - i
  {
    if i < k { OneFurther(writes, i + 1, k); } else { assert WidthBefore(writes, k + 1, k + 1) == 0; }
  }

  // ---- Objects

  lemma EthernetOnce()
    ensures FloatsOnce(ETHERNET_WRITES)
  {
  }

  lemma TspecOnce(head: seq<byte>)
    ensures FloatsOnce([Lit(head)] + TSPEC_PARAMETERS)
    ensures FloatsOnce(
      [Lit(head)] + TSPEC_PARAMETERS + [Lit(GUARANTEED_RSPEC), Put(FloatC, RC_RATE), Put(IntC, RC_SLACK_TERM)])
  {
  }

  lemma TokenOnce(c: ObjectClass, conf: Store, list: seq<ObjectClass>)
    requires c.TokenSenderTspec? || c.TokenFlowspec?
    ensures FloatsOnce(WritesOf(c, conf, list))
  {
    hide FloatsOnce;
    TspecOnce(CONTROLLED_LOAD_TSPEC);
    TspecOnce(CONTROLLED_LOAD_FLOWSPEC);
    TspecOnce(GUARANTEED_FLOWSPEC);
  }

  lemma RatesOnce(c: ObjectClass, conf: Store, list: seq<ObjectClass>)
    requires HasRates(c)
    ensures FloatsOnce(WritesOf(c, conf, list))
  {
    hide FloatsOnce;
    if c.EthernetSenderTspec? || c.EthernetFlowspec? { EthernetOnce(); } else { TokenOnce(c, conf, list); }
  }

  lemma OnceEach(c: ObjectClass, conf: Store, list: seq<ObjectClass>)
    requires Inspectable(c, conf)
    ensures FloatsOnce(WritesOf(c, conf, list))
  {
    if HasRates(c) {
      RatesOnce(c, conf, list);
    } else if Straight(c) {
      Floatless(c, conf, list);
    } else if c.GeneralizedUni? {
      UniFloatless(list);
    }
  }

  lemma {:induction false} UniFloatless(list: seq<ObjectClass>)
    ensures NoFloats(UniWrites(list))
  {
    if list != [] { UniFloatless(list[1..]); }
  }

  /** What the writers inspect is no float. */
  lemma WritesSame(c: ObjectClass, conf: Store, sent: Store, list: seq<ObjectClass>)
    requires Inspectable(c, conf) && SameButFloats(conf, sent)
    ensures Inspectable(c, sent) && WritesOf(c, sent, list) == WritesOf(c, conf, list)
    ensures DeclaredSize(c, sent, list) == DeclaredSize(c, conf, list) && FrameGuard(c, sent) == FrameGuard(c, conf)
  {
  }

  /** The i-th object is written as if from this. */
  function SentConf(list: seq<ObjectClass>, conf: Store, i: nat, junk: Stack): Store
    requires CanWrite(list, conf) && i < |list|
  {
    SentStore(WritesOf(list[i], conf, list), 0, conf, |MessageAs(list, conf, i, junk)| + 4, junk)
  }

  function SentConfs(list: seq<ObjectClass>, conf: Store, junk: Stack): (confs: seq<Store>)
    requires CanWrite(list, conf)
    ensures |confs| == |list| && forall i :: 0 <= i < |list| ==> confs[i] == SentConf(list, conf, i, junk)
  {
    seq(|list|, i requires 0 <= i < |list| => SentConf(list, conf, i, junk))
  }

  lemma StillWritable(c: ObjectClass, conf: Store, sent: Store, list: seq<ObjectClass>)
    requires Writable(c, conf, list) && SameButFloats(conf, sent)
    ensures Writable(c, sent, list)
  {
    var writes := WritesOf(c, conf, list);
    WritesSame(c, conf, sent, list);
    hide WritesOf, SameButFloats;
    forall k | 0 <= k < |writes| ensures Readable(writes[k], sent) { ReadableSame(writes[k], conf, sent); }
  }

  lemma BytesAlike(c: ObjectClass, conf: Store, sent: Store, list: seq<ObjectClass>, at: nat, junk: Stack)
    requires Writable(c, conf, list) && Writable(c, sent, list) && AllReadable(WritesOf(c, conf, list), sent)
    requires WritesOf(c, sent, list) == WritesOf(c, conf, list)
    requires DeclaredSize(c, sent, list) == DeclaredSize(c, conf, list)
    requires EmittedAs(WritesOf(c, conf, list), 0, conf, at + 4, junk) == EmittedFrom(WritesOf(c, conf, list), 0, sent)
    ensures ObjectBytesAs(c, conf, list, at, junk) == ObjectBytes(c, sent, list)
  {
    hide WritesOf, DeclaredSize, EmittedAs, EmittedFrom, AllReadable;
  }

  lemma ObjectSent(c: ObjectClass, conf: Store, list: seq<ObjectClass>, at: nat, junk: Stack)
    requires Writable(c, conf, list)
    ensures var sent := SentStore(WritesOf(c, conf, list), 0, conf, at + 4, junk);
      && SameButFloats(conf, sent) && Writable(c, sent, list)
      && ObjectBytesAs(c, conf, list, at, junk) == ObjectBytes(c, sent, list)
  {
    hide WritesOf, DeclaredSize, SentStore, SameButFloats, EmittedAs, EmittedFrom, FloatsOnce, AllReadable, Inspectable;
    hide ObjectBytesAs, ObjectBytes, FrameGuard;
    var writes := WritesOf(c, conf, list);
    var sent := SentStore(writes, 0, conf, at + 4, junk);
    SentSame(writes, 0, conf, at + 4, junk);
    WritesSame(c, conf, sent, list);
    StillWritable(c, conf, sent, list);
    OnceEach(c, conf, list);
    EmittedSent(writes, 0, conf, at + 4, junk, sent);
    BytesAlike(c, conf, sent, list, at, junk);
  }

  lemma SentWritable(list: seq<ObjectClass>, conf: Store, junk: Stack)
    requires CanWrite(list, conf)
    ensures AllWritable(list, SentConfs(list, conf, junk))
  {
    forall i | 0 <= i < |list| ensures Writable(list[i], SentConf(list, conf, i, junk), list) {
      ObjectSent(list[i], conf, list, |MessageAs(list, conf, i, junk)|, junk);
    }
  }

  lemma {:induction false} Accumulates(sums: seq<seq<byte>>, parts: seq<seq<byte>>, n: nat)
    requires n <= |parts| && |sums| == |parts| + 1 && sums[0] == []
    requires forall i :: 0 <= i < |parts| ==> sums[i + 1] == sums[i] + parts[i]
    ensures sums[n] == Flatten(parts, n)
  {
    if n > 0 {
      Accumulates(sums, parts, n - 1);
      assert sums[n - 1 + 1] == sums[n - 1] + parts[n - 1];
    }
  }

  lemma MessageStep(list: seq<ObjectClass>, conf: Store, i: nat, junk: Stack)
    requires CanWrite(list, conf) && i < |list|
    ensures var before := MessageAs(list, conf, i, junk);
      MessageAs(list, conf, i + 1, junk) == before + ObjectBytesAs(list[i], conf, list, |before|, junk)
  {
  }

  function Sums(list: seq<ObjectClass>, conf: Store, junk: Stack): (sums: seq<seq<byte>>)
    requires CanWrite(list, conf)
    ensures |sums| == |list| + 1 && forall i :: 0 <= i <= |list| ==> sums[i] == MessageAs(list, conf, i, junk)
  {
    seq(|list| + 1, i requires 0 <= i <= |list| => MessageAs(list, conf, i, junk))
  }

  lemma TurnSent(list: seq<ObjectClass>, conf: Store, junk: Stack, i: nat, part: seq<byte>)
    requires CanWrite(list, conf) && i < |list| && Writable(list[i], SentConf(list, conf, i, junk), list)
    requires part == ObjectBytes(list[i], SentConf(list, conf, i, junk), list)
    ensures MessageAs(list, conf, i + 1, junk) == MessageAs(list, conf, i, junk) + part
  {
    hide WritesOf, ExpectedReads;
    MessageStep(list, conf, i, junk);
    ObjectSent(list[i], conf, list, |MessageAs(list, conf, i, junk)|, junk);
  }

  /** The message with the unset signs is the message of the configurations that have the floats with these signs. */
  lemma MessageSent(list: seq<ObjectClass>, conf: Store, junk: Stack)
    requires CanWrite(list, conf)
    ensures AllWritable(list, SentConfs(list, conf, junk))
    ensures MessageAs(list, conf, |list|, junk) == Message(list, SentConfs(list, conf, junk))
  {
    SentWritable(list, conf, junk);
    var parts, sums := MessageParts(list, SentConfs(list, conf, junk)), Sums(list, conf, junk);
    forall i | 0 <= i < |parts|
      ensures sums[i + 1] == sums[i] + parts[i]
    {
      TurnSent(list, conf, junk, i, parts[i]);
    }
    Accumulates(sums, parts, |list|);
  }

  // ---- Messages

  function Alike(list: seq<ObjectClass>, conf: Store): (confs: seq<Store>)
    ensures |confs| == |list| && forall i :: 0 <= i < |list| ==> confs[i] == conf
  {
    seq(|list|, _ => conf)
  }

  /** Every object of the list can be sent from this configuration. */
  predicate CanSend(list: seq<ObjectClass>, conf: Store) {
    CanWrite(list, conf) && StoreTyped(conf) && Sendable(list, Alike(list, conf))
  }

  lemma {:induction false} SameLengths(a: seq<Piece>, b: seq<Piece>, n: nat)
    requires |a| == |b| && n <= |a| && forall i :: 0 <= i < |a| ==> |a[i].bytes| == |b[i].bytes|
    ensures |Joined(a, n)| == |Joined(b, n)|
  {
    if n > 0 { SameLengths(a, b, n - 1); }
  }

  lemma ShapeKept(x: seq<Value>, y: seq<Value>, ty: ParamType)
    requires Shaped(x, ty) && (x == y || FloatsBoth(x, y))
    ensures Shaped(y, ty)
  {
  }

  lemma SentTyped(conf: Store, sent: Store)
    requires StoreTyped(conf) && SameButFloats(conf, sent)
    ensures StoreTyped(sent)
  {
    hide TypeOf, Shaped, FloatsBoth;
    forall p | p in sent
      ensures Shaped(sent[p], TypeOf(p))
    {
      assert Shaped(conf[p], TypeOf(p));
      ShapeKept(conf[p], sent[p], TypeOf(p));
    }
  }

  lemma ObjectLength(c: ObjectClass, conf: Store, list: seq<ObjectClass>)
    requires Writable(c, conf, list)
    ensures |ObjectBytes(c, conf, list)| == if Silent(c) then 0 else 4 + WidthFrom(WritesOf(c, conf, list), 0)
  {
    EmittedWidth(WritesOf(c, conf, list), 0, conf);
  }

  lemma SafeSent(c: ObjectClass, conf: Store, sent: Store, list: seq<ObjectClass>)
    requires Safe(c, conf, list) && SameButFloats(conf, sent) && Writable(c, sent, list)
    ensures Safe(c, sent, list) && |ObjectBytes(c, sent, list)| == |ObjectBytes(c, conf, list)|
  {
    WritesSame(c, conf, sent, list);
    ObjectLength(c, conf, list);
    ObjectLength(c, sent, list);
  }

  lemma SentSafe(list: seq<ObjectClass>, conf: Store, junk: Stack, i: nat)
    requires CanSend(list, conf) && i < |list|
    ensures Safe(list[i], SentConf(list, conf, i, junk), list) && StoreTyped(SentConf(list, conf, i, junk))
    ensures |ObjectBytes(list[i], SentConf(list, conf, i, junk), list)| == |ObjectBytes(list[i], conf, list)|
  {
    assert Safe(list[i], Alike(list, conf)[i], list);
    ObjectSent(list[i], conf, list, |MessageAs(list, conf, i, junk)|, junk);
    SafeSent(list[i], conf, SentConf(list, conf, i, junk), list);
    SentTyped(conf, SentConf(list, conf, i, junk));
  }

  /** What can be sent can be sent whatever the signs. */
  lemma SentSendable(list: seq<ObjectClass>, conf: Store, junk: Stack)
    requires CanSend(list, conf)
    ensures Sendable(list, SentConfs(list, conf, junk))
  {
    var confs := SentConfs(list, conf, junk);
    forall i | 0 <= i < |list|
      ensures Safe(list[i], confs[i], list) && StoreTyped(confs[i])
    {
      SentSafe(list, conf, junk, i);
    }
    RoomySent(list, conf, confs, Pieces(list, Alike(list, conf)), Pieces(list, confs), junk);
  }

  lemma PieceSent(list: seq<ObjectClass>, conf: Store, confs: seq<Store>, junk: Stack, i: nat)
    requires CanSend(list, conf) && confs == SentConfs(list, conf, junk) && AllSafe(list, confs) && i < |list|
    ensures |PieceOf(list, confs, i).bytes| == |PieceOf(list, Alike(list, conf), i).bytes|
  {
    SentSafe(list, conf, junk, i);
  }

  lemma RoomySent(list: seq<ObjectClass>, conf: Store, confs: seq<Store>, a: seq<Piece>, b: seq<Piece>, junk: Stack)
    requires CanSend(list, conf) && confs == SentConfs(list, conf, junk) && AllSafe(list, confs)
    requires a == Pieces(list, Alike(list, conf)) && b == Pieces(list, confs)
    ensures Roomy(b)
  {
    forall i | 0 <= i < |list|
      ensures |a[i].bytes| == |b[i].bytes| && a[i].overshoot == b[i].overshoot
    {
      PieceSent(list, conf, confs, junk, i);
    }
    RoomyAlike(a, b);
  }

  lemma RoomyAlike(a: seq<Piece>, b: seq<Piece>)
    requires Roomy(a) && |a| == |b|
    requires forall i :: 0 <= i < |a| ==> |a[i].bytes| == |b[i].bytes| && a[i].overshoot == b[i].overshoot
    ensures Roomy(b)
  {
    SameLengths(a, b, |a|);
    forall i | 0 <= i < |b|
      ensures |Joined(b, i + 1)| + b[i].overshoot <= |Joined(b, |b|)|
    {
      SameLengths(a, b, i + 1);
    }
  }

  /** Whatever the stack held, the receiver of the packet, behind any IP header, recovers the message type and what the
      objects leave, with the signs that were written. */
  lemma PacketArrives(ip: seq<byte>, list: seq<ObjectClass>, conf: Store, junk: Stack, msgType: byte)
    requires |ip| >= 20 && |ip| == ip[0] % 0x10 * 4
    requires CanSend(list, conf) && Headers.SumFits(MessageAs(list, conf, |list|, junk))
    ensures var body, confs := MessageAs(list, conf, |list|, junk), SentConfs(list, conf, junk);
      && |body| % 4 == 0 && Sendable(list, confs)
      && var buffer := ip + Headers.RsvpPacket(body, msgType);
      var packet := buffer[Headers.IpHeaderLength(buffer)..];
      && Headers.Accepted(packet) && packet[1] == msgType
      && ParseData(packet[Headers.HEADER_SIZE..], map[]) == Parsed(Received(list, confs, |list|))
  {
    var confs := SentConfs(list, conf, junk);
    MessageSent(list, conf, junk);
    SentSendable(list, conf, junk);
    PacketRecovers(ip, list, confs, msgType);
  }

  lemma IntactSent(c: ObjectClass, conf: Store, sent: Store)
    requires Inspectable(c, conf) && SameButFloats(conf, sent) && Intact(c, conf)
    ensures Inspectable(c, sent) && Intact(c, sent)
  {
    assert Rates(c, sent) == Rates(c, conf);
  }

  /** A parameter other than a float, carried and delivered by an object that keeps within its condition, arrives as it
      was sent, whatever the stack held. */
  lemma ArrivesAsSent(list: seq<ObjectClass>, conf: Store, junk: Stack, confs: seq<Store>, j: nat, p: Param)
    requires CanSend(list, conf) && confs == SentConfs(list, conf, junk) && AllSafe(list, confs)
    requires j < |list| && !Silent(list[j]) && Intact(list[j], conf)
    requires Inspectable(list[j], conf) && Carries(list[j], conf, list, p)
    requires p in conf && conf[p] != [] && !conf[p][0].Real? && (p in FLAGS ==> conf[p] != [Char(0)])
    requires Delivers(list, confs, j, p) && LastRoute(list, j + 1, p)
    ensures p in Received(list, confs, |list|) && Received(list, confs, |list|)[p] == conf[p]
  {
    var sent := SentConf(list, conf, j, junk);
    SentSendable(list, conf, junk);
    ObjectSent(list[j], conf, list, |MessageAs(list, conf, j, junk)|, junk);
    WritesSame(list[j], conf, sent, list);
    IntactSent(list[j], conf, sent);
    ArrivesIntact(list, confs, j, p);
  }

  /** The float survives: it is not minus infinity, and the sign at its write was set or is even. */
  predicate SignKept(values: seq<Value>, junk: int) {
    && values != [] && values[0].Real?
    && values[0].f != Infinity(true) && (values[0].f.Normal? && !values[0].f.negative ==> junk % 2 == 0)
  }

  lemma FloatReturns(f: Float, junk: int)
    requires Standard(f)
    ensures Wired(FloatC, FloatC, Real(FloatLeft(f, junk))) == Real(f) <==> SignKept([Real(f)], junk)
  {
    WiredValue(FloatC, Real(FloatLeft(f, junk)));
  }

  lemma FloatPlace(c: ObjectClass, conf: Store, list: seq<ObjectClass>, k: nat)
    requires HasRates(c) && FloatAt(WritesOf(c, conf, list), k)
    ensures WritesOf(c, conf, list)[k].p != RC_ERO
    ensures WritesOf(c, conf, list)[k] == Put(FloatC, WritesOf(c, conf, list)[k].p)
  {
    FloatsOf(c, conf, list);
    hide WritesOf;
  }

  lemma RateRecovered(c: ObjectClass, sent: Store, list: seq<ObjectClass>, k: nat)
    requires Whole(c, sent, list) && HasRates(c) && FloatAt(WritesOf(c, sent, list), k)
    ensures var p := WritesOf(c, sent, list)[k].p;
      && p != RC_ERO && Readable(Put(FloatC, p), sent)
      && p in Recovered(c, sent, list) && Recovered(c, sent, list)[p] == [Wired(FloatC, FloatC, sent[p][0])]
  {
    var writes, gets := WritesOf(c, sent, list), ExpectedReads(c, sent);
    assert Readable(writes[k], sent);
    FloatPlace(c, sent, list, k);
    hide WritesOf, ExpectedReads, Wired, RecoveredFrom;
    Corresponds(c, sent, list);
    MirroredClass(c, sent, list);
    assert gets[k] == Get(FloatC, writes[k].p);
    RecoveredAt(writes, gets, 0, sent, k);
  }

  /** The k-th write of the object is that of a rate or size. */
  predicate RateAt(c: ObjectClass, conf: Store, list: seq<ObjectClass>, k: nat, p: Param) {
    HasRates(c) && FloatAt(WritesOf(c, conf, list), k) && WritesOf(c, conf, list)[k].p == p
  }

  /** Where the k-th write of the j-th object goes. */
  function OffsetOf(list: seq<ObjectClass>, conf: Store, junk: Stack, j: nat, k: nat): nat
    requires CanWrite(list, conf) && j < |list| && k <= |WritesOf(list[j], conf, list)|
  {
    |MessageAs(list, conf, j, junk)| + 4 + WidthBefore(WritesOf(list[j], conf, list), 0, k)
  }

  lemma OneRate(conf: Store, p: Param)
    requires StoreTyped(conf) && Readable(Put(FloatC, p), conf)
    ensures p in conf && |conf[p]| == 1 && conf[p][0].Real? && Standard(conf[p][0].f)
  {
    FloatsAreScalars(p);
    assert Shaped(conf[p], TypeOf(p));
  }

  lemma RateOf(writes: seq<Write>, conf: Store, start: nat, junk: Stack, k: nat, p: Param)
    requires AllReadable(writes, conf) && StoreTyped(conf) && FloatsOnce(writes) && FloatAt(writes, k)
    requires writes[k].p == p
    ensures p in conf && |conf[p]| == 1 && conf[p][0].Real? && Standard(conf[p][0].f)
    ensures var sent := SentStore(writes, 0, conf, start, junk);
      p in sent && sent[p] == [Real(FloatLeft(conf[p][0].f, junk(start + WidthBefore(writes, 0, k))))]
  {
    SentAt(writes, 0, conf, start, junk, k);
    OneRate(conf, p);
  }

  lemma RateSent(c: ObjectClass, conf: Store, list: seq<ObjectClass>, start: nat, junk: Stack, k: nat, p: Param)
    requires Writable(c, conf, list) && StoreTyped(conf) && RateAt(c, conf, list, k, p)
    ensures p in conf && |conf[p]| == 1 && conf[p][0].Real? && Standard(conf[p][0].f)
    ensures var writes := WritesOf(c, conf, list); var sent := SentStore(writes, 0, conf, start, junk);
      p in sent && sent[p] == [Real(FloatLeft(conf[p][0].f, junk(start + WidthBefore(writes, 0, k))))]
  {
    RatesOnce(c, conf, list);
    RateOf(WritesOf(c, conf, list), conf, start, junk, k, p);
  }

  lemma RateBack(list: seq<ObjectClass>, conf: Store, junk: Stack, j: nat, k: nat, p: Param)
    requires CanSend(list, conf) && j < |list| && RateAt(list[j], conf, list, k, p)
    ensures var sent := SentConf(list, conf, j, junk);
      && Whole(list[j], sent, list) && p != RC_ERO && p in conf
      && p in Recovered(list[j], sent, list)
      && (Recovered(list[j], sent, list)[p] == conf[p] <==> SignKept(conf[p], junk(OffsetOf(list, conf, junk, j, k))))
  {
    hide WritesOf, Recovered, Wired, FloatLeft, WidthBefore, SignKept, StoreTyped, Sendable, MessageAs, SameButFloats;
    var sent := SentConf(list, conf, j, junk);
    RateSent(list[j], conf, list, |MessageAs(list, conf, j, junk)| + 4, junk, k, p);
    SentSafe(list, conf, junk, j);
    ObjectSent(list[j], conf, list, |MessageAs(list, conf, j, junk)|, junk);
    WritesSame(list[j], conf, sent, list);
    RateRecovered(list[j], sent, list, k);
    FloatReturns(conf[p][0].f, junk(OffsetOf(list, conf, junk, j, k)));
    assert conf[p] == [conf[p][0]];
  }

  /** A rate or size that the j-th object puts in the message with its k-th write, and delivers, arrives as it was sent
      exactly when it is not minus infinity, and not positive with an odd sign at that write. */
  lemma FloatArrives(list: seq<ObjectClass>, conf: Store, junk: Stack, confs: seq<Store>, j: nat, k: nat, p: Param)
    requires CanSend(list, conf) && confs == SentConfs(list, conf, junk) && AllSafe(list, confs)
    requires j < |list| && RateAt(list[j], conf, list, k, p) && Delivers(list, confs, j, p)
    ensures p in conf && p in Received(list, confs, |list|)
    ensures Received(list, confs, |list|)[p] == conf[p]
      <==> SignKept(conf[p], junk(OffsetOf(list, conf, junk, j, k)))
  {
    RateBack(list, conf, junk, j, k, p);
    DeliveredArrives(list, confs, j, p);
  }
}
