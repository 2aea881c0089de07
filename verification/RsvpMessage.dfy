/** Whole messages: `get_data` writes the object list, `parse_data` reads it back, and between them
    `make_rsvp_packet` and `parse_headers` add and check the common header. */
module RsvpMessage {
  import opened Bytes
  import opened Parameters
  import opened Configuration
  import opened WireFormats
  import opened ObjectList
  import opened ObjectFormats
  import opened ObjectRoundTrips
  import opened ObjectRecovery
  import opened ObjectFidelity
  import opened MessagePieces
  import Headers

  /** `parse_data`. */
  function ParseData(packet: seq<byte>, conf: Store): Parse {
    ParseObjects(ParseBody, packet, 0, conf)
  }

  /** What one turn of `get_data` appends. */
  function ObjectBytes(c: ObjectClass, conf: Store, list: seq<ObjectClass>): seq<byte>
    requires Writable(c, conf, list)
  {
    if Silent(c) then []
    else ObjHeader(DeclaredSize(c, conf, list), NumbersOf(c).cnum, NumbersOf(c).ctnum) + Body(c, conf, list)
  }

  /** Every object can be written, each from the configuration as its writer finds it. The configurations differ only
      in the signs of floats (see `FloatSigns`). */
  predicate AllWritable(list: seq<ObjectClass>, confs: seq<Store>) {
    |confs| == |list| && forall i :: 0 <= i < |list| ==> Writable(list[i], confs[i], list)
  }

  function MessageParts(list: seq<ObjectClass>, confs: seq<Store>): (parts: seq<seq<byte>>)
    requires AllWritable(list, confs)
    ensures |parts| == |list|
    ensures forall i :: 0 <= i < |list| ==> parts[i] == ObjectBytes(list[i], confs[i], list)
  {
    seq(|list|, i requires 0 <= i < |list| => ObjectBytes(list[i], confs[i], list))
  }

  /** The message that `get_data` returns. */
  function Message(list: seq<ObjectClass>, confs: seq<Store>): seq<byte>
    requires AllWritable(list, confs)
  {
    Flatten(MessageParts(list, confs), |list|)
  }

  // ---- The pieces that objects put in

  /** The object is silent, has no body, or is written whole with a length that fits its field. */
  predicate Safe(c: ObjectClass, conf: Store, list: seq<ObjectClass>) {
    && Writable(c, conf, list)
    && (Silent(c) || c.CallId0? || (Whole(c, conf, list) && DeclaredSize(c, conf, list) + 4 < 0x1_0000))
  }

  predicate AllSafe(list: seq<ObjectClass>, confs: seq<Store>) {
    |confs| == |list| && forall i :: 0 <= i < |list| ==> Safe(list[i], confs[i], list)
  }

  /** The first object from the i-th on that puts something in the message, if there is one. */
  function NextShown(list: seq<ObjectClass>, i: nat): (j: nat)
    requires i <= |list|
    ensures i <= j <= |list| && (j < |list| ==> !Silent(list[j])) && forall k :: i <= k < j ==> Silent(list[k])
    decreases |list| - i
  {
    if i == |list| || !Silent(list[i]) then i else NextShown(list, i + 1)
  }

  function HeaderOf(c: ObjectClass, conf: Store, list: seq<ObjectClass>): (s: seq<byte>)
    requires Writable(c, conf, list)
    ensures |s| == 4
  {
    ObjHeader(DeclaredSize(c, conf, list), NumbersOf(c).cnum, NumbersOf(c).ctnum)
  }

  /** The header of the object that follows the i-th in the message; none follows the last. */
  function HeaderAfter(list: seq<ObjectClass>, confs: seq<Store>, i: nat): (s: seq<byte>)
    requires AllSafe(list, confs) && i < |list|
    ensures s == [] || |s| == 4
  {
    var j := NextShown(list, i + 1);
    if j < |list| then
      assert Safe(list[j], confs[j], list);
      HeaderOf(list[j], confs[j], list)
    else []
  }

  /** A CALL_ID_0 has no body, so its parser reads the header of the object that follows. */
  function CallIdEffect(ahead: seq<byte>, acc: Store): Store
    requires ahead == [] || |ahead| == 4
  {
    if ahead == [] || RC_CALL_ID in acc then acc else acc[RC_CALL_ID := [Int(FromNet32(ahead))]]
  }

  /** What parsing the i-th object makes of what was there. */
  function EffectAt(list: seq<ObjectClass>, confs: seq<Store>, i: nat, acc: Store): Store
    requires AllSafe(list, confs) && i < |list|
  {
    var c := list[i];
    assert Safe(c, confs[i], list);
    if Silent(c) then acc
    else if c.CallId0? then CallIdEffect(HeaderAfter(list, confs, i), acc)
    else Effect(c, confs[i], list, acc)
  }

  /** What parsing the first n objects leaves in an empty configuration. */
  function Received(list: seq<ObjectClass>, confs: seq<Store>, n: nat): Store
    requires AllSafe(list, confs) && n <= |list|
  {
    if n == 0 then map[] else EffectAt(list, confs, n - 1, Received(list, confs, n - 1))
  }

  predicate IsHop(c: ObjectClass) {
    c.Ipv4IfIdRsvpHop? || c.Ipv4RsvpHop?
  }

  predicate HopBefore(list: seq<ObjectClass>, i: nat)
    requires i <= |list|
  {
    exists k :: 0 <= k < i && IsHop(list[k])
  }

  /** The bytes after the i-th object that its parser passes over: it does not get that far in a second hop. */
  function OvershootAt(list: seq<ObjectClass>, i: nat): nat
    requires i < |list|
  {
    if list[i].Ipv4IfIdRsvpHop? && !HopBefore(list, i) then 8 else 0
  }

  function PieceOf(list: seq<ObjectClass>, confs: seq<Store>, i: nat): Piece
    requires AllSafe(list, confs) && i < |list|
  {
    assert Safe(list[i], confs[i], list);
    Piece(ObjectBytes(list[i], confs[i], list), Received(list, confs, i), Received(list, confs, i + 1),
      OvershootAt(list, i), if list[i].CallId0? then HeaderAfter(list, confs, i) else [])
  }

  function Pieces(list: seq<ObjectClass>, confs: seq<Store>): (pieces: seq<Piece>)
    requires AllSafe(list, confs)
    ensures |pieces| == |list|
    ensures forall i :: 0 <= i < |list| ==> pieces[i] == PieceOf(list, confs, i)
  {
    seq(|list|, i requires 0 <= i < |list| => PieceOf(list, confs, i))
  }

  lemma ObjectAligned(c: ObjectClass, conf: Store, list: seq<ObjectClass>)
    requires Safe(c, conf, list)
    ensures |ObjectBytes(c, conf, list)| % 4 == 0
  {
    if c.CallId0? {
      assert Body(c, conf, list) == [];
    } else if !Silent(c) {
      Framed(c, conf, list);
      HeaderAligned(DeclaredSize(c, conf, list), NumbersOf(c).cnum, NumbersOf(c).ctnum, Body(c, conf, list));
    }
  }

  lemma HeaderAligned(size: nat, cnum: byte, ctnum: byte, body: seq<byte>)
    requires |body| % 4 == 0
    ensures |ObjHeader(size, cnum, ctnum) + body| % 4 == 0
  {
  }

  // ---- What was there stays

  lemma EffectAtAdds(list: seq<ObjectClass>, confs: seq<Store>, i: nat, acc: Store, p: Param)
    requires AllSafe(list, confs) && i < |list|
    ensures var r := EffectAt(list, confs, i, acc);
      p in acc ==> p in r && (r[p] == acc[p] || (list[i].Ero? && p == RC_ERO))
  {
    assert Safe(list[i], confs[i], list);
    if !Silent(list[i]) && !list[i].CallId0? { EffectAdds(list[i], confs[i], list, acc, p); }
  }

  /** After a hop its address is there, whichever brought it. */
  lemma HopMet(c: ObjectClass, conf: Store, list: seq<ObjectClass>, acc: Store)
    requires IsHop(c) && Whole(c, conf, list)
    ensures RC_CONTROL_OUT_IF_ADDR in Effect(c, conf, list, acc)
  {
    var writes, gets := WritesOf(c, conf, list), ExpectedReads(c, conf);
    Corresponds(c, conf, list);
    assert gets[0] == Get(AddrC, RC_CONTROL_OUT_IF_ADDR);
    FilledStep(writes, gets, 0, conf, acc);
    if RC_CONTROL_OUT_IF_ADDR !in acc {
      FilledKeeps(writes, gets, 1, conf, After(acc, writes[0], gets[0], conf), RC_CONTROL_OUT_IF_ADDR);
    }
  }

  /** What is there before the first object, after it, and so on. */
  function Stores(list: seq<ObjectClass>, confs: seq<Store>): (stores: seq<Store>)
    requires AllSafe(list, confs)
    ensures |stores| == |list| + 1 && forall n :: 0 <= n <= |list| ==> stores[n] == Received(list, confs, n)
  {
    seq(|list| + 1, n requires 0 <= n <= |list| => Received(list, confs, n))
  }

  predicate Lasts(before: Store, after: Store, p: Param, same: bool) {
    p in before ==> p in after && (same ==> after[p] == before[p])
  }

  lemma {:induction false} LastsOn(stores: seq<Store>, i: nat, n: nat, p: Param, same: bool)
    requires i <= n < |stores| && forall k :: i <= k < n ==> Lasts(stores[k], stores[k + 1], p, same)
    ensures Lasts(stores[i], stores[n], p, same)
    decreases n - i
  {
    if i < n {
      LastsOn(stores, i, n - 1, p, same);
      assert Lasts(stores[n - 1], stores[n - 1 + 1], p, same);
    }
  }

  /** No route is added to one from the i-th object on. */
  predicate LastRoute(list: seq<ObjectClass>, i: nat, p: Param) {
    p == RC_ERO ==> forall k :: i <= k < |list| ==> !list[k].Ero?
  }

  /** A parameter that has been added stays, and stays as it is if it is not a route that grows. */
  lemma Stays(list: seq<ObjectClass>, confs: seq<Store>, i: nat, n: nat, p: Param)
    requires AllSafe(list, confs) && i <= n <= |list|
    ensures Lasts(Received(list, confs, i), Received(list, confs, n), p, LastRoute(list, i, p))
  {
    var stores := Stores(list, confs);
    forall k | i <= k < n
      ensures Lasts(stores[k], stores[k + 1], p, LastRoute(list, i, p))
    {
      EffectAtAdds(list, confs, k, stores[k], p);
    }
    LastsOn(stores, i, n, p, LastRoute(list, i, p));
  }

  lemma HopTurn(list: seq<ObjectClass>, confs: seq<Store>, k: nat, acc: Store)
    requires AllSafe(list, confs) && k < |list| && IsHop(list[k])
    ensures RC_CONTROL_OUT_IF_ADDR in EffectAt(list, confs, k, acc)
  {
    hide Effect, Recovered;
    assert Safe(list[k], confs[k], list);
    HopMet(list[k], confs[k], list, acc);
  }

  lemma HopMetBefore(list: seq<ObjectClass>, confs: seq<Store>, k: nat, n: nat)
    requires AllSafe(list, confs) && k < n <= |list| && IsHop(list[k])
    ensures RC_CONTROL_OUT_IF_ADDR in Received(list, confs, n)
  {
    hide EffectAt;
    HopTurn(list, confs, k, Received(list, confs, k));
    Stays(list, confs, k + 1, n, RC_CONTROL_OUT_IF_ADDR);
  }

  // ---- Each piece is taken

  lemma CallIdTaken(piece: Piece)
    requires piece.bytes == ObjHeader(0, 230, 0) && |piece.ahead| == 4
    requires piece.after == CallIdEffect(piece.ahead, piece.before)
    ensures Taken(ParseBody, piece)
  {
    forall packet, at: nat
      ensures TakenAt(ParseBody, piece, packet, at)
    {
      if LiesAt(packet, at, piece.bytes) && LiesAt(packet, at + 4, piece.ahead) {
        HeaderThere(packet, at, 0, 230, 0);
        CallIdRead(packet, at + 4, piece.ahead, piece.before);
      }
    }
  }

  /** What `parse_230_0_0_0` makes of the four bytes it finds. */
  lemma CallIdRead(packet: seq<byte>, at: nat, ahead: seq<byte>, acc: Store)
    requires |ahead| == 4 && LiesAt(packet, at, ahead)
    ensures ParseBody(230, 0, packet, at, 0, acc) == Parsed(CallIdEffect(ahead, acc))
  {
    var get := Get(IntC, RC_CALL_ID);
    var step := ReadOne(get, packet, at, acc);
    if step.Next? { assert RunReads([get], 1, packet, step.at, step.store) == step; }
    assert RunReads([get], 0, packet, at, acc) == step;
  }

  lemma PieceTaken(list: seq<ObjectClass>, confs: seq<Store>, i: nat)
    requires AllSafe(list, confs) && i < |list| && StoreTyped(confs[i])
    requires list[i].CallId0? ==> HeaderAfter(list, confs, i) != []
    ensures Taken(ParseBody, PieceOf(list, confs, i))
  {
    var c, piece := list[i], PieceOf(list, confs, i);
    assert Safe(c, confs[i], list);
    if c.CallId0? {
      NoBody(confs[i], list);
      CallIdTaken(piece);
    } else if Silent(c) {
      SilentTaken(ParseBody, piece.before, piece.overshoot);
    } else {
      var content := ContentOf(c, confs[i], list, piece);
      BodyParses(list, confs, i, content);
      ObjectTaken(ParseBody, content);
    }
  }

  lemma NoBody(conf: Store, list: seq<ObjectClass>)
    requires Writable(CallId0, conf, list)
    ensures ObjectBytes(CallId0, conf, list) == ObjHeader(0, 230, 0)
  {
    assert Body(CallId0, conf, list) == [];
  }

  ghost function ContentOf(c: ObjectClass, conf: Store, list: seq<ObjectClass>, piece: Piece): (content: Content)
    requires Whole(c, conf, list)
    ensures |content.body| == DeclaredSize(c, conf, list)
  {
    Framed(c, conf, list);
    Content(NumbersOf(c).cnum, NumbersOf(c).ctnum, Body(c, conf, list), piece.before, piece.after, piece.overshoot)
  }

  lemma BodyParses(list: seq<ObjectClass>, confs: seq<Store>, i: nat, content: Content)
    requires AllSafe(list, confs) && i < |list| && Whole(list[i], confs[i], list) && StoreTyped(confs[i])
    requires content == ContentOf(list[i], confs[i], list, PieceOf(list, confs, i))
    ensures forall packet, at: nat :: BodyParsesAt(ParseBody, content, packet, at)
  {
    var c, conf, acc := list[i], confs[i], Received(list, confs, i);
    if HopBefore(list, i) {
      var k :| 0 <= k < i && IsHop(list[k]);
      HopMetBefore(list, confs, k, i);
    }
    assert Overshoot(c, acc) <= content.overshoot;
    forall packet, at: nat
      ensures BodyParsesAt(ParseBody, content, packet, at)
    {
      if LiesAt(packet, at, content.body) && at + |content.body| + content.overshoot <= |packet| {
        ObjectRecovers(c, conf, list, packet, at, acc);
      }
    }
  }

  // ---- The message theorem

  /** A CALL_ID_0 is followed by another object, whose header its parser reads. */
  predicate CallIdFollowed(list: seq<ObjectClass>) {
    forall i :: 0 <= i < |list| && list[i].CallId0? ==> NextShown(list, i + 1) < |list|
  }

  /** A message whose parsing ends: every object is safe, and after each follows what its parser passes over (eight
      bytes of a hop with interface data) or reads (the header after a CALL_ID_0). */
  predicate Sendable(list: seq<ObjectClass>, confs: seq<Store>) {
    && AllSafe(list, confs) && Roomy(Pieces(list, confs)) && CallIdFollowed(list)
    && forall i :: 0 <= i < |list| ==> StoreTyped(confs[i])
  }

  lemma HeaderStarts(list: seq<ObjectClass>, confs: seq<Store>, j: nat)
    requires AllSafe(list, confs) && j < |list| && !Silent(list[j])
    ensures Safe(list[j], confs[j], list) && HeaderOf(list[j], confs[j], list) <= PieceOf(list, confs, j).bytes
  {
    assert Safe(list[j], confs[j], list);
  }

  lemma SilentBetween(list: seq<ObjectClass>, confs: seq<Store>, i: nat, j: nat)
    requires AllSafe(list, confs) && i < j <= |list| && forall k :: i < k < j ==> Silent(list[k])
    ensures forall k :: i < k < j ==> Pieces(list, confs)[k].bytes == []
  {
    forall k | i < k < j
      ensures PieceOf(list, confs, k).bytes == []
    {
      assert Safe(list[k], confs[k], list);
    }
  }

  lemma {:induction false} HeaderForeseen(list: seq<ObjectClass>, confs: seq<Store>, pieces: seq<Piece>, i: nat, j: nat)
    requires AllSafe(list, confs) && pieces == Pieces(list, confs) && i < |list| && list[i].CallId0?
    requires j == NextShown(list, i + 1) < |list|
    ensures ForeseenAt(pieces, i, j)
  {
    SilentBetween(list, confs, i, j);
    HeaderStarts(list, confs, j);
  }

  lemma PiecesForeseen(list: seq<ObjectClass>, confs: seq<Store>, pieces: seq<Piece>)
    requires AllSafe(list, confs) && CallIdFollowed(list) && pieces == Pieces(list, confs)
    ensures Foreseen(pieces)
  {
    forall i | 0 <= i < |pieces|
      ensures pieces[i].ahead == [] || exists j: nat :: ForeseenAt(pieces, i, j)
    {
      assert pieces[i] == PieceOf(list, confs, i);
      if list[i].CallId0? { HeaderForeseen(list, confs, pieces, i, NextShown(list, i + 1)); }
    }
  }

  lemma MessageJoins(list: seq<ObjectClass>, confs: seq<Store>)
    requires AllSafe(list, confs)
    ensures AllWritable(list, confs) && Message(list, confs) == Joined(Pieces(list, confs), |list|)
    ensures |Message(list, confs)| % 4 == 0
  {
    forall i | 0 <= i < |list|
      ensures Writable(list[i], confs[i], list) && |ObjectBytes(list[i], confs[i], list)| % 4 == 0
    {
      assert Safe(list[i], confs[i], list);
      ObjectAligned(list[i], confs[i], list);
    }
    FlattenJoins(MessageParts(list, confs), Pieces(list, confs), |list|);
    FlattenAligned(MessageParts(list, confs), |list|);
  }

  lemma PiecesLinked(list: seq<ObjectClass>, confs: seq<Store>)
    requires AllSafe(list, confs)
    ensures Linked(Pieces(list, confs))
    ensures StoreAfter(Pieces(list, confs), |list|) == Received(list, confs, |list|)
  {
    var pieces := Pieces(list, confs);
    forall i | 0 <= i < |pieces|
      ensures pieces[i].before == StoreAfter(pieces, i)
    {
      if i > 0 { assert pieces[i - 1] == PieceOf(list, confs, i - 1); }
    }
  }

  /** Parsing what `get_data` wrote comes to an end, at the end of the packet, with what the objects leave one after the
      other. */
  lemma MessageRecovers(list: seq<ObjectClass>, confs: seq<Store>)
    requires Sendable(list, confs)
    ensures AllWritable(list, confs)
    ensures ParseData(Message(list, confs), map[]) == Parsed(Received(list, confs, |list|))
  {
    var pieces := Pieces(list, confs);
    MessageJoins(list, confs);
    forall i | 0 <= i < |list|
      ensures Taken(ParseBody, pieces[i])
    {
      PieceTaken(list, confs, i);
    }
    PiecesForeseen(list, confs, pieces);
    ForeseenSpaced(pieces);
    PiecesLinked(list, confs);
    PiecesParse(ParseBody, pieces, Message(list, confs));
  }

  /** The receiver of the packet, behind any IP header, recovers the message type and what the objects leave. */
  lemma PacketRecovers(ip: seq<byte>, list: seq<ObjectClass>, confs: seq<Store>, msgType: byte)
    requires |ip| >= 20 && |ip| == ip[0] % 0x10 * 4
    requires Sendable(list, confs) && AllWritable(list, confs) && Headers.SumFits(Message(list, confs))
    ensures var body := Message(list, confs);
      var buffer := ip + Headers.RsvpPacket(body, msgType);
      var packet := buffer[Headers.IpHeaderLength(buffer)..];
      && |body| % 4 == 0 && Headers.Accepted(packet) && packet[1] == msgType
      && ParseData(packet[Headers.HEADER_SIZE..], map[]) == Parsed(Received(list, confs, |list|))
  {
    MessageJoins(list, confs);
    Headers.HeadersRoundTrip(ip, Message(list, confs), msgType);
    MessageRecovers(list, confs);
  }

  // ---- What the receiver can rely on

  /** The j-th object is the first to bring the parameter, and its parser gets to it. */
  predicate Delivers(list: seq<ObjectClass>, confs: seq<Store>, j: nat, p: Param)
    requires AllSafe(list, confs) && j < |list|
  {
    p !in Received(list, confs, j) && p in Received(list, confs, j + 1)
  }

  lemma {:induction false} Delivery(list: seq<ObjectClass>, confs: seq<Store>, n: nat, p: Param) returns (j: nat)
    requires AllSafe(list, confs) && n <= |list| && p in Received(list, confs, n)
    ensures j < n && Delivers(list, confs, j, p)
  {
    hide EffectAt;
    j := n - 1;
    if p in Received(list, confs, n - 1) { j := Delivery(list, confs, n - 1, p); }
  }

  /** A parameter arrives exactly when some object delivers it. */
  lemma ArrivesExactly(list: seq<ObjectClass>, confs: seq<Store>, p: Param)
    requires AllSafe(list, confs)
    ensures p in Received(list, confs, |list|) <==> exists j :: 0 <= j < |list| && Delivers(list, confs, j, p)
  {
    hide Received;
    if p in Received(list, confs, |list|) { var j := Delivery(list, confs, |list|, p); }
    forall j | 0 <= j < |list| && Delivers(list, confs, j, p)
      ensures p in Received(list, confs, |list|)
    {
      Stays(list, confs, j + 1, |list|, p);
    }
  }

  /** An object none of whose parameters has been added before it delivers them all. */
  lemma UnmetDelivers(list: seq<ObjectClass>, confs: seq<Store>, j: nat, p: Param)
    requires AllSafe(list, confs) && j < |list| && Whole(list[j], confs[j], list)
    requires Unmet(list[j], confs[j], list, Received(list, confs, j)) && p in Recovered(list[j], confs[j], list)
    ensures Delivers(list, confs, j, p)
  {
    AddsWhole(list[j], confs[j], list, Received(list, confs, j));
  }

  /** The parameters the object is written from. */
  ghost predicate Carries(c: ObjectClass, conf: Store, list: seq<ObjectClass>, p: Param)
    requires Inspectable(c, conf)
  {
    var writes := WritesOf(c, conf, list);
    p in Consulted(c) || exists k :: 0 <= k < |writes| && writes[k].Put? && writes[k].p == p
  }

  /** What an object delivers arrives as that object carries it. */
  lemma DeliveredArrives(list: seq<ObjectClass>, confs: seq<Store>, j: nat, p: Param)
    requires AllSafe(list, confs) && j < |list| && Whole(list[j], confs[j], list)
    requires Delivers(list, confs, j, p) && LastRoute(list, j + 1, p)
    ensures p in Recovered(list[j], confs[j], list) && p in Received(list, confs, |list|)
    ensures Received(list, confs, |list|)[p] == Recovered(list[j], confs[j], list)[p]
  {
    EffectAdds(list[j], confs[j], list, Received(list, confs, j), p);
    Stays(list, confs, j + 1, |list|, p);
  }

  /** A parameter delivered by an object that keeps within its condition arrives as it was sent. */
  lemma ArrivesIntact(list: seq<ObjectClass>, confs: seq<Store>, j: nat, p: Param)
    requires Sendable(list, confs) && j < |list| && !Silent(list[j]) && Intact(list[j], confs[j])
    requires Safe(list[j], confs[j], list) && Carries(list[j], confs[j], list, p)
    requires p in confs[j] && (p in FLAGS ==> confs[j][p] != [Char(0)])
    requires Delivers(list, confs, j, p) && LastRoute(list, j + 1, p)
    ensures p in Received(list, confs, |list|) && Received(list, confs, |list|)[p] == confs[j][p]
  {
    if !list[j].CallId0? {
      Fidelity(list[j], confs[j], list);
      CarriedKept(list[j], confs[j], list, p);
      DeliveredArrives(list, confs, j, p);
    }
  }

  lemma CarriedKept(c: ObjectClass, conf: Store, list: seq<ObjectClass>, p: Param)
    requires Writable(c, conf, list) && FrameGuard(c, conf) && Kept(c, conf, list) && StoreTyped(conf)
    requires p in conf && Carries(c, conf, list, p) && (p in FLAGS ==> conf[p] != [Char(0)])
    ensures p in Recovered(c, conf, list) && Recovered(c, conf, list)[p] == conf[p]
  {
    assert SameMeaning(Recovered(c, conf, list), conf, p);
    assert Shaped(conf[p], TypeOf(p));
  }

  // ---- Parameters that one class alone brings

  predicate Avoids(gets: seq<Read>, p: Param) {
    forall i :: 0 <= i < |gets| && !gets[i].Skip? ==> gets[i].p != p
  }

  lemma HeadingAvoids(c: ObjectClass, conf: Store, p: Param)
    requires PartOf(c).Heading? && Straight(c) && Inspectable(c, conf) && p in {RC_ERO, RC_CALL_ID}
    ensures Avoids(ExpectedReads(c, conf), p)
  {
  }

  lemma RequestAvoids(c: ObjectClass, conf: Store, p: Param)
    requires PartOf(c).Request? && Straight(c) && Inspectable(c, conf) && p in {RC_ERO, RC_CALL_ID}
    ensures Avoids(ExpectedReads(c, conf), p)
  {
  }

  lemma SenderAvoids(c: ObjectClass, conf: Store, p: Param)
    requires PartOf(c).Sender? && Straight(c) && Inspectable(c, conf) && p in {RC_ERO, RC_CALL_ID}
    ensures Avoids(ExpectedReads(c, conf), p)
  {
  }

  lemma ReservationAvoids(c: ObjectClass, conf: Store, p: Param)
    requires PartOf(c).Reservation? && Straight(c) && Inspectable(c, conf) && p in {RC_ERO, RC_CALL_ID}
    ensures Avoids(ExpectedReads(c, conf), p)
  {
  }

  lemma StraightAvoids(c: ObjectClass, conf: Store, list: seq<ObjectClass>, p: Param)
    requires Straight(c) && Writable(c, conf, list) && FrameGuard(c, conf) && p in {RC_ERO, RC_CALL_ID}
    ensures p !in Recovered(c, conf, list)
  {
    match PartOf(c) {
      case Heading => HeadingAvoids(c, conf, p);
      case Request => RequestAvoids(c, conf, p);
      case Sender => SenderAvoids(c, conf, p);
      case Reservation => ReservationAvoids(c, conf, p);
    }
    Corresponds(c, conf, list);
    RecoveredKeys(WritesOf(c, conf, list), ExpectedReads(c, conf), 0, conf, p);
  }

  lemma {:induction false} UniAvoids(list: seq<ObjectClass>, conf: Store, p: Param)
    requires AllReadable(UniWrites(list), conf) && p in {RC_ERO, RC_CALL_ID}
    ensures p !in UniRecovered(list, conf)
  {
    if list != [] {
      UniReadable(list, conf);
      UniAvoids(list[1..], conf, p);
      SubKey(list[0], conf);
    }
  }

  /** Only an ERO adds a route, and only a CALL_ID_0 a call identifier of that kind. */
  lemma EffectAvoids(list: seq<ObjectClass>, confs: seq<Store>, i: nat, acc: Store, p: Param)
    requires AllSafe(list, confs) && i < |list|
    requires (p == RC_ERO && !list[i].Ero?) || (p == RC_CALL_ID && !list[i].CallId0?)
    ensures ValuesIn(EffectAt(list, confs, i, acc), p) == ValuesIn(acc, p)
    ensures p !in acc ==> p !in EffectAt(list, confs, i, acc)
  {
    var c, conf := list[i], confs[i];
    assert Safe(c, conf, list);
    EffectAtAdds(list, confs, i, acc, p);
    if !Silent(c) && !c.CallId0? {
      EffectAdds(c, conf, list, acc, p);
      if Straight(c) {
        StraightAvoids(c, conf, list, p);
      } else if c.GeneralizedUni? {
        UniAvoids(list, conf, p);
      }
    }
  }

  /** The hops an object adds to the route. */
  function RouteAt(list: seq<ObjectClass>, confs: seq<Store>, i: nat): (hops: seq<Value>)
    requires AllSafe(list, confs) && i < |list|
    ensures AllHops(hops)
  {
    assert Safe(list[i], confs[i], list);
    if list[i].Ero? then HopsRead(confs[i][RC_ERO]) else []
  }

  /** The hops of every ERO among the first n objects. */
  function Routes(list: seq<ObjectClass>, confs: seq<Store>, n: nat): (hops: seq<Value>)
    requires AllSafe(list, confs) && n <= |list|
    ensures AllHops(hops)
  {
    if n == 0 then [] else Routes(list, confs, n - 1) + RouteAt(list, confs, n - 1)
  }

  lemma RouteTurn(list: seq<ObjectClass>, confs: seq<Store>, i: nat, acc: Store)
    requires AllSafe(list, confs) && i < |list| && RouteFits(acc)
    ensures ValuesIn(EffectAt(list, confs, i, acc), RC_ERO) == ValuesIn(acc, RC_ERO) + RouteAt(list, confs, i)
  {
    assert Safe(list[i], confs[i], list);
    if list[i].Ero? {
      var hops := confs[i][RC_ERO];
      assert HopsRead(hops)[..|hops|] == HopsRead(hops);
      assert HopsAdded(acc, hops, |hops|) == EffectAt(list, confs, i, acc);
    } else {
      EffectAvoids(list, confs, i, acc, RC_ERO);
    }
  }

  /** A route is not overwritten: every ERO adds its hops to those that are there. */
  lemma {:induction false} RoutesJoined(list: seq<ObjectClass>, confs: seq<Store>, n: nat)
    requires AllSafe(list, confs) && n <= |list|
    ensures ValuesIn(Received(list, confs, n), RC_ERO) == Routes(list, confs, n)
  {
    hide EffectAt, RouteAt;
    if n > 0 {
      RoutesJoined(list, confs, n - 1);
      RouteTurn(list, confs, n - 1, Received(list, confs, n - 1));
    }
  }

  // ---- CALL_ID_0

  /** A CALL_ID_0 carries nothing: its bytes do not depend on the configuration. */
  lemma CallIdLost(conf: Store, conf': Store, list: seq<ObjectClass>)
    requires Writable(CallId0, conf, list) && Writable(CallId0, conf', list)
    ensures ObjectBytes(CallId0, conf, list) == ObjectBytes(CallId0, conf', list) == ObjHeader(0, 230, 0)
  {
    NoBody(conf, list);
    NoBody(conf', list);
  }

  lemma {:induction false} CallIdAbsent(list: seq<ObjectClass>, confs: seq<Store>, n: nat)
    requires AllSafe(list, confs) && n <= |list| && forall k :: 0 <= k < n ==> !list[k].CallId0?
    ensures RC_CALL_ID !in Received(list, confs, n)
  {
    hide EffectAt;
    if n > 0 {
      CallIdAbsent(list, confs, n - 1);
      EffectAvoids(list, confs, n - 1, Received(list, confs, n - 1), RC_CALL_ID);
    }
  }

  lemma CallIdTakes(list: seq<ObjectClass>, confs: seq<Store>, i: nat, ahead: seq<byte>)
    requires AllSafe(list, confs) && i < |list| && list[i].CallId0? && RC_CALL_ID !in Received(list, confs, i)
    requires ahead == HeaderAfter(list, confs, i) && |ahead| == 4
    ensures RC_CALL_ID in Received(list, confs, i + 1)
    ensures Received(list, confs, i + 1)[RC_CALL_ID] == [Int(FromNet32(ahead))]
  {
  }

  /** The call identifier that the receiver of a CALL_ID_0 finds is the length, class and type of the object after the
      first one. */
  lemma CallIdReceived(list: seq<ObjectClass>, confs: seq<Store>, i: nat)
    requires Sendable(list, confs) && i < |list| && list[i].CallId0? && forall k :: 0 <= k < i ==> !list[k].CallId0?
    ensures var j := NextShown(list, i + 1);
      && j < |list| && Safe(list[j], confs[j], list) && RC_CALL_ID in Received(list, confs, |list|)
      && Received(list, confs, |list|)[RC_CALL_ID] == [Int(FromNet32(HeaderOf(list[j], confs[j], list)))]
  {
    CallIdAbsent(list, confs, i);
    CallIdTakes(list, confs, i, HeaderAfter(list, confs, i));
    Stays(list, confs, i + 1, |list|, RC_CALL_ID);
  }

  /** As the last object of a message it makes the parser read past the end. */
  lemma CallIdOverruns(packet: seq<byte>, at: nat, acc: Store)
    requires LiesAt(packet, at, ObjHeader(0, 230, 0)) && at + 4 == |packet|
    ensures ParseObjects(ParseBody, packet, at, acc) == Overrun
  {
    HeaderThere(packet, at, 0, 230, 0);
    assert RunReads([Get(IntC, RC_CALL_ID)], 0, packet, at + 4, acc) == Beyond;
  }

  // ---- Any packet at all

  /** The chain of length fields from the start of the packet leads there. */
  ghost predicate Met(packet: seq<byte>, t: Turn) {
    Reaches(ParseBody, packet, Turn(0, map[]), t)
  }

  /** Parsing completes exactly when a chain of length fields leads to the end of the packet or past it, over bodies
      that can be parsed; the result is what they leave. */
  lemma CompletesExactly(packet: seq<byte>, r: Store)
    ensures ParseData(packet, map[]) == Parsed(r) <==> exists t :: Met(packet, t) && t.at >= |packet| && t.store == r
  {
    ParseExactly(ParseBody, packet, Turn(0, map[]), Parsed(r));
    forall t | Met(packet, t)
      ensures EndsAt(ParseBody, packet, t, Parsed(r)) <==> t.at >= |packet| && t.store == r
    {
    }
  }

  /** A length field of zero keeps the loop where it is, unless the body itself is not parsed. */
  lemma ZeroLengthLoops(packet: seq<byte>, t: Turn)
    requires t.at + 4 <= |packet| && LengthAt(packet, t.at) == 0
    ensures ParseObjects(ParseBody, packet, t.at, t.store)
            == if BodyAt(ParseBody, packet, t).Parsed? then Endless else BodyAt(ParseBody, packet, t)
  {
    hide ParseBody;
    TurnTaken(ParseBody, packet, t.at, t.store, 0, BodyAt(ParseBody, packet, t));
  }

  /** It goes on for ever exactly when the chain leads to an object with a length field of zero whose body is parsed, or
      to one whose own loop does not advance. */
  lemma LoopsExactly(packet: seq<byte>)
    ensures ParseData(packet, map[]) == Endless <==>
      exists t :: Met(packet, t) && t.at + 4 <= |packet|
        && match BodyAt(ParseBody, packet, t) {
             case Parsed(_) => LengthAt(packet, t.at) == 0
             case Endless => true
             case Overrun => false
           }
  {
    ParseExactly(ParseBody, packet, Turn(0, map[]), Endless);
    forall t | Met(packet, t)
      ensures EndsAt(ParseBody, packet, t, Endless) <==>
        t.at + 4 <= |packet| && match BodyAt(ParseBody, packet, t) {
          case Parsed(_) => LengthAt(packet, t.at) == 0
          case Endless => true
          case Overrun => false
        }
    {
    }
  }

  /** It reads past the end exactly when the chain leads to a header that is cut off, or to a body whose parser does. */
  lemma OverrunsExactly(packet: seq<byte>)
    ensures ParseData(packet, map[]) == Overrun <==>
      exists t :: Met(packet, t) && t.at < |packet|
        && (t.at + 4 > |packet| || BodyAt(ParseBody, packet, t) == Overrun)
  {
    ParseExactly(ParseBody, packet, Turn(0, map[]), Overrun);
    forall t | Met(packet, t)
      ensures EndsAt(ParseBody, packet, t, Overrun) <==>
        t.at < |packet| && (t.at + 4 > |packet| || BodyAt(ParseBody, packet, t) == Overrun)
    {
    }
  }
}
