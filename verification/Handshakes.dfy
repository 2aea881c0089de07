/** Two ends of a tunnel joined by a network that keeps order and loses nothing: how a path is set up, refreshed and
    deleted, whatever the profiles of the two ends and whatever order things happen in. */
module Handshakes {
  import opened Bytes
  import opened Options
  import opened Connections
  import opened ConnectionRuns

  /** The outgoing end, the incoming end, and what is under way to each, oldest first. */
  datatype Link = Link(near: Station, far: Station, toNear: seq<Packet>, toFar: seq<Packet>) {
    function At(atNear: bool): Station {
      if atNear then near else far
    }

    function To(atNear: bool): seq<Packet> {
      if atNear then toNear else toFar
    }
  }

  /** One of the ends takes an event. */
  datatype Turn = Turn(atNear: bool, e: Event)

  function Packets(out: seq<Output>): seq<Packet> {
    if out == [] then [] else (if out[0].Send? then [out[0].packet] else []) + Packets(out[1..])
  }

  /** A packet from the network is the first one under way; an ack, whose flags are cleared, asks for no other. */
  predicate CanTake(x: Link, turn: Turn) {
    && Enabled(x.At(turn.atNear), turn.e)
    && (turn.e.Network? ==> x.To(turn.atNear) != [] && turn.e.m == x.To(turn.atNear)[0])
    && (turn.e.Network? && turn.e.m.kind.Ack? ==> !turn.e.ackWanted)
  }

  function Left(queue: seq<Packet>, e: Event): seq<Packet>
    requires e.Network? ==> queue != []
  {
    if e.Network? then queue[1..] else queue
  }

  /** The two ends may differ in their settings. */
  function Taken(g: Globals, h: Globals, x: Link, turn: Turn): Link
    requires CanTake(x, turn)
  {
    var s := if turn.atNear then g else h;
    var sent := Packets(EffectOf(s, x.At(turn.atNear), turn.e).out);
    if turn.atNear then Link(Next(s, x.near, turn.e), x.far, Left(x.toNear, turn.e), x.toFar + sent)
    else Link(x.near, Next(s, x.far, turn.e), x.toNear + sent, Left(x.toFar, turn.e))
  }

  predicate Plays(g: Globals, h: Globals, x: Link, turns: seq<Turn>)
    decreases |turns|, 0
  {
    turns == [] ||
    (Plays(g, h, x, turns[..|turns| - 1]) && CanTake(Played(g, h, x, turns[..|turns| - 1]), turns[|turns| - 1]))
  }

  function Played(g: Globals, h: Globals, x: Link, turns: seq<Turn>): Link
    requires Plays(g, h, x, turns)
    decreases |turns|, 1
  {
    if turns == [] then x else Taken(g, h, Played(g, h, x, turns[..|turns| - 1]), turns[|turns| - 1])
  }

  /** Nothing is under way and no manager has anything to answer. */
  predicate Quiet(x: Link) {
    x.toNear == [] && x.toFar == [] && x.near.pending == [] && x.far.pending == []
  }

  lemma Associates<T>(a: seq<T>, b: seq<T>, c: seq<T>)
    ensures a + b + c == a + (b + c)
  {
  }

  lemma {:induction false} PacketsJoin(a: seq<Output>, b: seq<Output>)
    ensures Packets(a + b) == Packets(a) + Packets(b)
  {
    if a == [] {
      assert a + b == b;
    } else {
      assert (a + b)[0] == a[0] && (a + b)[1..] == a[1..] + b;
      PacketsJoin(a[1..], b);
      Associates(if a[0].Send? then [a[0].packet] else [], Packets(a[1..]), Packets(b));
    }
  }

  /** What the answer to a packet adds to the network: the ack it asked for, and then the answer. */
  lemma ArrivalSends(g: Globals, c: Conn, m: Packet, ackWanted: bool, asked: bool, key: int)
    ensures var d := Directed(c, m.kind);
      var e := if d.direction.Outgoing? then OutgoingGets(g, d, m, key) else IncomingGets(g, d, m, asked);
      Packets(Arrive(g, c, m, ackWanted, asked, key).out)
      == (if ackWanted then [Plain(Ack)] else []) + if Acceptable(c, m.kind) then Packets(e.out) else []
  {
    var d := Directed(c, m.kind);
    var e := if d.direction.Outgoing? then OutgoingGets(g, d, m, key) else IncomingGets(g, d, m, asked);
    PacketsJoin(AckReply(ackWanted), e.out);
    assert AckReply(ackWanted) + [] == AckReply(ackWanted);
    if ackWanted { assert AckReply(ackWanted)[1..] == []; }
  }

  // ---- Every exchange comes to an end

  /** More than what answers it weighs. */
  function Weight(kind: Kind): nat {
    match kind
    case Path => 7
    case Resv => 4
    case Ack => 1
    case _ => 2
  }

  function Load(queue: seq<Packet>): nat {
    if queue == [] then 0 else Weight(queue[0].kind) + Load(queue[1..])
  }

  lemma {:induction false} LoadJoin(a: seq<Packet>, b: seq<Packet>)
    ensures Load(a + b) == Load(a) + Load(b)
  {
    if a == [] {
      assert a + b == b;
    } else {
      assert (a + b)[0] == a[0] && (a + b)[1..] == a[1..] + b;
      LoadJoin(a[1..], b);
    }
  }

  /** The packets of a short output, one by one. */
  lemma Few(a: Output, b: Output)
    ensures Packets([]) == [] && Packets([a]) == (if a.Send? then [a.packet] else [])
    ensures Packets([a, b]) == Packets([a]) + Packets([b])
    ensures Load(Packets([a])) == if a.Send? then Weight(a.packet.kind) else 0
  {
    assert [a][1..] == [] && [a, b][1..] == [b];
  }

  function Sends(o: Output): nat {
    if o.Send? then Weight(o.packet.kind) else 0
  }

  lemma OneSent(a: Output)
    ensures Load(Packets([a])) == Sends(a) && Load(Packets([])) == 0
  {
    Few(a, a);
  }

  lemma TwoSent(a: Output, b: Output)
    ensures Load(Packets([a, b])) == Sends(a) + Sends(b)
  {
    Few(a, b);
    OneSent(a);
    OneSent(b);
    LoadJoin(Packets([a]), Packets([b]));
  }

  lemma RespondPathLoad(g: Globals, c: Conn, m: Packet)
    ensures Load(Packets(RespondPath(g, c, m).out)) <= 4
  {
    var out := RespondPath(g, c, m).out;
    if |out| == 1 {
      OneSent(out[0]);
      assert out == [out[0]];
    } else {
      TwoSent(out[0], out[1]);
      assert out == [out[0], out[1]];
    }
  }

  lemma RespondPathNackLoad(g: Globals, c: Conn, m: Packet)
    ensures Load(Packets(RespondPathNack(g, c, m).out)) <= 4
  {
    OneSent(RespondPathNack(g, c, m).out[0]);
  }

  lemma OutgoingLoad(g: Globals, c: Conn, m: Packet, key: int)
    ensures Load(Packets(OutgoingGets(g, c, m, key).out)) <= if m.kind.Resv? then 2 else 0
  {
    var out := OutgoingGets(g, c, m, key).out;
    OneSent(Ask(m.kind));
    if m.kind.Resv? {
      var e := RespondResv(g, c, m, key);
      PacketsJoin(e.out, [Ask(Resv)]);
      LoadJoin(Packets(e.out), Packets([Ask(Resv)]));
      if |e.out| == 1 {
        OneSent(e.out[0]);
        assert e.out == [e.out[0]];
      } else if |e.out| == 2 {
        TwoSent(e.out[0], e.out[1]);
        assert e.out == [e.out[0], e.out[1]];
      }
    }
  }

  lemma IncomingLoad(g: Globals, c: Conn, m: Packet, asked: bool)
    ensures var out := IncomingGets(g, c, m, asked).out;
      Load(Packets(out)) <= if m.kind.Path? && !(c.state.Null? && asked) then 4 else 0
  {
    OneSent(Ask(m.kind));
    if m.kind.Path? {
      RespondPathLoad(g, c, m);
      RespondPathNackLoad(g, c, m);
      if c.state.Null? && !asked {
        var d := c.(state := PathRecv);
        var e := if g.translator then RespondPathNack(g, d, m) else RespondPath(g, d, m);
        RespondPathLoad(g, d, m);
        RespondPathNackLoad(g, d, m);
        PacketsJoin([Ask(Path)], e.out);
        LoadJoin(Packets([Ask(Path)]), Packets(e.out));
      }
    }
  }

  lemma ArrivalLoad(g: Globals, s: Station, e: Event)
    requires e.Network? && (e.m.kind.Ack? ==> !e.ackWanted)
    ensures Load(Packets(EffectOf(g, s, e).out)) + 5 * |Next(g, s, e).pending| < 5 * |s.pending| + Weight(e.m.kind)
  {
    var d := Directed(s.conn, e.m.kind);
    ArrivalSends(g, s.conn, e.m, e.ackWanted, e.asked, e.key);
    var got := if d.direction.Outgoing? then OutgoingGets(g, d, e.m, e.key) else IncomingGets(g, d, e.m, e.asked);
    OutgoingLoad(g, d, e.m, e.key);
    IncomingLoad(g, d, e.m, e.asked);
    OneSent(Send(Plain(Ack)));
    Few(Send(Plain(Ack)), Send(Plain(Ack)));
    LoadJoin(if e.ackWanted then [Plain(Ack)] else [], if Acceptable(s.conn, e.m.kind) then Packets(got.out) else []);
  }

  lemma TurnLoad(g: Globals, s: Station, e: Event)
    requires Enabled(s, e) && !e.Network?
    ensures Load(Packets(EffectOf(g, s, e).out)) + 5 * |Next(g, s, e).pending|
      <= 5 * |s.pending| + if e.Answered? then -1 else 7
  {
    var out := EffectOf(g, s, e).out;
    if e.Answered? {
      RespondPathLoad(g, Directed(s.conn, Path), s.pending[e.k]);
      RespondPathNackLoad(g, Directed(s.conn, Path), s.pending[e.k]);
    } else if out != [] {
      OneSent(out[0]);
      assert out == [out[0]];
    }
  }

  /** What is under way and what is waiting for a manager, by weight. */
  function Work(x: Link): nat {
    Load(x.toNear) + Load(x.toFar) + 5 * (|x.near.pending| + |x.far.pending|)
  }

  predicate Reacts(turn: Turn) {
    turn.e.Network? || turn.e.Answered?
  }

  function Reactions(turns: seq<Turn>): nat {
    if turns == [] then 0
    else Reactions(turns[..|turns| - 1]) + if Reacts(turns[|turns| - 1]) then 1 else 0
  }

  lemma WorkTurn(g: Globals, h: Globals, x: Link, turn: Turn)
    requires CanTake(x, turn)
    ensures Work(Taken(g, h, x, turn)) <= Work(x) + if Reacts(turn) then -1 else 7
  {
    var s := if turn.atNear then g else h;
    var sent := Packets(EffectOf(s, x.At(turn.atNear), turn.e).out);
    LoadJoin(x.To(!turn.atNear), sent);
    if turn.e.Network? {
      ArrivalLoad(s, x.At(turn.atNear), turn.e);
    } else {
      TurnLoad(s, x.At(turn.atNear), turn.e);
    }
  }

  /** Packets and answers beget fewer and fewer: of whatever the two ends do, every seven deliveries and answers are due
      to a creation, a deletion or a tick of their own, or to what was there at the start. */
  lemma {:induction false} ExchangesEnd(g: Globals, h: Globals, x: Link, turns: seq<Turn>)
    requires Plays(g, h, x, turns)
    ensures Work(Played(g, h, x, turns)) + Reactions(turns) <= Work(x) + 7 * (|turns| - Reactions(turns))
    decreases |turns|
  {
    if turns != [] {
      ExchangesEnd(g, h, x, turns[..|turns| - 1]);
      WorkTurn(g, h, Played(g, h, x, turns[..|turns| - 1]), turns[|turns| - 1]);
    }
  }

  // ---- Setting a path up, and keeping it up

  /** The label of the path: the upstream label that its creator names, or the next of the other end. */
  function Agreed(create: Event, far: Station): u32
    requires create.Created?
  {
    if create.upstream.Some? then create.upstream.value else NextLabel(far.conn)
  }

  /** The PATH that a creation sends. */
  function CreatedPath(g: Globals, create: Event): Packet
    requires create.Created?
  {
    PathPacket(g, create.rtad, create.upstream)
  }

  predicate Only(queue: seq<Packet>, packets: set<Packet>) {
    forall i :: 0 <= i < |queue| ==> queue[i] in packets
  }

  function Confirmation(mplsLabel: u32): Packet {
    Packet(Resv, None, None, mplsLabel)
  }

  /** The creator waits: for the PATH to arrive, for a manager, or for an answer that is under way. */
  predicate Waits(p: Packet, mplsLabel: u32, x: Link, refused: bool) {
    && x.near.conn.state.PathSent?
    && if x.far.conn.direction.Undefined? then
         x.far.conn.state.Null? && x.far.pending == [] && x.toFar == [p] && x.toNear == [] && !refused
       else
         && x.toFar == []
         && (x.far.conn.state.PathRecv? ==> x.far.pending == [p] && Only(x.toNear, {Plain(Ack)}) && !refused)
         && (x.far.conn.state.Up? ==>
               x.far.pending == [] && !refused && x.far.conn.mplsLabel == mplsLabel
               && Only(x.toNear, {Plain(Ack), Confirmation(mplsLabel)}) && Confirmation(mplsLabel) in x.toNear)
         && (x.far.conn.state.Down? ==>
               x.far.pending == [] && refused && OnlyErrors(x.toNear) && HasError(x.toNear))
  }

  /** Both ends are up under the label, and nothing under way can change that. */
  predicate Stands(p: Packet, mplsLabel: u32, x: Link) {
    && x.near.conn.state.Up? && x.near.conn.mplsLabel == mplsLabel
    && x.far.conn.state.Up? && x.far.conn.mplsLabel == mplsLabel && x.far.conn.direction.Incoming?
    && x.far.pending == []
    && Only(x.toFar, {p, Plain(Ack), Plain(ResvConf)})
    && Only(x.toNear, {Plain(Ack), Confirmation(mplsLabel)})
  }

  predicate Refused(x: Link) {
    && x.near.conn.state.Down? && x.near.conn.mplsLabel == 0
    && x.far.conn.state.Down? && x.far.pending == []
    && Only(x.toFar, {Plain(Ack)})
    && OnlyErrors(x.toNear)
  }

  predicate HasError(queue: seq<Packet>) {
    exists i :: 0 <= i < |queue| && queue[i].kind.PathErr?
  }

  predicate OnlyErrors(queue: seq<Packet>) {
    forall i :: 0 <= i < |queue| ==> queue[i].kind in {Ack, PathErr}
  }

  /** What the incoming end is before the PATH arrives, and keeps as long as it has not accepted it. */
  predicate Unlabelled(far: Conn, labelId: u32) {
    far.mplsLabel == 0 && far.labelId == labelId
  }

  predicate SettingUp(g: Globals, create: Event, mplsLabel: u32, labelId: u32, x: Link, refused: bool)
    requires create.Created?
  {
    var p := CreatedPath(g, create);
    && x.near.conn.direction.Outgoing? && x.near.pending == [] && CarriesPath(g, x.near.conn, p)
    && Resting(x.far.conn) && !x.far.conn.direction.Outgoing?
    && (x.far.conn.state.Up? || Unlabelled(x.far.conn, labelId))
    && x.near.conn.upstream == create.upstream
    && (x.far.conn.state in {Up, Down} ==> x.far.conn.upstream == create.upstream)
    && (x.far.conn.state.Up? ==> x.far.conn.pathRtad == p.rtad && x.far.conn.pathUpstream == p.upstream)
    && (Waits(p, mplsLabel, x, refused) || (!refused && Stands(p, mplsLabel, x)) || (refused && Refused(x)))
  }

  /** What a refresh would send. */
  predicate CarriesPath(g: Globals, c: Conn, p: Packet) {
    PathPacket(g, c.pathRtad, c.pathUpstream) == p
  }

  /** The manager turns the path down, or a translator finds none to ask. */
  predicate Refuses(h: Globals, x: Link, turn: Turn) {
    && !turn.atNear
    && ((turn.e.Answered? && turn.e.nack)
        || (turn.e.Network? && turn.e.m.kind.Path? && x.far.conn.state.Null? && !turn.e.asked && h.translator))
  }

  predicate EverRefused(g: Globals, h: Globals, x: Link, turns: seq<Turn>)
    requires Plays(g, h, x, turns)
    decreases |turns|
  {
    turns != [] &&
    (EverRefused(g, h, x, turns[..|turns| - 1])
      || Refuses(h, Played(g, h, x, turns[..|turns| - 1]), turns[|turns| - 1]))
  }

  /** Nobody creates or deletes a path, and no timeout strikes. */
  predicate LeavesAlone(g: Globals, h: Globals, x: Link, turn: Turn) {
    && !turn.e.Created? && !turn.e.Destroyed?
    && !Strikes(if turn.atNear then g else h, x.At(turn.atNear), turn.e)
  }

  predicate AllLeftAlone(g: Globals, h: Globals, x: Link, turns: seq<Turn>)
    requires Plays(g, h, x, turns)
    decreases |turns|
  {
    turns == [] ||
    (AllLeftAlone(g, h, x, turns[..|turns| - 1])
      && LeavesAlone(g, h, Played(g, h, x, turns[..|turns| - 1]), turns[|turns| - 1]))
  }

  function Acks(wanted: bool): seq<Packet> {
    if wanted then [Plain(Ack)] else []
  }

  /** Accepting a PATH sends one confirmation, with the label. */
  lemma AcceptanceSends(h: Globals, c: Conn, p: Packet)
    requires Rtad(p) != REFLECT_DELETE
    ensures Packets(RespondPath(h, c, p).out) == [Confirmation(RespondPath(h, c, p).conn.mplsLabel)]
  {
    Few(RespondPath(h, c, p).out[0], Ask(Path));
  }

  lemma RefusalSends(h: Globals, c: Conn, p: Packet)
    ensures Packets(RespondPathNack(h, c, p).out) == [Packet(PathErr, None, if h.ietf then None else p.upstream, 0)]
  {
    Few(RespondPathNack(h, c, p).out[0], Ask(Path));
  }

  lemma ConfirmationSends(g: Globals, c: Conn, mplsLabel: u32, key: int)
    ensures Packets(OutgoingGets(g, c, Confirmation(mplsLabel), key).out)
      == if c.state.Up? || g.ietf then [] else [Plain(ResvConf)]
  {
    Few(Ask(Resv), Ask(Resv));
    Few(Send(Plain(ResvConf)), Ask(Resv));
  }

  lemma ErrorSends(g: Globals, c: Conn, m: Packet, key: int)
    requires m.kind in {PathErr, ResvTear}
    ensures Packets(OutgoingGets(g, c, m, key).out) == []
  {
    Few(Ask(m.kind), Ask(m.kind));
  }

  /** The PATH arrives for the first time. */
  lemma FirstPathSends(h: Globals, c: Conn, p: Packet, asked: bool)
    requires p.kind.Path? && Rtad(p) != REFLECT_DELETE && c.state.Null?
    ensures var e := IncomingGets(h, c, p, asked); var sent := Packets(e.out);
      if asked then sent == []
      else if h.translator then |sent| == 1 && sent[0].kind.PathErr?
      else sent == [Confirmation(e.conn.mplsLabel)]
  {
    var d := c.(state := PathRecv);
    Few(Ask(Path), Ask(Path));
    AcceptanceSends(h, d, p);
    RefusalSends(h, d, p);
    PacketsJoin([Ask(Path)], (if h.translator then RespondPathNack(h, d, p) else RespondPath(h, d, p)).out);
  }

  /** The path is created without the deletion flags, and the label has not wrapped round to 0, which means none. */
  predicate Sound(g: Globals, create: Event, mplsLabel: u32, labelId: u32)
    requires create.Created?
  {
    && Rtad(CreatedPath(g, create)) != REFLECT_DELETE
    && mplsLabel == (if create.upstream.Some? then create.upstream.value else (labelId + 1) % WORD32)
    && (mplsLabel == 0 ==> create.upstream.Some?)
  }

  /** The end keeps its direction, its upstream label and what it refreshes. */
  predicate SamePath(c: Conn, d: Conn) {
    && c.direction == d.direction && c.upstream == d.upstream
    && c.pathRtad == d.pathRtad && c.pathUpstream == d.pathUpstream
  }

  lemma GetsAck(g: Globals, c: Conn, m: Packet, asked: bool, key: int)
    requires m.kind.Ack?
    ensures Arrive(g, c, m, false, asked, key).conn == c && Packets(Arrive(g, c, m, false, asked, key).out) == []
  {
    ArrivalSends(g, c, m, false, asked, key);
  }

  lemma ConfirmationTakes(g: Globals, c: Conn, l: u32, key: int)
    requires c.direction.Outgoing? && (c.state.PathSent? || (c.state.Up? && c.mplsLabel == l))
    ensures var d := OutgoingGets(g, c, Confirmation(l), key).conn;
      && d.state.Up? && d.mplsLabel == l && SamePath(c, d) && d.key == (if c.state.Up? then c.key else key)
  {
  }

  lemma GetsConfirmation(g: Globals, c: Conn, l: u32, ackWanted: bool, asked: bool, key: int)
    requires c.direction.Outgoing? && (c.state.PathSent? || (c.state.Up? && c.mplsLabel == l))
    ensures var e := Arrive(g, c, Confirmation(l), ackWanted, asked, key);
      && e.conn.state.Up? && e.conn.mplsLabel == l && SamePath(c, e.conn)
      && e.conn.key == (if c.state.Up? then c.key else key)
      && Only(Packets(e.out), {Plain(Ack), Plain(ResvConf)})
  {
    hide OutgoingGets, Packets;
    ArrivalSends(g, c, Confirmation(l), ackWanted, asked, key);
    ConfirmationSends(g, c, l, key);
    ConfirmationTakes(g, c, l, key);
  }

  lemma GetsError(g: Globals, c: Conn, m: Packet, ackWanted: bool, asked: bool, key: int)
    requires c.direction.Outgoing? && m.kind.PathErr?
    ensures var e := Arrive(g, c, m, ackWanted, asked, key);
      e.conn.state.Down? && e.conn.mplsLabel == 0 && SamePath(c, e.conn) && Packets(e.out) == Acks(ackWanted)
  {
    ArrivalSends(g, c, m, ackWanted, asked, key);
    ErrorSends(g, c, m, key);
    assert Acks(ackWanted) + [] == Acks(ackWanted);
  }

  lemma FirstPathTakes(h: Globals, c: Conn, p: Packet, asked: bool)
    requires c.direction.Incoming? && c.state.Null? && c.mplsLabel == 0 && p.kind.Path? && Rtad(p) != REFLECT_DELETE
    ensures var d := IncomingGets(h, c, p, asked).conn;
      && d.direction.Incoming? && (d.state.Up? || Unlabelled(d, c.labelId))
      && (d.state in {Up, Down} ==> d.upstream == p.upstream)
      && (d.state.Up? ==> d.pathRtad == p.rtad && d.pathUpstream == p.upstream)
      && (asked ==> d.state.PathRecv?)
      && (!asked && h.translator ==> d.state.Down?)
      && (!asked && !h.translator ==>
            d.state.Up? && d.mplsLabel == if p.upstream.Some? then p.upstream.value else NextLabel(c))
  {
  }

  lemma GetsFirstPath(h: Globals, c: Conn, p: Packet, ackWanted: bool, asked: bool, key: int)
    requires c.direction.Undefined? && c.state.Null? && c.mplsLabel == 0 && p.kind.Path? && Rtad(p) != REFLECT_DELETE
    ensures var e := Arrive(h, c, p, ackWanted, asked, key); var sent := Packets(e.out);
      && e.conn.direction.Incoming?
      && (e.conn.state.Up? || Unlabelled(e.conn, c.labelId))
      && (e.conn.state in {Up, Down} ==> e.conn.upstream == p.upstream)
      && (e.conn.state.Up? ==> e.conn.pathRtad == p.rtad && e.conn.pathUpstream == p.upstream)
      && (asked ==> e.conn.state.PathRecv? && sent == Acks(ackWanted))
      && (!asked && h.translator ==>
            e.conn.state.Down? && |sent| > 0 && OnlyErrors(sent) && sent[|sent| - 1].kind.PathErr?)
      && (!asked && !h.translator ==>
            e.conn.state.Up? && e.conn.mplsLabel == (if p.upstream.Some? then p.upstream.value else NextLabel(c))
            && sent == Acks(ackWanted) + [Confirmation(e.conn.mplsLabel)])
  {
    hide IncomingGets, Packets;
    ArrivalSends(h, c, p, ackWanted, asked, key);
    FirstPathSends(h, Directed(c, Path), p, asked);
    FirstPathTakes(h, Directed(c, Path), p, asked);
    assert Acks(ackWanted) + [] == Acks(ackWanted);
  }

  /** A PATH without the deletion flags leaves a path up that is up, under the label it names or the one it had, and is
      confirmed with that label. */
  lemma RefreshKeepsUp(h: Globals, c: Conn, p: Packet, ackWanted: bool, asked: bool, key: int)
    requires c.direction.Incoming? && c.state.Up? && p.kind.Path? && Rtad(p) != REFLECT_DELETE
    ensures var e := Arrive(h, c, p, ackWanted, asked, key);
      && e.conn.state.Up? && e.conn.direction.Incoming? && e.conn.upstream == p.upstream
      && e.conn.pathRtad == p.rtad && e.conn.pathUpstream == p.upstream
      && e.conn.mplsLabel == (if p.upstream.Some? then p.upstream.value
        else if c.mplsLabel != 0 then c.mplsLabel else NextLabel(c))
      && Packets(e.out) == Acks(ackWanted) + [Confirmation(e.conn.mplsLabel)]
  {
    ArrivalSends(h, c, p, ackWanted, asked, key);
    AcceptanceSends(h, c, p);
  }

  lemma GetsOther(h: Globals, c: Conn, m: Packet, ackWanted: bool, asked: bool, key: int)
    requires c.direction.Incoming? && m.kind in {Ack, ResvConf}
    ensures Arrive(h, c, m, ackWanted, asked, key).conn == c
    ensures Packets(Arrive(h, c, m, ackWanted, asked, key).out) == Acks(ackWanted)
  {
    ArrivalSends(h, c, m, ackWanted, asked, key);
    assert Acks(ackWanted) + [] == Acks(ackWanted);
  }

  lemma NearTick(g: Globals, h: Globals, create: Event, l: u32, labelId: u32, x: Link, turn: Turn, refused: bool)
    requires create.Created? && Sound(g, create, l, labelId) && SettingUp(g, create, l, labelId, x, refused)
    requires turn.atNear && turn.e.Ticked? && CanTake(x, turn) && LeavesAlone(g, h, x, turn)
    ensures SettingUp(g, create, l, labelId, Taken(g, h, x, turn), refused)
  {
    Few(Send(CreatedPath(g, create)), Ask(Path));
    assert x.toFar + [] == x.toFar;
  }

  lemma NearWaiting(g: Globals, h: Globals, create: Event, l: u32, labelId: u32, x: Link, turn: Turn, refused: bool)
    requires create.Created? && Sound(g, create, l, labelId) && SettingUp(g, create, l, labelId, x, refused)
    requires Waits(CreatedPath(g, create), l, x, refused)
    requires turn.atNear && turn.e.Network? && CanTake(x, turn)
    ensures SettingUp(g, create, l, labelId, Taken(g, h, x, turn), refused)
  {
    hide Arrive, Packets;
    var e := turn.e;
    if e.m == Confirmation(l) {
      GetsConfirmation(g, x.near.conn, l, e.ackWanted, e.asked, e.key);
    } else if e.m.kind.PathErr? {
      GetsError(g, x.near.conn, e.m, e.ackWanted, e.asked, e.key);
    } else {
      GetsAck(g, x.near.conn, e.m, e.asked, e.key);
      forall i | 0 <= i < |x.toNear| && x.toNear[i].kind.PathErr?
        ensures HasError(x.toNear[1..])
      {
        assert x.toNear[1..][i - 1] == x.toNear[i];
      }
    }
  }

  lemma NearStanding(g: Globals, h: Globals, create: Event, l: u32, labelId: u32, x: Link, turn: Turn)
    requires create.Created? && Sound(g, create, l, labelId) && SettingUp(g, create, l, labelId, x, false)
    requires Stands(CreatedPath(g, create), l, x)
    requires turn.atNear && turn.e.Network? && CanTake(x, turn)
    ensures SettingUp(g, create, l, labelId, Taken(g, h, x, turn), false)
  {
    hide Arrive, Packets;
    var e := turn.e;
    if e.m == Confirmation(l) {
      GetsConfirmation(g, x.near.conn, l, e.ackWanted, e.asked, e.key);
    } else {
      GetsAck(g, x.near.conn, e.m, e.asked, e.key);
    }
  }

  lemma NearRefused(g: Globals, h: Globals, create: Event, l: u32, labelId: u32, x: Link, turn: Turn)
    requires create.Created? && Sound(g, create, l, labelId) && SettingUp(g, create, l, labelId, x, true)
    requires Refused(x)
    requires turn.atNear && turn.e.Network? && CanTake(x, turn)
    ensures SettingUp(g, create, l, labelId, Taken(g, h, x, turn), true)
  {
    var e := turn.e;
    ArrivalSends(g, x.near.conn, e.m, e.ackWanted, e.asked, e.key);
    if e.m.kind.PathErr? { ErrorSends(g, x.near.conn, e.m, e.key); }
  }

  lemma FarTick(g: Globals, h: Globals, create: Event, l: u32, labelId: u32, x: Link, turn: Turn, refused: bool)
    requires create.Created? && Sound(g, create, l, labelId) && SettingUp(g, create, l, labelId, x, refused)
    requires !turn.atNear && turn.e.Ticked? && CanTake(x, turn)
    ensures SettingUp(g, create, l, labelId, Taken(g, h, x, turn), refused)
  {
    assert x.toNear + [] == x.toNear;
  }

  lemma FarAnswers(g: Globals, h: Globals, create: Event, l: u32, labelId: u32, x: Link, turn: Turn, refused: bool)
    requires create.Created? && Sound(g, create, l, labelId) && SettingUp(g, create, l, labelId, x, refused)
    requires !turn.atNear && turn.e.Answered? && CanTake(x, turn)
    ensures SettingUp(g, create, l, labelId, Taken(g, h, x, turn), refused || Refuses(h, x, turn))
  {
    var p := CreatedPath(g, create);
    AcceptanceSends(h, x.far.conn, p);
    RefusalSends(h, x.far.conn, p);
    var t := Taken(g, h, x, turn);
    assert t.toNear[|x.toNear|] in t.toNear;
  }

  lemma FarFirst(g: Globals, h: Globals, create: Event, l: u32, labelId: u32, x: Link, turn: Turn, refused: bool)
    requires create.Created? && Sound(g, create, l, labelId) && SettingUp(g, create, l, labelId, x, refused)
    requires x.far.conn.direction.Undefined? && !turn.atNear && turn.e.Network? && CanTake(x, turn)
    ensures SettingUp(g, create, l, labelId, Taken(g, h, x, turn), refused || Refuses(h, x, turn))
  {
    hide Arrive, Packets;
    var e := turn.e;
    GetsFirstPath(h, x.far.conn, e.m, e.ackWanted, e.asked, e.key);
    var t := Taken(g, h, x, turn);
    if e.asked {
      AcksAlone(e.ackWanted, l);
    } else if h.translator {
      assert t.toNear[|t.toNear| - 1].kind.PathErr?;
    } else {
      AcksAlone(e.ackWanted, l);
    }
  }

  lemma AcksAlone(wanted: bool, l: u32)
    ensures Only(Acks(wanted), {Plain(Ack)})
    ensures Only(Acks(wanted) + [Confirmation(l)], {Plain(Ack), Confirmation(l)})
    ensures Confirmation(l) in Acks(wanted) + [Confirmation(l)]
  {
  }

  lemma FarStanding(g: Globals, h: Globals, create: Event, l: u32, labelId: u32, x: Link, turn: Turn, refused: bool)
    requires create.Created? && Sound(g, create, l, labelId) && SettingUp(g, create, l, labelId, x, refused)
    requires !x.far.conn.direction.Undefined? && !turn.atNear && turn.e.Network? && CanTake(x, turn)
    ensures SettingUp(g, create, l, labelId, Taken(g, h, x, turn), refused) && !Refuses(h, x, turn)
  {
    hide Arrive, Packets;
    var e := turn.e;
    if e.m.kind.Path? {
      RefreshKeepsUp(h, x.far.conn, e.m, e.ackWanted, e.asked, e.key);
    } else {
      GetsOther(h, x.far.conn, e.m, e.ackWanted, e.asked, e.key);
    }
  }

  lemma SettingUpTurn(g: Globals, h: Globals, create: Event, l: u32, labelId: u32, x: Link, turn: Turn, refused: bool)
    requires create.Created? && Sound(g, create, l, labelId) && SettingUp(g, create, l, labelId, x, refused)
    requires CanTake(x, turn) && LeavesAlone(g, h, x, turn)
    ensures SettingUp(g, create, l, labelId, Taken(g, h, x, turn), refused || Refuses(h, x, turn))
  {
    if turn.atNear && turn.e.Ticked? {
      NearTick(g, h, create, l, labelId, x, turn, refused);
    } else if turn.atNear {
      if Waits(CreatedPath(g, create), l, x, refused) {
        NearWaiting(g, h, create, l, labelId, x, turn, refused);
      } else if refused {
        NearRefused(g, h, create, l, labelId, x, turn);
      } else {
        NearStanding(g, h, create, l, labelId, x, turn);
      }
    } else if turn.e.Ticked? {
      FarTick(g, h, create, l, labelId, x, turn, refused);
    } else if turn.e.Answered? {
      FarAnswers(g, h, create, l, labelId, x, turn, refused);
    } else if x.far.conn.direction.Undefined? {
      FarFirst(g, h, create, l, labelId, x, turn, refused);
    } else {
      FarStanding(g, h, create, l, labelId, x, turn, refused);
    }
  }

  /** One end creates a path, and neither has seen one before. */
  function Started(g: Globals, h: Globals, near: Station, far: Station, create: Event): Link
    requires create.Created? && near.conn.direction.Undefined?
  {
    Taken(g, h, Link(near, far, [], []), Turn(true, create))
  }

  lemma {:induction false} SettingUpRun(g: Globals, h: Globals, near: Station, far: Station, create: Event,
      turns: seq<Turn>)
    requires Fresh(near) && Fresh(far) && near.conn.upstream.None? && create.Created?
    requires Sound(g, create, Agreed(create, far), far.conn.labelId)
    requires var x := Started(g, h, near, far, create); Plays(g, h, x, turns) && AllLeftAlone(g, h, x, turns)
    ensures var x := Started(g, h, near, far, create);
      SettingUp(g, create, Agreed(create, far), far.conn.labelId, Played(g, h, x, turns), EverRefused(g, h, x, turns))
    decreases |turns|
  {
    var x := Started(g, h, near, far, create);
    if turns == [] {
      Few(Send(CreatedPath(g, create)), Ask(Path));
      assert [] + [CreatedPath(g, create)] == [CreatedPath(g, create)];
    } else {
      var init := turns[..|turns| - 1];
      SettingUpRun(g, h, near, far, create, init);
      SettingUpTurn(g, h, create, Agreed(create, far), far.conn.labelId, Played(g, h, x, init), turns[|turns| - 1],
        EverRefused(g, h, x, init));
    }
  }

  /** Whatever order packets, answers, refreshes and ticks come in: an outgoing end that is up has the other up under
      the same label, and once nothing is under way both are up under the label agreed on, or both are down without
      one, according to whether the path was refused. */
  lemma SetupCompletes(g: Globals, h: Globals, near: Station, far: Station, create: Event, turns: seq<Turn>)
    requires Fresh(near) && Fresh(far) && near.conn.upstream.None? && create.Created?
    requires Rtad(CreatedPath(g, create)) != REFLECT_DELETE && (Agreed(create, far) == 0 ==> create.upstream.Some?)
    requires var x := Started(g, h, near, far, create); Plays(g, h, x, turns) && AllLeftAlone(g, h, x, turns)
    ensures var x := Started(g, h, near, far, create); var y := Played(g, h, x, turns);
      && (y.near.conn.state.Up? ==> y.far.conn.state.Up? && y.far.conn.mplsLabel == y.near.conn.mplsLabel)
      && (Quiet(y) && !EverRefused(g, h, x, turns) ==>
            && y.near.conn.state.Up? && y.near.conn.mplsLabel == Agreed(create, far)
            && y.far.conn.state.Up? && y.far.conn.mplsLabel == Agreed(create, far)
            && y.near.conn.upstream == y.far.conn.upstream == create.upstream
            && y.far.conn.pathUpstream == create.upstream
            && y.far.conn.pathRtad == (if g.ietf then None else create.rtad))
      && (Quiet(y) && EverRefused(g, h, x, turns) ==>
            && y.near.conn.state.Down? && y.near.conn.mplsLabel == 0
            && y.far.conn.state.Down? && y.far.conn.mplsLabel == 0)
  {
    SettingUpRun(g, h, near, far, create, turns);
  }
}
