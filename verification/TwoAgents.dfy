/** Two agents at the ends of a tunnel, and a network between them that loses, repeats and reorders what they send:
    neither comes up without the other having done its part. */
module TwoAgents {
  import opened Bytes
  import opened Options
  import opened Connections
  import opened ConnectionRuns

  type Side = bool

  /** Each end, and everything it has ever sent: the network may deliver any of it, at any time, any number of times. */
  datatype System = System(left: Station, right: Station, leftSent: set<Packet>, rightSent: set<Packet>) {
    function At(x: Side): Station {
      if x then left else right
    }

    function SentBy(x: Side): set<Packet> {
      if x then leftSent else rightSent
    }
  }

  predicate Initial(s: System) {
    Fresh(s.left) && Fresh(s.right) && s.leftSent == {} && s.rightSent == {}
  }

  function Sent(out: seq<Output>): set<Packet> {
    set o | o in out && o.Send? :: o.packet
  }

  /** Unlike in a disciplined run, a path may be created at any time. */
  predicate Possible(s: Station, e: Event) {
    e.Answered? ==> e.k < |s.pending|
  }

  function MoveEffect(g: Globals, s: Station, e: Event): Effect
    requires Possible(s, e)
  {
    if e.Created? then Create(g, s.conn, e.router, e.destination, e.rtad, e.upstream) else EffectOf(g, s, e)
  }

  function Moved(g: Globals, s: Station, e: Event): Station
    requires Possible(s, e)
  {
    if e.Created? then Station(MoveEffect(g, s, e).conn, s.pending) else Next(g, s, e)
  }

  /** End `x` takes an event; a packet from the network is one the other end has sent. */
  predicate Moves(g: Globals, s: System, x: Side, e: Event, t: System) {
    && Possible(s.At(x), e)
    && (e.Network? ==> e.m in s.SentBy(!x))
    && t.At(x) == Moved(g, s.At(x), e) && t.SentBy(x) == s.SentBy(x) + Sent(MoveEffect(g, s.At(x), e).out)
    && t.At(!x) == s.At(!x) && t.SentBy(!x) == s.SentBy(!x)
  }

  /** The two ends may differ in their settings. */
  ghost predicate Step(left: Globals, right: Globals, s: System, t: System) {
    exists x, e :: StepOf(left, right, s, x, e, t)
  }

  predicate StepOf(left: Globals, right: Globals, s: System, x: Side, e: Event, t: System) {
    Moves(if x then left else right, s, x, e, t)
  }

  ghost predicate Behaviour(left: Globals, right: Globals, run: seq<System>) {
    run != [] && Initial(run[0]) && forall i :: 0 <= i < |run| - 1 ==> Step(left, right, run[i], run[i + 1])
  }

  predicate UpAs(s: System, x: Side, direction: Direction) {
    s.At(x).conn.state.Up? && s.At(x).conn.direction == direction
  }

  predicate IsOutgoing(s: System, x: Side) {
    s.At(x).conn.direction.Outgoing?
  }

  predicate Accepts(s: System, x: Side, mplsLabel: u32) {
    UpAs(s, x, Incoming) && s.At(x).conn.mplsLabel == mplsLabel
  }

  /** By time i, end `x` has accepted a path under the label: it was up with it, as the incoming end. */
  predicate HasAccepted(run: seq<System>, i: nat, x: Side, mplsLabel: u32)
    requires i < |run|
  {
    exists k :: 0 <= k <= i && Accepts(run[k], x, mplsLabel)
  }

  /** By time i, end `x` has created a path: it was the outgoing end. */
  predicate HasCreated(run: seq<System>, i: nat, x: Side)
    requires i < |run|
  {
    exists k :: 0 <= k <= i && IsOutgoing(run[k], x)
  }

  // ---- What one move shows

  /** A RESV that can bring the other end up is sent only on coming up as the incoming end. */
  predicate Confirming(p: Packet) {
    p.kind.Resv? && Rtad(p) !in {REFLECT_DELETE, DELETE_IN_PROGRESS}
  }

  /** Nothing in the output can bring the other end up, or start a path there. */
  predicate Harmless(out: seq<Output>) {
    forall i :: 0 <= i < |out| && out[i].Send? ==> !Confirming(out[i].packet) && !out[i].packet.kind.Path?
  }

  predicate NoPaths(out: seq<Output>) {
    forall i :: 0 <= i < |out| && out[i].Send? ==> !out[i].packet.kind.Path?
  }

  predicate NoConfirming(out: seq<Output>) {
    forall i :: 0 <= i < |out| && out[i].Send? ==> !Confirming(out[i].packet)
  }

  /** Every confirmation names the label. */
  predicate ConfirmsOnly(out: seq<Output>, mplsLabel: u32) {
    forall i :: 0 <= i < |out| && out[i].Send? && Confirming(out[i].packet) ==> out[i].packet.mplsLabel == mplsLabel
  }

  /** Answering a PATH starts no path, and confirms one only by coming up. */
  lemma RespondPathSends(g: Globals, c: Conn, m: Packet)
    ensures NoPaths(RespondPath(g, c, m).out)
    ensures !RespondPath(g, c, m).conn.state.Up? ==> NoConfirming(RespondPath(g, c, m).out)
    ensures ConfirmsOnly(RespondPath(g, c, m).out, RespondPath(g, c, m).conn.mplsLabel)
    ensures RespondPath(g, c, m).conn.direction == c.direction
  {
  }

  lemma OutgoingSends(g: Globals, c: Conn, m: Packet, key: int)
    ensures Harmless(OutgoingGets(g, c, m, key).out)
    ensures OutgoingGets(g, c, m, key).conn.direction == c.direction
  {
  }

  lemma IncomingSends(g: Globals, c: Conn, m: Packet, asked: bool)
    requires c.direction.Incoming?
    ensures var e := IncomingGets(g, c, m, asked);
      NoPaths(e.out) && e.conn.direction.Incoming? && (!e.conn.state.Up? ==> NoConfirming(e.out))
        && ConfirmsOnly(e.out, e.conn.mplsLabel)
  {
    RespondPathSends(g, c, m);
    RespondPathSends(g, c.(state := PathRecv), m);
  }

  lemma ArriveSends(g: Globals, c: Conn, m: Packet, ackWanted: bool, asked: bool, key: int)
    ensures var e := Arrive(g, c, m, ackWanted, asked, key);
      NoPaths(e.out) && (NoConfirming(e.out)
        || (e.conn.state.Up? && e.conn.direction.Incoming? && ConfirmsOnly(e.out, e.conn.mplsLabel)))
  {
    if Acceptable(c, m.kind) {
      var d := Directed(c, m.kind);
      if d.direction.Outgoing? {
        OutgoingSends(g, d, m, key);
      } else {
        IncomingSends(g, d, m, asked);
      }
    }
  }

  lemma AnswerSends(g: Globals, c: Conn, m: Packet, nack: bool)
    ensures var e := Answer(g, c, m, nack);
      NoPaths(e.out) && (NoConfirming(e.out)
        || (e.conn.state.Up? && e.conn.direction.Incoming? && ConfirmsOnly(e.out, e.conn.mplsLabel)))
  {
    RespondPathSends(g, Directed(c, Path), m);
  }

  lemma LocalSends(g: Globals, s: Station, e: Event)
    requires !e.Network? && !e.Answered?
    ensures NoConfirming(MoveEffect(g, s, e).out)
    ensures !MoveEffect(g, s, e).conn.direction.Outgoing? ==> NoPaths(MoveEffect(g, s, e).out)
  {
  }

  lemma ConfirmingSent(g: Globals, s: Station, e: Event, p: Packet)
    requires Possible(s, e)
    requires Send(p) in MoveEffect(g, s, e).out && Confirming(p)
    ensures Moved(g, s, e).conn.state.Up? && Moved(g, s, e).conn.direction.Incoming?
    ensures Moved(g, s, e).conn.mplsLabel == p.mplsLabel
  {
    MoveSends(g, s, e);
  }

  lemma PathSentBy(g: Globals, s: Station, e: Event, p: Packet)
    requires Possible(s, e)
    requires Send(p) in MoveEffect(g, s, e).out && p.kind.Path?
    ensures Moved(g, s, e).conn.direction.Outgoing?
  {
    MoveSends(g, s, e);
  }

  /** A confirmation is sent only on coming up as the incoming end, a PATH only as the outgoing end. */
  lemma MoveSends(g: Globals, s: Station, e: Event)
    requires Possible(s, e)
    ensures var c, out := Moved(g, s, e).conn, MoveEffect(g, s, e).out;
      && (NoConfirming(out) || (c.state.Up? && c.direction.Incoming? && ConfirmsOnly(out, c.mplsLabel)))
      && (NoPaths(out) || c.direction.Outgoing?)
  {
    match e
    case Network(m, ackWanted, asked, key) => ArriveSends(g, s.conn, m, ackWanted, asked, key);
    case Answered(k, nack) => AnswerSends(g, s.conn, s.pending[k], nack);
    case _ => LocalSends(g, s, e);
  }

  lemma PacketComesUp(g: Globals, s: Station, e: Event)
    requires e.Network?
    requires var c := Moved(g, s, e).conn; c.state.Up? && c.direction.Outgoing?
    ensures (s.conn.state.Up? && s.conn.direction.Outgoing? && s.conn.mplsLabel == Moved(g, s, e).conn.mplsLabel)
      || (Confirming(e.m) && e.m.mplsLabel == Moved(g, s, e).conn.mplsLabel)
  {
  }

  lemma NoPacketComesUp(g: Globals, s: Station, e: Event)
    requires Possible(s, e) && !e.Network?
    requires var c := Moved(g, s, e).conn; c.state.Up? && c.direction.Outgoing?
    ensures s.conn.state.Up? && s.conn.direction.Outgoing? && s.conn.mplsLabel == Moved(g, s, e).conn.mplsLabel
  {
  }

  lemma ComesUpOutgoing(g: Globals, s: Station, e: Event)
    requires Possible(s, e)
    requires var c := Moved(g, s, e).conn; c.state.Up? && c.direction.Outgoing?
    ensures (s.conn.state.Up? && s.conn.direction.Outgoing? && s.conn.mplsLabel == Moved(g, s, e).conn.mplsLabel)
      || (e.Network? && Confirming(e.m) && e.m.mplsLabel == Moved(g, s, e).conn.mplsLabel)
  {
    if e.Network? { PacketComesUp(g, s, e); } else { NoPacketComesUp(g, s, e); }
  }

  lemma ComesUpIncoming(g: Globals, s: Station, e: Event)
    requires Possible(s, e)
    requires var c := Moved(g, s, e).conn; c.state.Up? && c.direction.Incoming?
    ensures (s.conn.state.Up? && s.conn.direction.Incoming?) || (e.Network? && e.m.kind.Path?)
      || (e.Answered? && s.pending != [])
  {
  }

  lemma PendingGrows(g: Globals, s: Station, e: Event)
    requires Possible(s, e)
    requires s.pending == [] && Moved(g, s, e).pending != []
    ensures e.Network? && e.m.kind.Path?
  {
  }

  // ---- Over a whole behaviour

  lemma Later(run: seq<System>, i: nat, x: Side)
    requires i + 1 < |run|
    ensures forall l :: HasAccepted(run, i, x, l) ==> HasAccepted(run, i + 1, x, l)
    ensures HasCreated(run, i, x) ==> HasCreated(run, i + 1, x)
  {
  }

  /** What the network holds of an end was sent after it had done its part, a PATH still waiting for an answer came from
      an end that had created a path, and whoever is up was brought up by the other. */
  ghost predicate Founded(run: seq<System>, i: nat, x: Side)
    requires i < |run|
  {
    && (forall p :: p in run[i].SentBy(x) && Confirming(p) ==> HasAccepted(run, i, x, p.mplsLabel))
    && (forall p :: p in run[i].SentBy(x) && p.kind.Path? ==> HasCreated(run, i, x))
    && (run[i].At(x).pending != [] ==> HasCreated(run, i, !x))
    && (UpAs(run[i], x, Outgoing) ==> HasAccepted(run, i, !x, run[i].At(x).conn.mplsLabel))
    && (UpAs(run[i], x, Incoming) ==> HasCreated(run, i, !x))
  }

  /** The end that moves stays founded. */
  lemma MoverFounded(g: Globals, run: seq<System>, i: nat, x: Side, e: Event)
    requires i + 1 < |run| && Moves(g, run[i], x, e, run[i + 1]) && Founded(run, i, x) && Founded(run, i, !x)
    ensures Founded(run, i + 1, x)
  {
    var s := run[i].At(x);
    Later(run, i, x);
    Later(run, i, !x);
    SentFounded(g, run, i, x, e);
    if Moved(g, s, e).pending != [] && s.pending == [] { PendingGrows(g, s, e); }
    if UpAs(run[i + 1], x, Outgoing) { ComesUpOutgoing(g, s, e); }
    if UpAs(run[i + 1], x, Incoming) { ComesUpIncoming(g, s, e); }
  }

  lemma SentFounded(g: Globals, run: seq<System>, i: nat, x: Side, e: Event)
    requires i + 1 < |run| && Moves(g, run[i], x, e, run[i + 1]) && Founded(run, i, x)
    ensures forall p :: p in run[i + 1].SentBy(x) && Confirming(p) ==> HasAccepted(run, i + 1, x, p.mplsLabel)
    ensures forall p :: p in run[i + 1].SentBy(x) && p.kind.Path? ==> HasCreated(run, i + 1, x)
  {
    Later(run, i, x);
    forall p | p in run[i + 1].SentBy(x) && p !in run[i].SentBy(x)
      ensures Confirming(p) ==> Accepts(run[i + 1], x, p.mplsLabel)
      ensures p.kind.Path? ==> IsOutgoing(run[i + 1], x)
    {
      if Confirming(p) { ConfirmingSent(g, run[i].At(x), e, p); }
      if p.kind.Path? { PathSentBy(g, run[i].At(x), e, p); }
    }
  }

  lemma OtherFounded(g: Globals, run: seq<System>, i: nat, x: Side, e: Event)
    requires i + 1 < |run| && Moves(g, run[i], x, e, run[i + 1]) && Founded(run, i, !x)
    ensures Founded(run, i + 1, !x)
  {
    Later(run, i, x);
    Later(run, i, !x);
  }

  lemma {:induction false} AlwaysFounded(left: Globals, right: Globals, run: seq<System>, i: nat)
    requires Behaviour(left, right, run) && i < |run|
    ensures Founded(run, i, true) && Founded(run, i, false)
  {
    if i > 0 {
      AlwaysFounded(left, right, run, i - 1);
      assert Step(left, right, run[i - 1], run[i - 1 + 1]);
      var x, e :| StepOf(left, right, run[i - 1], x, e, run[i]);
      MoverFounded(if x then left else right, run, i - 1, x, e);
      OtherFounded(if x then left else right, run, i - 1, x, e);
    }
  }

  /** Whatever the network loses, repeats or reorders, and whatever the managers and users do: an outgoing end that is
      up was accepted by the other, under the label it now uses, and an incoming end that is up answers a path the
      other has created. */
  lemma TwoAgentSafety(left: Globals, right: Globals, run: seq<System>, i: nat, x: Side)
    requires Behaviour(left, right, run) && i < |run|
    ensures UpAs(run[i], x, Outgoing) ==> HasAccepted(run, i, !x, run[i].At(x).conn.mplsLabel)
    ensures UpAs(run[i], x, Incoming) ==> HasCreated(run, i, !x)
  {
    AlwaysFounded(left, right, run, i);
  }
}
