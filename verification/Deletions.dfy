/** Two ends that are up, joined as in `Handshakes`, and asked to delete their path, once or more, at either end, while
    refreshes go on: they go down, and which labels they leave. */
module Deletions {
  import opened Bytes
  import opened Options
  import opened Connections
  import opened ConnectionRuns
  import opened Handshakes

  // ---- What is under way

  /** What takes the creator down: an error, a teardown, or a RESV with deletion flags. */
  predicate EndsNear(p: Packet) {
    p.kind in {PathErr, ResvTear} || (p.kind.Resv? && Rtad(p) in {REFLECT_DELETE, DELETE_IN_PROGRESS})
  }

  predicate Bare(c: Conn) {
    c.mplsLabel == 0 && c.key == 0
  }

  predicate Has(queue: seq<Packet>, kind: Kind) {
    exists i :: 0 <= i < |queue| && queue[i].kind == kind
  }

  predicate SomeEnd(queue: seq<Packet>) {
    exists i :: 0 <= i < |queue| && EndsNear(queue[i])
  }

  predicate SomeDeletion(queue: seq<Packet>) {
    exists i :: 0 <= i < |queue| && Deletes(queue[i])
  }

  /** What the incoming end sends, and what the outgoing one sends, once both are up. */
  predicate ForNear(queue: seq<Packet>) {
    forall i :: 0 <= i < |queue| ==> queue[i].kind in {Ack, Resv, PathErr, ResvTear}
  }

  predicate ForFar(queue: seq<Packet>) {
    forall i :: 0 <= i < |queue| ==> queue[i].kind in {Ack, Path, PathTear}
  }

  /** Nothing but deletions is under way, and one PATH at most. */
  predicate EndsOnly(queue: seq<Packet>) {
    forall i :: 0 <= i < |queue| ==> queue[i].kind.Ack? || EndsNear(queue[i])
  }

  predicate DeletesOnce(queue: seq<Packet>) {
    && (forall i :: 0 <= i < |queue| ==> queue[i].kind in {Ack, PathTear} || Deletes(queue[i]))
    && (forall i, j :: 0 <= i < j < |queue| ==> !(queue[i].kind.Path? && queue[j].kind.Path?))
  }

  lemma HasJoined(a: seq<Packet>, b: seq<Packet>)
    ensures forall kind: Kind :: Has(a + b, kind) <==> Has(a, kind) || Has(b, kind)
    ensures SomeEnd(a + b) <==> SomeEnd(a) || SomeEnd(b)
    ensures SomeDeletion(a + b) <==> SomeDeletion(a) || SomeDeletion(b)
  {
    var all := a + b;
    forall i | 0 <= i < |a|
      ensures Has(all, a[i].kind) && (EndsNear(a[i]) ==> SomeEnd(all)) && (Deletes(a[i]) ==> SomeDeletion(all))
    {
      assert all[i] == a[i];
    }
    forall i | 0 <= i < |b|
      ensures Has(all, b[i].kind) && (EndsNear(b[i]) ==> SomeEnd(all)) && (Deletes(b[i]) ==> SomeDeletion(all))
    {
      assert all[|a| + i] == b[i];
    }
  }

  lemma AllowedJoined(a: seq<Packet>, b: seq<Packet>)
    ensures ForNear(a) && ForNear(b) ==> ForNear(a + b)
    ensures ForFar(a) && ForFar(b) ==> ForFar(a + b)
    ensures EndsOnly(a) && EndsOnly(b) ==> EndsOnly(a + b)
    ensures DeletesOnce(a) && DeletesOnce(b) && !(Has(a, Path) && Has(b, Path)) ==> DeletesOnce(a + b)
  {
    var all := a + b;
    if DeletesOnce(a) && DeletesOnce(b) && !(Has(a, Path) && Has(b, Path)) {
      forall i, j | 0 <= i < j < |all|
        ensures !(all[i].kind.Path? && all[j].kind.Path?)
      {
        if i < |a| <= j { assert all[i] == a[i] && all[j] == b[j - |a|]; }
      }
    }
  }

  /** What two queues one behind the other say. */
  lemma Joined(a: seq<Packet>, b: seq<Packet>)
    ensures forall kind: Kind :: Has(a + b, kind) <==> Has(a, kind) || Has(b, kind)
    ensures SomeEnd(a + b) <==> SomeEnd(a) || SomeEnd(b)
    ensures SomeDeletion(a + b) <==> SomeDeletion(a) || SomeDeletion(b)
    ensures ForNear(a) && ForNear(b) ==> ForNear(a + b)
    ensures ForFar(a) && ForFar(b) ==> ForFar(a + b)
    ensures EndsOnly(a) && EndsOnly(b) ==> EndsOnly(a + b)
    ensures DeletesOnce(a) && DeletesOnce(b) && !(Has(a, Path) && Has(b, Path)) ==> DeletesOnce(a + b)
  {
    HasJoined(a, b);
    AllowedJoined(a, b);
  }

  lemma One(p: Packet)
    ensures forall kind: Kind :: Has([p], kind) <==> p.kind == kind
    ensures SomeEnd([p]) <==> EndsNear(p)
    ensures SomeDeletion([p]) <==> Deletes(p)
    ensures ForNear([p]) <==> p.kind in {Ack, Resv, PathErr, ResvTear}
    ensures ForFar([p]) <==> p.kind in {Ack, Path, PathTear}
    ensures EndsOnly([p]) <==> p.kind.Ack? || EndsNear(p)
    ensures DeletesOnce([p]) <==> p.kind in {Ack, PathTear} || Deletes(p)
  {
    assert [p][0] == p;
  }

  lemma Nothing(queue: seq<Packet>)
    requires queue == []
    ensures forall kind: Kind :: !Has(queue, kind)
    ensures !SomeEnd(queue) && !SomeDeletion(queue)
    ensures ForNear(queue) && ForFar(queue) && EndsOnly(queue) && DeletesOnce(queue)
  {
  }

  lemma Allowed(queue: seq<Packet>)
    requires queue != []
    ensures ForNear(queue) ==> ForNear(queue[1..])
    ensures ForFar(queue) ==> ForFar(queue[1..])
    ensures EndsOnly(queue) ==> EndsOnly(queue[1..])
    ensures DeletesOnce(queue) ==> DeletesOnce(queue[1..]) && (queue[0].kind.Path? ==> !Has(queue[1..], Path))
  {
  }

  /** What a queue says by its first packet and the others. */
  lemma First(queue: seq<Packet>)
    requires queue != []
    ensures forall kind: Kind :: Has(queue, kind) <==> queue[0].kind == kind || Has(queue[1..], kind)
    ensures SomeEnd(queue) <==> EndsNear(queue[0]) || SomeEnd(queue[1..])
    ensures SomeDeletion(queue) <==> Deletes(queue[0]) || SomeDeletion(queue[1..])
    ensures ForNear(queue) ==> ForNear(queue[1..]) && queue[0].kind in {Ack, Resv, PathErr, ResvTear}
    ensures ForFar(queue) ==> ForFar(queue[1..]) && queue[0].kind in {Ack, Path, PathTear}
    ensures EndsOnly(queue) ==> EndsOnly(queue[1..]) && (queue[0].kind.Ack? || EndsNear(queue[0]))
    ensures DeletesOnce(queue) ==>
      DeletesOnce(queue[1..]) && (queue[0].kind.Path? ==> !Has(queue[1..], Path))
      && (queue[0].kind in {Ack, PathTear} || Deletes(queue[0]))
  {
    assert queue == [queue[0]] + queue[1..];
    HasJoined([queue[0]], queue[1..]);
    One(queue[0]);
    Allowed(queue);
  }

  lemma AcksSay(wanted: bool)
    ensures forall kind: Kind :: Has(Acks(wanted), kind) <==> wanted && kind.Ack?
    ensures !SomeEnd(Acks(wanted)) && !SomeDeletion(Acks(wanted))
    ensures ForNear(Acks(wanted)) && ForFar(Acks(wanted)) && EndsOnly(Acks(wanted)) && DeletesOnce(Acks(wanted))
  {
    One(Plain(Ack));
    Nothing([]);
  }

  /** The acks and one packet behind a queue. */
  lemma WithAnswer(queue: seq<Packet>, wanted: bool, p: Packet)
    ensures var all := queue + (Acks(wanted) + [p]);
      && (forall kind: Kind :: kind != Ack ==> (Has(all, kind) <==> Has(queue, kind) || p.kind == kind))
      && (SomeEnd(all) <==> SomeEnd(queue) || EndsNear(p)) && (SomeDeletion(all) <==> SomeDeletion(queue) || Deletes(p))
      && (ForNear(queue) && p.kind in {Resv, PathErr, ResvTear} ==> ForNear(all))
      && (ForFar(queue) && p.kind in {Path, PathTear} ==> ForFar(all))
      && (EndsOnly(queue) && EndsNear(p) ==> EndsOnly(all))
      && (DeletesOnce(queue) && p.kind.PathTear? ==> DeletesOnce(all))
  {
    hide Has, SomeEnd, SomeDeletion, ForNear, ForFar, EndsOnly, DeletesOnce, Acks;
    AcksSay(wanted);
    One(p);
    Joined(queue, Acks(wanted));
    Joined(queue + Acks(wanted), [p]);
    Associates(queue, Acks(wanted), [p]);
  }

  lemma OnlyAcked(queue: seq<Packet>, wanted: bool)
    ensures var all := queue + Acks(wanted);
      && (forall kind: Kind :: kind != Ack ==> (Has(all, kind) <==> Has(queue, kind)))
      && (SomeEnd(all) <==> SomeEnd(queue)) && (SomeDeletion(all) <==> SomeDeletion(queue))
      && (ForNear(queue) ==> ForNear(all)) && (ForFar(queue) ==> ForFar(all))
      && (EndsOnly(queue) ==> EndsOnly(all)) && (DeletesOnce(queue) ==> DeletesOnce(all))
  {
    hide Has, SomeEnd, SomeDeletion, ForNear, ForFar, EndsOnly, DeletesOnce, Acks;
    AcksSay(wanted);
    Joined(queue, Acks(wanted));
  }

  // ---- What one end does

  lemma ResvEnds(g: Globals, c: Conn, m: Packet, key: int)
    requires c.direction.Outgoing? && m.kind.Resv? && EndsNear(m)
    ensures var e := OutgoingGets(g, c, m, key);
      e.conn.state.Down? && Bare(e.conn) && e.conn.direction.Outgoing? && Packets(e.out) == [Plain(PathTear)]
    ensures OutgoingGets(g, c, m, key).conn.waited == c.waited
  {
    Few(Ask(ResvTear), Send(Plain(PathTear)));
    Few(Send(Plain(PathTear)), Ask(Resv));
    PacketsJoin([Ask(ResvTear), Send(Plain(PathTear))], [Ask(Resv)]);
    Few(Ask(Resv), Ask(Resv));
  }

  lemma ErrorEnds(g: Globals, c: Conn, m: Packet, key: int)
    requires c.direction.Outgoing? && m.kind in {PathErr, ResvTear}
    ensures var e := OutgoingGets(g, c, m, key);
      && e.conn.state.Down? && Bare(e.conn) && e.conn.direction.Outgoing? && e.conn.waited == c.waited
      && Packets(e.out) == []
  {
    ErrorSends(g, c, m, key);
  }

  /** A PATHERR, a RESVTEAR or a RESV with deletion flags takes the creator down, without label and key; the RESV is
      answered by a PATHTEAR. */
  lemma NearEnds(g: Globals, c: Conn, m: Packet, ackWanted: bool, asked: bool, key: int)
    requires c.direction.Outgoing? && EndsNear(m) && (c.state.Up? || (c.state.Down? && Bare(c)))
    ensures var e := Arrive(g, c, m, ackWanted, asked, key);
      && e.conn.state.Down? && Bare(e.conn) && e.conn.direction.Outgoing? && e.conn.waited == c.waited
      && Packets(e.out)
        == if m.kind.Resv? && c.state.Up? then Acks(ackWanted) + [Plain(PathTear)] else Acks(ackWanted)
  {
    hide OutgoingGets, Packets, Bare;
    ArrivalSends(g, c, m, ackWanted, asked, key);
    assert Acks(ackWanted) + [] == Acks(ackWanted);
    if m.kind.Resv? { ResvEnds(g, c, m, key); } else { ErrorEnds(g, c, m, key); }
  }

  /** Any other RESV leaves it as it is. */
  lemma NearIgnores(g: Globals, c: Conn, m: Packet, ackWanted: bool, asked: bool, key: int)
    requires c.direction.Outgoing? && c.state in {Up, Down} && m.kind.Resv? && !EndsNear(m)
    ensures Arrive(g, c, m, ackWanted, asked, key).conn == c
    ensures Packets(Arrive(g, c, m, ackWanted, asked, key).out) == Acks(ackWanted)
  {
    ArrivalSends(g, c, m, ackWanted, asked, key);
    Few(Ask(Resv), Ask(Resv));
    assert [] + [Ask(Resv)] == [Ask(Resv)];
    assert Acks(ackWanted) + [] == Acks(ackWanted);
  }

  lemma DeletionTaken(h: Globals, c: Conn, m: Packet)
    requires Rtad(m) == REFLECT_DELETE && c.direction.Incoming?
    ensures var e := RespondPath(h, c, m); var sent := Packets(e.out);
      && e.conn.direction.Incoming? && |sent| == 1 && EndsNear(sent[0])
      && (if h.ietf then e.conn.state.PathRecv? && sent[0].kind.Resv? && Rtad(sent[0]) == DELETE_IN_PROGRESS
          else e.conn.state.Down? && Bare(e.conn) && sent[0].kind.PathErr?)
  {
    var out := RespondPath(h, c, m).out;
    Few(out[0], Send(Plain(PathErr)));
    Few(Send(Plain(PathErr)), Ask(Path));
  }

  /** A PATH with the deletion flags takes an OIF agent down, which answers an error; an IETF agent says it is deleting
      the path, and waits. */
  lemma FarDeletes(h: Globals, c: Conn, m: Packet, ackWanted: bool, asked: bool, key: int) returns (answer: Packet)
    requires c.direction.Incoming? && c.state.Up? && Deletes(m)
    ensures EndsNear(answer)
    ensures var e := Arrive(h, c, m, ackWanted, asked, key);
      && e.conn.direction.Incoming? && Packets(e.out) == Acks(ackWanted) + [answer]
      && (if h.ietf then e.conn.state.PathRecv? && answer.kind.Resv? && Rtad(answer) == DELETE_IN_PROGRESS
          else e.conn.state.Down? && Bare(e.conn) && answer.kind.PathErr?)
  {
    hide RespondPath, Packets, EndsNear, Bare;
    ArrivalSends(h, c, m, ackWanted, asked, key);
    DeletionTaken(h, c, m);
    answer := Packets(RespondPath(h, c, m).out)[0];
    assert Packets(RespondPath(h, c, m).out) == [answer];
  }

  /** An incoming end that is not up refuses every PATH, and goes down with the label it has. */
  lemma FarRefuses(h: Globals, c: Conn, m: Packet, ackWanted: bool, asked: bool, key: int) returns (answer: Packet)
    requires c.direction.Incoming? && c.state in {PathRecv, Down} && m.kind.Path?
    ensures answer.kind.PathErr?
    ensures var e := Arrive(h, c, m, ackWanted, asked, key);
      && e.conn.direction.Incoming? && e.conn.state.Down? && e.conn.mplsLabel == c.mplsLabel
      && Packets(e.out) == Acks(ackWanted) + [answer]
  {
    ArrivalSends(h, c, m, ackWanted, asked, key);
    RefusalSends(h, c, m);
    answer := Packets(RespondPathNack(h, c, m).out)[0];
  }

  lemma FarTorn(h: Globals, c: Conn, m: Packet, ackWanted: bool, asked: bool, key: int)
    requires c.direction.Incoming? && m.kind.PathTear? && c.state in {PathRecv, Up, Down}
    ensures var e := Arrive(h, c, m, ackWanted, asked, key);
      && e.conn.state.Down? && e.conn.direction.Incoming? && Packets(e.out) == Acks(ackWanted)
      && (if c.state.Down? then e.conn == c else Bare(e.conn))
  {
    ArrivalSends(h, c, m, ackWanted, asked, key);
    Few(Ask(PathTear), Ask(PathTear));
    assert Acks(ackWanted) + [] == Acks(ackWanted);
  }

  /** What the outgoing end does when asked to delete: it sends a PATH with the flags, or goes down and tears. */
  lemma NearDestroys(g: Globals, c: Conn, resolved: u32)
    requires c.direction.Outgoing?
    ensures var e := Destroy(g, c, resolved); var sent := Packets(e.out);
      && e.conn.direction.Outgoing? && |sent| == 1 && e.conn.waited == c.waited
      && (if g.ietf && c.upstream.None? then
            e.conn.state.Down? && Bare(e.conn) && sent[0].kind.PathTear?
          else
            && e.conn.state == c.state && e.conn.mplsLabel == c.mplsLabel && e.conn.key == c.key && Deletes(sent[0])
            && sent[0].upstream == (if g.ietf then c.pathUpstream else c.upstream) && e.conn.router == resolved
            && e.conn.pathRtad == (if g.ietf then sent[0].rtad else c.pathRtad))
  {
    Few(Destroy(g, c, resolved).out[0], Ask(Path));
  }

  /** And the incoming end: it sends a RESV with the flags, or goes down and tears. */
  lemma FarDestroys(h: Globals, c: Conn, resolved: u32)
    requires c.direction.Incoming?
    ensures var e := Destroy(h, c, resolved); var sent := Packets(e.out);
      && e.conn.direction.Incoming? && |sent| == 1 && EndsNear(sent[0])
      && (if h.ietf && c.upstream.None? then e.conn.state.Down? && Bare(e.conn) && sent[0].kind.ResvTear?
          else e.conn == c && sent[0].kind.Resv? && sent[0].mplsLabel == c.mplsLabel)
  {
    Few(Destroy(h, c, resolved).out[0], Ask(Path));
  }

  lemma NearTicks(g: Globals, c: Conn)
    requires c.direction.Outgoing? && c.state in {Up, Down} && c.waited <= g.setupTimeout
    ensures var e := Tick(g, c); var sent := Packets(e.out);
      && e.conn.direction.Outgoing? && e.conn.state == c.state && e.conn.waited == c.waited
      && e.conn.mplsLabel == c.mplsLabel && e.conn.key == c.key
      && (sent == [] || (c.state.Up? && |sent| == 1 && sent[0].kind.Path?))
  {
    if Tick(g, c).out != [] { Few(Tick(g, c).out[0], Ask(Path)); }
  }

  lemma FarTicks(h: Globals, c: Conn)
    requires c.direction.Incoming?
    ensures var e := Tick(h, c);
      e.conn.direction.Incoming? && e.conn.state == c.state && Packets(e.out) == []
  {
  }

  // ---- On the way down

  /** Neither end is left up or waiting unless something is under way that changes it. */
  predicate GoingDown(g: Globals, h: Globals, x: Link, asked: bool) {
    && x.near.conn.direction.Outgoing? && x.near.conn.state in {Up, Down} && x.near.pending == []
    && x.near.conn.waited <= g.setupTimeout && (x.near.conn.state.Down? ==> Bare(x.near.conn))
    && x.far.conn.direction.Incoming? && x.far.conn.state in {PathRecv, Up, Down} && x.far.pending == []
    && (!h.ietf ==> !x.far.conn.state.PathRecv?)
    && ForNear(x.toNear) && ForFar(x.toFar)
    && (Has(x.toFar, PathTear) ==> x.near.conn.state.Down?)
    && (Has(x.toNear, PathErr) || Has(x.toNear, ResvTear) ==> x.far.conn.state.Down?)
    && (asked && x.near.conn.state.Up? && x.far.conn.state.Up? ==> SomeDeletion(x.toFar) || SomeEnd(x.toNear))
    && (x.near.conn.state.Up? && !x.far.conn.state.Up? ==> SomeEnd(x.toNear))
    && (x.near.conn.state.Down? && !x.far.conn.state.Down? ==> Has(x.toFar, PathTear))
  }

  lemma NearReceives(g: Globals, h: Globals, x: Link, turn: Turn, asked: bool)
    requires GoingDown(g, h, x, asked) && CanTake(x, turn) && turn.atNear && turn.e.Network?
    ensures GoingDown(g, h, Taken(g, h, x, turn), asked)
  {
    hide Arrive, Packets, Has, SomeEnd, SomeDeletion, ForNear, ForFar, EndsNear;
    var e := turn.e;
    First(x.toNear);
    OnlyAcked(x.toFar, e.ackWanted);
    if e.m.kind.Ack? {
      GetsAck(g, x.near.conn, e.m, e.asked, e.key);
      assert x.toFar + [] == x.toFar;
      NotEnd(e.m);
    } else if EndsNear(e.m) {
      NearEnds(g, x.near.conn, e.m, e.ackWanted, e.asked, e.key);
      WithAnswer(x.toFar, e.ackWanted, Plain(PathTear));
    } else {
      OtherResv(e.m);
      NearIgnores(g, x.near.conn, e.m, e.ackWanted, e.asked, e.key);
    }
  }

  lemma NotEnd(m: Packet)
    requires m.kind.Ack?
    ensures !EndsNear(m)
  {
  }

  lemma OtherResv(m: Packet)
    requires m.kind in {Resv, PathErr, ResvTear} && !EndsNear(m)
    ensures m.kind.Resv?
  {
  }

  lemma FarReceives(g: Globals, h: Globals, x: Link, turn: Turn, asked: bool)
    requires GoingDown(g, h, x, asked) && CanTake(x, turn) && !turn.atNear && turn.e.Network?
    ensures GoingDown(g, h, Taken(g, h, x, turn), asked)
  {
    hide Arrive, Packets, Has, SomeEnd, SomeDeletion, ForNear, ForFar, EndsNear, Deletes;
    var e := turn.e;
    First(x.toFar);
    OnlyAcked(x.toNear, e.ackWanted);
    if e.m.kind.Ack? {
      GetsAck(h, x.far.conn, e.m, e.asked, e.key);
      assert x.toNear + [] == x.toNear;
      NoDeletionIn(e.m);
    } else if e.m.kind.PathTear? {
      FarTorn(h, x.far.conn, e.m, e.ackWanted, e.asked, e.key);
      NoDeletionIn(e.m);
    } else {
      FarReceivesPath(g, h, x, turn, asked);
    }
  }

  lemma NoDeletionIn(m: Packet)
    requires m.kind in {Ack, PathTear}
    ensures !Deletes(m)
  {
  }

  lemma FarReceivesPath(g: Globals, h: Globals, x: Link, turn: Turn, asked: bool)
    requires GoingDown(g, h, x, asked) && CanTake(x, turn) && !turn.atNear && turn.e.Network? && turn.e.m.kind.Path?
    ensures GoingDown(g, h, Taken(g, h, x, turn), asked)
  {
    hide Arrive, Packets, Has, SomeEnd, SomeDeletion, ForNear, ForFar;
    var e := turn.e;
    First(x.toFar);
    if !x.far.conn.state.Up? {
      var answer := FarRefuses(h, x.far.conn, e.m, e.ackWanted, e.asked, e.key);
      WithAnswer(x.toNear, e.ackWanted, answer);
    } else if Deletes(e.m) {
      var answer := FarDeletes(h, x.far.conn, e.m, e.ackWanted, e.asked, e.key);
      WithAnswer(x.toNear, e.ackWanted, answer);
    } else {
      RefreshKeepsUp(h, x.far.conn, e.m, e.ackWanted, e.asked, e.key);
      WithAnswer(x.toNear, e.ackWanted,
        Confirmation(Arrive(h, x.far.conn, e.m, e.ackWanted, e.asked, e.key).conn.mplsLabel));
    }
  }

  lemma NearAsks(g: Globals, h: Globals, x: Link, turn: Turn, asked: bool)
    requires GoingDown(g, h, x, asked) && CanTake(x, turn) && turn.atNear && turn.e.Destroyed?
    ensures GoingDown(g, h, Taken(g, h, x, turn), true)
  {
    hide Destroy, Packets, Has, SomeEnd, SomeDeletion, ForNear, ForFar;
    NearDestroys(g, x.near.conn, turn.e.resolved);
    var sent := Packets(Destroy(g, x.near.conn, turn.e.resolved).out);
    One(sent[0]);
    assert sent == [sent[0]];
    Joined(x.toFar, sent);
  }

  lemma FarAsks(g: Globals, h: Globals, x: Link, turn: Turn, asked: bool)
    requires GoingDown(g, h, x, asked) && CanTake(x, turn) && !turn.atNear && turn.e.Destroyed?
    ensures GoingDown(g, h, Taken(g, h, x, turn), true)
  {
    hide Destroy, Packets, Has, SomeEnd, SomeDeletion, ForNear, ForFar;
    FarDestroys(h, x.far.conn, turn.e.resolved);
    var sent := Packets(Destroy(h, x.far.conn, turn.e.resolved).out);
    One(sent[0]);
    assert sent == [sent[0]];
    Joined(x.toNear, sent);
  }

  lemma TimePasses(g: Globals, h: Globals, x: Link, turn: Turn, asked: bool)
    requires GoingDown(g, h, x, asked) && CanTake(x, turn) && turn.e.Ticked?
    ensures GoingDown(g, h, Taken(g, h, x, turn), asked)
  {
    hide Tick, Packets, Has, SomeEnd, SomeDeletion, ForNear, ForFar;
    if turn.atNear {
      NearTicks(g, x.near.conn);
      var sent := Packets(Tick(g, x.near.conn).out);
      if sent == [] {
        assert x.toFar + [] == x.toFar;
      } else {
        One(sent[0]);
        assert sent == [sent[0]];
        Joined(x.toFar, sent);
      }
    } else {
      FarTicks(h, x.far.conn);
      assert x.toNear + [] == x.toNear;
    }
  }

  lemma GoingDownTurn(g: Globals, h: Globals, x: Link, turn: Turn, asked: bool)
    requires GoingDown(g, h, x, asked) && CanTake(x, turn)
    ensures GoingDown(g, h, Taken(g, h, x, turn), asked || turn.e.Destroyed?)
  {
    assert !turn.e.Answered? && !turn.e.Created?;
    hide GoingDown, Taken;
    match turn.e
    case Network(_, _, _, _) =>
      if turn.atNear { NearReceives(g, h, x, turn, asked); } else { FarReceives(g, h, x, turn, asked); }
    case Destroyed(_) => if turn.atNear { NearAsks(g, h, x, turn, asked); } else { FarAsks(g, h, x, turn, asked); }
    case _ => TimePasses(g, h, x, turn, asked);
  }

  // ---- Every run

  /** Both ends are up, in time for the creator's timeout, and nothing is under way. */
  predicate Established(g: Globals, x: Link) {
    && x.near.conn.direction.Outgoing? && x.near.conn.state.Up? && x.near.conn.waited <= g.setupTimeout
    && x.far.conn.direction.Incoming? && x.far.conn.state.Up? && x.far.conn.key == 0 && Quiet(x)
  }

  predicate Deleted(turns: seq<Turn>, atNear: bool) {
    exists i :: 0 <= i < |turns| && turns[i].e.Destroyed? && turns[i].atNear == atNear
  }

  lemma DeletedLast(turns: seq<Turn>, last: Turn)
    ensures forall atNear: bool ::
      Deleted(turns + [last], atNear) <==> Deleted(turns, atNear) || (last.e.Destroyed? && last.atNear == atNear)
  {
    forall atNear: bool
      ensures Deleted(turns, atNear) ==> Deleted(turns + [last], atNear)
      ensures last.e.Destroyed? && last.atNear == atNear ==> Deleted(turns + [last], atNear)
    {
      if Deleted(turns, atNear) {
        var i :| 0 <= i < |turns| && turns[i].e.Destroyed? && turns[i].atNear == atNear;
        assert (turns + [last])[i] == turns[i];
      }
      assert (turns + [last])[|turns|] == last;
    }
  }

  lemma AtFirst(g: Globals, h: Globals, x: Link)
    requires Established(g, x)
    ensures GoingDown(g, h, x, false) && Steady(x.far) && !Leaky(x.far.conn)
    ensures !Deleted([], true) && !Deleted([], false)
  {
    Nothing(x.toNear);
    Nothing(x.toFar);
  }

  lemma Unfold(g: Globals, h: Globals, x: Link, turns: seq<Turn>)
    requires turns != [] && Plays(g, h, x, turns)
    ensures var init, last := turns[..|turns| - 1], turns[|turns| - 1];
      && turns == init + [last] && Plays(g, h, x, init) && CanTake(Played(g, h, x, init), last)
      && Played(g, h, x, turns) == Taken(g, h, Played(g, h, x, init), last)
  {
  }

  lemma {:induction false} GoingDownRun(g: Globals, h: Globals, x: Link, turns: seq<Turn>)
    requires Established(g, x) && Plays(g, h, x, turns)
    ensures GoingDown(g, h, Played(g, h, x, turns), Deleted(turns, true) || Deleted(turns, false))
    decreases |turns|
  {
    hide GoingDown, Taken, Established, Deleted, CanTake;
    if turns == [] {
      AtFirst(g, h, x);
    } else {
      var init, last := turns[..|turns| - 1], turns[|turns| - 1];
      Unfold(g, h, x, turns);
      GoingDownRun(g, h, x, init);
      DeletedLast(init, last);
      GoingDownTurn(g, h, Played(g, h, x, init), last, Deleted(init, true) || Deleted(init, false));
    }
  }

  // ---- The label of the incoming end

  /** A step lost track of the incoming end's label, and none has dropped it since. */
  predicate FarLost(g: Globals, h: Globals, x: Link, turns: seq<Turn>)
    requires Plays(g, h, x, turns)
    decreases |turns|
  {
    turns != [] &&
    var init, last := turns[..|turns| - 1], turns[|turns| - 1];
    if last.atNear then FarLost(g, h, x, init)
    else
      LosesTrack(h, Played(g, h, x, init).far, last.e)
      || (FarLost(g, h, x, init) && !DropsLabel(h, Played(g, h, x, init).far, last.e))
  }

  lemma {:induction false} LeftExactly(g: Globals, h: Globals, x: Link, turns: seq<Turn>)
    requires Established(g, x) && Plays(g, h, x, turns)
    ensures Steady(Played(g, h, x, turns).far)
    ensures Leaky(Played(g, h, x, turns).far.conn) <==> FarLost(g, h, x, turns)
    decreases |turns|
  {
    if turns == [] {
      AtFirst(g, h, x);
    } else {
      var init, last := turns[..|turns| - 1], turns[|turns| - 1];
      Unfold(g, h, x, turns);
      LeftExactly(g, h, x, init);
      var y := Played(g, h, x, init);
      hide Steady, Leaky, LosesTrack, DropsLabel, Next, EffectOf;
      if !last.atNear {
        SteadyStep(h, y.far, last.e);
        LeakStep(h, y.far, last.e);
      }
    }
  }

  /** An OIF agent never waits with a label, so it never loses one. */
  lemma {:induction false} OifKeepsTrack(g: Globals, h: Globals, x: Link, turns: seq<Turn>)
    requires Established(g, x) && Plays(g, h, x, turns) && !h.ietf
    ensures !FarLost(g, h, x, turns)
    decreases |turns|
  {
    if turns != [] {
      var init, last := turns[..|turns| - 1], turns[|turns| - 1];
      OifKeepsTrack(g, h, x, init);
      GoingDownRun(g, h, x, init);
      var y := Played(g, h, x, init);
      assert CanTake(y, last) && y.far.conn.direction.Incoming? && !y.far.conn.state.PathRecv?;
      hide Played, Plays, GoingDown;
    }
  }

  // ---- One deletion, and no refresh

  /** Only packets and deletions; the creator is asked once. */
  predicate TakesDown(turn: Turn, nearAsked: bool) {
    turn.e.Network? || (turn.e.Destroyed? && !(turn.atNear && nearAsked))
  }

  predicate AllTakeDown(turns: seq<Turn>) {
    forall i :: 0 <= i < |turns| ==> TakesDown(turns[i], Deleted(turns[..i], true))
  }

  /** Then no PATH is under way to an end that waits. */
  predicate Orderly(x: Link, nearAsked: bool) {
    && EndsOnly(x.toNear) && DeletesOnce(x.toFar)
    && (!nearAsked || x.far.conn.state.PathRecv? ==> !Has(x.toFar, Path))
    && (x.far.conn.state.PathRecv? ==> nearAsked)
  }

  lemma OrderlyNear(g: Globals, h: Globals, x: Link, turn: Turn, nearAsked: bool, asked: bool)
    requires GoingDown(g, h, x, asked) && Orderly(x, nearAsked) && CanTake(x, turn) && turn.atNear && turn.e.Network?
    ensures Orderly(Taken(g, h, x, turn), nearAsked)
  {
    hide Arrive, Packets, Has, SomeEnd, SomeDeletion, ForNear, ForFar, EndsOnly, DeletesOnce, EndsNear;
    var e := turn.e;
    First(x.toNear);
    OnlyAcked(x.toFar, e.ackWanted);
    if e.m.kind.Ack? {
      GetsAck(g, x.near.conn, e.m, e.asked, e.key);
      assert x.toFar + [] == x.toFar;
    } else {
      NearEnds(g, x.near.conn, e.m, e.ackWanted, e.asked, e.key);
      WithAnswer(x.toFar, e.ackWanted, Plain(PathTear));
    }
  }

  lemma OrderlyFar(g: Globals, h: Globals, x: Link, turn: Turn, nearAsked: bool, asked: bool)
    requires GoingDown(g, h, x, asked) && Orderly(x, nearAsked) && CanTake(x, turn) && !turn.atNear && turn.e.Network?
    ensures Orderly(Taken(g, h, x, turn), nearAsked)
  {
    hide Arrive, Packets, Has, SomeEnd, SomeDeletion, ForNear, ForFar, EndsOnly, DeletesOnce;
    var e := turn.e;
    First(x.toFar);
    OnlyAcked(x.toNear, e.ackWanted);
    if e.m.kind.Ack? {
      GetsAck(h, x.far.conn, e.m, e.asked, e.key);
      assert x.toNear + [] == x.toNear;
    } else if e.m.kind.PathTear? {
      FarTorn(h, x.far.conn, e.m, e.ackWanted, e.asked, e.key);
    } else if x.far.conn.state.Up? {
      var answer := FarDeletes(h, x.far.conn, e.m, e.ackWanted, e.asked, e.key);
      WithAnswer(x.toNear, e.ackWanted, answer);
    } else {
      var answer := FarRefuses(h, x.far.conn, e.m, e.ackWanted, e.asked, e.key);
      WithAnswer(x.toNear, e.ackWanted, answer);
    }
  }

  lemma OrderlyAsked(g: Globals, h: Globals, x: Link, turn: Turn, nearAsked: bool, asked: bool)
    requires GoingDown(g, h, x, asked) && Orderly(x, nearAsked) && CanTake(x, turn) && turn.e.Destroyed?
    requires TakesDown(turn, nearAsked)
    ensures Orderly(Taken(g, h, x, turn), nearAsked || turn.atNear)
  {
    hide Destroy, Packets, Has, SomeEnd, SomeDeletion, ForNear, ForFar, EndsOnly, DeletesOnce;
    var sent := if turn.atNear then Packets(Destroy(g, x.near.conn, turn.e.resolved).out)
      else Packets(Destroy(h, x.far.conn, turn.e.resolved).out);
    if turn.atNear {
      NearDestroys(g, x.near.conn, turn.e.resolved);
      Joined(x.toFar, sent);
    } else {
      FarDestroys(h, x.far.conn, turn.e.resolved);
      Joined(x.toNear, sent);
    }
    One(sent[0]);
    assert sent == [sent[0]];
  }

  lemma OrderlyTurn(g: Globals, h: Globals, x: Link, turn: Turn, nearAsked: bool, asked: bool)
    requires GoingDown(g, h, x, asked) && Orderly(x, nearAsked) && CanTake(x, turn) && TakesDown(turn, nearAsked)
    ensures Orderly(Taken(g, h, x, turn), nearAsked || (turn.e.Destroyed? && turn.atNear))
    ensures !turn.atNear ==> !LosesTrack(h, x.far, turn.e)
  {
    if turn.e.Destroyed? {
      OrderlyAsked(g, h, x, turn, nearAsked, asked);
    } else if turn.atNear {
      OrderlyNear(g, h, x, turn, nearAsked, asked);
    } else {
      OrderlyFar(g, h, x, turn, nearAsked, asked);
      First(x.toFar);
    }
  }

  lemma LastTakesDown(turns: seq<Turn>)
    requires AllTakeDown(turns) && turns != []
    ensures var init, last := turns[..|turns| - 1], turns[|turns| - 1];
      AllTakeDown(init) && TakesDown(last, Deleted(init, true))
  {
    var init := turns[..|turns| - 1];
    forall i | 0 <= i < |init|
      ensures TakesDown(init[i], Deleted(init[..i], true))
    {
      assert init[..i] == turns[..i];
    }
  }

  lemma OrderlyAtFirst(g: Globals, x: Link)
    requires Established(g, x)
    ensures Orderly(x, false) && !Deleted([], true)
  {
    Nothing(x.toNear);
    Nothing(x.toFar);
  }

  lemma {:induction false} OrderlyRun(g: Globals, h: Globals, x: Link, turns: seq<Turn>)
    requires Established(g, x) && Plays(g, h, x, turns) && AllTakeDown(turns)
    ensures Orderly(Played(g, h, x, turns), Deleted(turns, true)) && !FarLost(g, h, x, turns)
    decreases |turns|
  {
    hide GoingDown, Orderly, Taken, Established, TakesDown, AllTakeDown, Deleted, CanTake, LosesTrack, DropsLabel;
    if turns == [] {
      OrderlyAtFirst(g, x);
    } else {
      var init, last := turns[..|turns| - 1], turns[|turns| - 1];
      Unfold(g, h, x, turns);
      LastTakesDown(turns);
      OrderlyRun(g, h, x, init);
      GoingDownRun(g, h, x, init);
      DeletedLast(init, last);
      OrderlyTurn(g, h, Played(g, h, x, init), last, Deleted(init, true), Deleted(init, true) || Deleted(init, false));
    }
  }

  // ---- The result

  /** Whichever end of a path that is up is asked to delete it, or both, however often, whatever profiles they have,
      while refreshes go on and packets are delivered in any order of the two directions: once nothing is under way
      both ends are down. The creator holds no label and no key; the other end holds none if and only if no step lost
      track of one. None does when it is an OIF agent, or when the creator is asked once and does not refresh. */
  lemma DeletionCompletes(g: Globals, h: Globals, x: Link, turns: seq<Turn>)
    requires Established(g, x) && Plays(g, h, x, turns)
    ensures var y := Played(g, h, x, turns);
      Quiet(y) && (Deleted(turns, true) || Deleted(turns, false)) ==>
        && y.near.conn.state.Down? && y.near.conn.mplsLabel == 0 && y.near.conn.key == 0
        && y.far.conn.state.Down?
        && (y.far.conn.mplsLabel == 0 && y.far.conn.key == 0 <==> !FarLost(g, h, x, turns))
    ensures !h.ietf || AllTakeDown(turns) ==> !FarLost(g, h, x, turns)
  {
    GoingDownRun(g, h, x, turns);
    LeftExactly(g, h, x, turns);
    Nothing([]);
    if !h.ietf { OifKeepsTrack(g, h, x, turns); }
    if AllTakeDown(turns) { OrderlyRun(g, h, x, turns); }
  }

  // ---- A deletion that comes too early

  const OIF: Globals := Globals(false, false, 5)

  lemma OneTurn(x: Link, turns: seq<Turn>, turn: Turn)
    requires Plays(OIF, OIF, x, turns) && CanTake(Played(OIF, OIF, x, turns), turn)
    ensures Plays(OIF, OIF, x, turns + [turn])
    ensures Played(OIF, OIF, x, turns + [turn]) == Taken(OIF, OIF, Played(OIF, OIF, x, turns), turn)
  {
    assert (turns + [turn])[..|turns|] == turns;
  }

  /** The PATH, its deletion, and the answer of the manager, who has not been told of the deletion. */
  const CREATION: Event := Created(1, 2, None, None)
  const DELETION: Packet := Packet(Path, Some(REFLECT_DELETE), None, 0)
  const EARLY: seq<Turn> := [
    Turn(false, Network(Plain(Path), false, true, 0)), Turn(true, Destroyed(1)),
    Turn(false, Network(DELETION, false, true, 0)), Turn(true, Network(Plain(PathErr), false, true, 0)),
    Turn(false, ConnectionRuns.Answered(0, false)), Turn(true, Network(Confirmation(1), false, true, 0))
  ]

  lemma EarlyPackets()
    ensures Packets([Send(Plain(Path))]) == [Plain(Path)] && Packets([Ask(Path)]) == []
    ensures Packets([Send(DELETION)]) == [DELETION] && Packets([Send(Plain(PathErr))]) == [Plain(PathErr)]
    ensures Packets([Ask(PathErr)]) == [] && Packets([Send(Confirmation(1))]) == [Confirmation(1)]
  {
    Few(Send(Plain(Path)), Ask(Path));
    Few(Ask(Path), Ask(Path));
    Few(Send(DELETION), Ask(Path));
    Few(Send(Plain(PathErr)), Ask(Path));
    Few(Ask(PathErr), Ask(Path));
    Few(Send(Confirmation(1)), Ask(Path));
  }

  /** Six turns one after the other. */
  lemma SixTurns(x: Link, a: Link, b: Link, c: Link, d: Link, e: Link, turns: seq<Turn>)
    requires |turns| == 6
    requires CanTake(x, turns[0]) && CanTake(a, turns[1]) && CanTake(b, turns[2]) && CanTake(c, turns[3])
    requires CanTake(d, turns[4]) && CanTake(e, turns[5])
    requires Taken(OIF, OIF, x, turns[0]) == a && Taken(OIF, OIF, a, turns[1]) == b
    requires Taken(OIF, OIF, b, turns[2]) == c && Taken(OIF, OIF, c, turns[3]) == d
    requires Taken(OIF, OIF, d, turns[4]) == e
    ensures Plays(OIF, OIF, x, turns) && Played(OIF, OIF, x, turns) == Taken(OIF, OIF, e, turns[5])
  {
    hide Taken, CanTake;
    OneTurn(x, [], turns[0]);
    OneTurn(x, [] + [turns[0]], turns[1]);
    OneTurn(x, [] + [turns[0]] + [turns[1]], turns[2]);
    OneTurn(x, [] + [turns[0]] + [turns[1]] + [turns[2]], turns[3]);
    OneTurn(x, [] + [turns[0]] + [turns[1]] + [turns[2]] + [turns[3]], turns[4]);
    OneTurn(x, [] + [turns[0]] + [turns[1]] + [turns[2]] + [turns[3]] + [turns[4]], turns[5]);
    assert turns == [] + [turns[0]] + [turns[1]] + [turns[2]] + [turns[3]] + [turns[4]] + [turns[5]];
  }

  /** A path that is deleted while the other end's manager has not answered can be left up there for good: the answer is
      taken although the deletion has been refused before it. */
  lemma DeletedTooEarly()
    ensures var x := Started(OIF, OIF, Newborn(30), Newborn(30), CREATION);
      && Plays(OIF, OIF, x, EARLY)
      && var y := Played(OIF, OIF, x, EARLY);
         Quiet(y) && y.near.conn.state.Down? && y.far.conn.state.Up? && y.far.conn.direction.Incoming?
  {
    EarlyPackets();
    var x := Started(OIF, OIF, Newborn(30), Newborn(30), CREATION);
    assert x.toFar == [Plain(Path)] && x.toNear == [];
    EarlyStart(x);
    var a := Taken(OIF, OIF, x, EARLY[0]);
    var b := Taken(OIF, OIF, a, EARLY[1]);
    EarlyRefusal(b);
    var c := Taken(OIF, OIF, b, EARLY[2]);
    var d := Taken(OIF, OIF, c, EARLY[3]);
    EarlyAnswer(d);
    hide Taken, CanTake, Started, Quiet;
    SixTurns(x, a, b, c, d, Taken(OIF, OIF, d, EARLY[4]), EARLY);
  }

  lemma EarlyStart(x: Link)
    requires x == Started(OIF, OIF, Newborn(30), Newborn(30), CREATION)
    requires x.toFar == [Plain(Path)] && x.toNear == []
    ensures CanTake(x, EARLY[0])
    ensures var a := Taken(OIF, OIF, x, EARLY[0]);
      && CanTake(a, EARLY[1])
      && var b := Taken(OIF, OIF, a, EARLY[1]);
         && b.near.conn.direction.Outgoing? && b.near.conn.state.PathSent? && b.near.pending == []
         && b.far.conn.direction.Incoming? && b.far.conn.state.PathRecv? && b.far.pending == [Plain(Path)]
         && b.far.conn.mplsLabel == 0 && b.far.conn.labelId == 0 && b.toFar == [DELETION] && b.toNear == []
  {
    EarlyPackets();
    assert EffectOf(OIF, x.far, EARLY[0].e).out == [Ask(Path)];
    var a := Taken(OIF, OIF, x, EARLY[0]);
    assert EffectOf(OIF, a.near, EARLY[1].e).out == [Send(DELETION)];
  }

  lemma EarlyRefusal(b: Link)
    requires b.near.conn.direction.Outgoing? && b.near.conn.state.PathSent? && b.near.pending == []
    requires b.far.conn.direction.Incoming? && b.far.conn.state.PathRecv? && b.far.pending == [Plain(Path)]
    requires b.far.conn.mplsLabel == 0 && b.far.conn.labelId == 0 && b.toFar == [DELETION] && b.toNear == []
    ensures CanTake(b, EARLY[2])
    ensures var c := Taken(OIF, OIF, b, EARLY[2]);
      && CanTake(c, EARLY[3])
      && var d := Taken(OIF, OIF, c, EARLY[3]);
         && d.near.conn.direction.Outgoing? && d.near.conn.state.Down? && d.near.pending == []
         && d.far.conn.direction.Incoming? && d.far.conn.state.Down? && d.far.pending == [Plain(Path)]
         && d.far.conn.mplsLabel == 0 && d.far.conn.labelId == 0 && d.toFar == [] && d.toNear == []
  {
    EarlyPackets();
    assert EffectOf(OIF, b.far, EARLY[2].e).out == [Send(Plain(PathErr))];
    var c := Taken(OIF, OIF, b, EARLY[2]);
    assert EffectOf(OIF, c.near, EARLY[3].e).out == [Ask(PathErr)];
  }

  lemma EarlyAnswer(d: Link)
    requires d.near.conn.direction.Outgoing? && d.near.conn.state.Down? && d.near.pending == []
    requires d.far.conn.direction.Incoming? && d.far.conn.state.Down? && d.far.pending == [Plain(Path)]
    requires d.far.conn.mplsLabel == 0 && d.far.conn.labelId == 0 && d.toFar == [] && d.toNear == []
    ensures CanTake(d, EARLY[4])
    ensures var e := Taken(OIF, OIF, d, EARLY[4]);
      && CanTake(e, EARLY[5])
      && var y := Taken(OIF, OIF, e, EARLY[5]);
         Quiet(y) && y.near.conn.state.Down? && y.far.conn.state.Up? && y.far.conn.direction.Incoming?
  {
    EarlyPackets();
    assert EffectOf(OIF, d.far, EARLY[4].e).out == [Send(Confirmation(1))];
    var e := Taken(OIF, OIF, d, EARLY[4]);
    assert EffectOf(OIF, e.near, EARLY[5].e).out == [];
  }
}
