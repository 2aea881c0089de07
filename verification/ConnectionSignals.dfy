/** What a connection says to the other end and to the manager, over every run: refreshes, labels, acknowledgements and
    reports. */
module ConnectionSignals {
  import opened Bytes
  import opened Options
  import opened Connections
  import opened ConnectionRuns

  // ---- Refreshes repeat the creation

  /** An outgoing end that would refresh with these packets. */
  predicate Repeats(g: Globals, c: Conn, out: seq<Output>) {
    c.direction.Outgoing? && out == [Send(PathPacket(g, c.pathRtad, c.pathUpstream))]
  }

  lemma RepeatsStep(g: Globals, s: Station, e: Event, out: seq<Output>)
    requires Enabled(s, e) && Repeats(g, s.conn, out)
    ensures Repeats(g, Next(g, s, e).conn, out)
  {
  }

  lemma {:induction false} RepeatsRun(g: Globals, s: Station, events: seq<Event>, out: seq<Output>)
    requires Runs(g, s, events) && Repeats(g, s.conn, out)
    ensures Repeats(g, After(g, s, events).conn, out)
    decreases |events|
  {
    if events != [] {
      RepeatsRun(g, s, events[..|events| - 1], out);
      RepeatsStep(g, After(g, s, events[..|events| - 1]), events[|events| - 1], out);
    }
  }

  /** The path is up, its thread runs, and the tick is one of those that refresh. */
  predicate Due(c: Conn) {
    c.refreshing && c.state.Up? && c.router != 0 && c.ticks % c.interval == 0
  }

  /** Whatever came before the creation of a path and whatever has happened since, a refresh sends what the creation
      sent, and a tick sends nothing else. */
  lemma RefreshesAsCreated(g: Globals, s: Station, before: seq<Event>, create: Event, since: seq<Event>)
    requires create.Created? && Runs(g, s, before + [create] + since)
    ensures Runs(g, s, before) && Enabled(After(g, s, before), create)
    ensures var t := After(g, s, before + [create] + since);
      Tick(g, t.conn).out
      == if Strikes(g, t, Ticked) then [Ask(PathErr)]
         else if Due(t.conn) then EffectOf(g, After(g, s, before), create).out
         else []
  {
    Extend(g, s, before + [create], since);
    Extend(g, s, before, [create]);
    assert [create][..0] == [];
    assert After(g, After(g, s, before), []) == After(g, s, before);
    RepeatsRun(g, After(g, s, before + [create]), since, EffectOf(g, After(g, s, before), create).out);
  }

  /** The addresses of an outgoing path: until it goes down the destination is the one it was created with, and the
      router is, until a deletion resolves it anew. */
  predicate Addressed(c: Conn, create: Event, redirected: bool)
    requires create.Created?
  {
    && c.direction.Outgoing? && c.state in {PathSent, Up, Down}
    && (!c.state.Down? ==> c.destination == create.destination)
    && (!redirected ==> c.router == create.router)
  }

  lemma AddressedStep(g: Globals, s: Station, e: Event, create: Event, redirected: bool)
    requires create.Created? && Enabled(s, e) && Addressed(s.conn, create, redirected)
    ensures Addressed(Next(g, s, e).conn, create, redirected || e.Destroyed?)
  {
  }

  predicate AnyDeletion(events: seq<Event>) {
    events != [] && (AnyDeletion(events[..|events| - 1]) || events[|events| - 1].Destroyed?)
  }

  lemma {:induction false} AddressesKept(g: Globals, s: Station, create: Event, since: seq<Event>)
    requires create.Created? && Enabled(s, create) && Runs(g, Next(g, s, create), since)
    ensures Addressed(After(g, Next(g, s, create), since).conn, create, AnyDeletion(since))
    decreases |since|
  {
    if since != [] {
      var init := since[..|since| - 1];
      AddressesKept(g, s, create, init);
      AddressedStep(g, After(g, Next(g, s, create), init), since[|since| - 1], create, AnyDeletion(init));
    }
  }

  /** When a path of the agent's own is taken down by a deletion without the exchange of flags, or by a RESV that says
      the deletion is under way, its destination is released; nothing else does that. */
  lemma DestinationReleased(g: Globals, s: Station, e: Event)
    requires Enabled(s, e) && !e.Created? && s.conn.direction.Outgoing? && s.conn.destination != 0
    ensures Next(g, s, e).conn.destination == s.conn.destination || Next(g, s, e).conn.destination == 0
    ensures Next(g, s, e).conn.destination == 0 <==>
            || (e.Destroyed? && g.ietf && s.conn.upstream.None?)
            || (e.Network? && e.m.kind.Resv? && Rtad(e.m) == DELETE_IN_PROGRESS && s.conn.state !in {Null, Down})
  {
  }

  /** The upstream label of an outgoing path is the one its creator gave, until an OIF agent comes up by a RESV that
      names another. */
  lemma UpstreamStep(g: Globals, s: Station, e: Event)
    requires Enabled(s, e) && Resting(s.conn) && s.conn.direction.Outgoing?
    ensures Next(g, s, e).conn.upstream
      == if !g.ietf && !s.conn.state.Up? && Next(g, s, e).conn.state.Up? && e.Network? && e.m.upstream.Some?
         then e.m.upstream else s.conn.upstream
  {
  }

  // ---- What is sent

  /** What an end of this direction says: kinds that the other end understands, and the label it holds in every RESV. */
  predicate Speaks(c: Conn, p: Packet) {
    && (c.direction.Outgoing? ==> p.kind in {Path, PathTear, ResvConf})
    && (c.direction.Incoming? ==> p.kind in {Resv, PathErr, ResvTear})
    && (p.kind.Resv? ==> p.mplsLabel == c.mplsLabel)
  }

  predicate AllSpeak(c: Conn, out: seq<Output>) {
    forall i :: 0 <= i < |out| && out[i].Send? ==> Speaks(c, out[i].packet)
  }

  lemma RespondPathSpeaks(g: Globals, c: Conn, m: Packet)
    requires c.direction.Incoming?
    ensures AllSpeak(RespondPath(g, c, m).conn, RespondPath(g, c, m).out)
    ensures AllSpeak(RespondPathNack(g, c, m).conn, RespondPathNack(g, c, m).out)
  {
  }

  lemma OutgoingSpeaks(g: Globals, c: Conn, m: Packet, key: int)
    requires c.direction.Outgoing?
    ensures AllSpeak(OutgoingGets(g, c, m, key).conn, OutgoingGets(g, c, m, key).out)
  {
  }

  lemma IncomingSpeaks(g: Globals, c: Conn, m: Packet, asked: bool)
    requires c.direction.Incoming?
    ensures AllSpeak(IncomingGets(g, c, m, asked).conn, IncomingGets(g, c, m, asked).out)
  {
    RespondPathSpeaks(g, c, m);
    RespondPathSpeaks(g, c.(state := PathRecv), m);
  }

  lemma LocalSpeaks(g: Globals, s: Station, e: Event)
    requires Enabled(s, e) && !e.Network? && !e.Answered?
    ensures AllSpeak(Next(g, s, e).conn, EffectOf(g, s, e).out)
  {
  }

  /** Without the ack that a packet asked for. */
  function Said(g: Globals, s: Station, e: Event): seq<Output>
    requires Enabled(s, e)
  {
    var out := EffectOf(g, s, e).out;
    if e.Network? && e.ackWanted && out != [] then out[1..] else out
  }

  lemma SaidOnArrival(g: Globals, s: Station, e: Event)
    requires e.Network? && Resting(s.conn)
    ensures e.ackWanted ==> EffectOf(g, s, e).out != [] && EffectOf(g, s, e).out[0] == Send(Plain(Ack))
    ensures var d := Directed(s.conn, e.m.kind);
      if !Acceptable(s.conn, e.m.kind) then Said(g, s, e) == [] && Next(g, s, e).conn == s.conn
      else
        !d.direction.Undefined?
        && var got := if d.direction.Outgoing? then OutgoingGets(g, d, e.m, e.key)
          else IncomingGets(g, d, e.m, e.asked);
           Said(g, s, e) == got.out && Next(g, s, e).conn == got.conn
  {
  }

  /** Whatever an end says, the other understands while its path is up, and every RESV names the label the sender then
      holds. An ack is sent first, exactly for a packet that asks for one. */
  lemma SpeaksToOther(g: Globals, s: Station, e: Event)
    requires Enabled(s, e) && Resting(s.conn) && AllPaths(s.pending)
    ensures AllSpeak(Next(g, s, e).conn, Said(g, s, e))
    ensures e.Network? && e.ackWanted ==> EffectOf(g, s, e).out == [Send(Plain(Ack))] + Said(g, s, e)
    ensures !(e.Network? && e.ackWanted) ==> EffectOf(g, s, e).out == Said(g, s, e)
  {
    hide OutgoingGets, IncomingGets, RespondPath, RespondPathNack;
    if e.Network? {
      SaidOnArrival(g, s, e);
      var d := Directed(s.conn, e.m.kind);
      if d.direction.Outgoing? {
        OutgoingSpeaks(g, d, e.m, e.key);
      } else if d.direction.Incoming? {
        IncomingSpeaks(g, d, e.m, e.asked);
      }
    } else if e.Answered? {
      var d := Directed(s.conn, Path);
      if d.direction.Incoming? { RespondPathSpeaks(g, d, s.pending[e.k]); }
    } else {
      LocalSpeaks(g, s, e);
    }
  }

  /** What one end says is accepted by every other whose path is up in the opposite direction, and refused by every one
      in the same direction, so that a packet that comes back to its sender does nothing. */
  lemma Understood(c: Conn, p: Packet, other: Conn)
    requires Speaks(c, p) && !c.direction.Undefined? && !other.direction.Undefined? && other.state.Up?
    ensures Acceptable(other, p.kind) <==> other.direction != c.direction
  {
  }

  // ---- What is reported

  /** A path that goes down other than by the user's own deletion is reported, as what took it down; a RESV with the
      deletion flags is reported as a RESVTEAR too. */
  lemma DownIsTold(g: Globals, s: Station, e: Event)
    requires Enabled(s, e) && Steady(s) && s.conn.state.Up? && Next(g, s, e).conn.state.Down? && !e.Destroyed?
    ensures Ask(if e.Ticked? then PathErr
                else if s.conn.direction.Outgoing? || e.m.kind.ResvErr? then e.m.kind
                else PathTear) in EffectOf(g, s, e).out
    ensures e.Network? && e.m.kind.Resv? && Rtad(e.m) == REFLECT_DELETE ==> Ask(ResvTear) in EffectOf(g, s, e).out
  {
    var out := EffectOf(g, s, e).out;
    assert out[|out| - 1] in out && out[0] in out;
    if |out| > 1 { assert out[1] in out; }
  }

  /** Of what takes a path down while it is up only the timeout leaves it its label and key. */
  lemma DownDrops(g: Globals, s: Station, e: Event)
    requires Enabled(s, e) && Steady(s) && s.conn.state.Up? && Next(g, s, e).conn.state.Down?
    ensures Next(g, s, e).conn.mplsLabel == if e.Ticked? then s.conn.mplsLabel else 0
    ensures Next(g, s, e).conn.key == if e.Ticked? then s.conn.key else 0
  {
  }

  predicate Reports(out: seq<Output>, kind: Kind) {
    exists i :: 0 <= i < |out| && out[i] == Ask(kind)
  }

  /** An outgoing path that comes up is reported. */
  lemma ComingUpIsTold(g: Globals, s: Station, e: Event)
    requires Enabled(s, e) && Resting(s.conn) && s.conn.direction.Outgoing?
    requires !s.conn.state.Up? && Next(g, s, e).conn.state.Up?
    ensures Ask(Resv) in EffectOf(g, s, e).out
  {
    var out := EffectOf(g, s, e).out;
    assert out[|out| - 1] in out;
  }

  lemma OutgoingAsks(g: Globals, c: Conn, m: Packet, key: int)
    requires !m.kind.Path?
    ensures !Reports(OutgoingGets(g, c, m, key).out, Path)
  {
  }

  lemma RespondPathAsks(g: Globals, c: Conn, m: Packet)
    ensures !Reports(RespondPath(g, c, m).out, Path) && !Reports(RespondPathNack(g, c, m).out, Path)
  {
  }

  lemma IncomingAsks(g: Globals, c: Conn, m: Packet, asked: bool)
    ensures Reports(IncomingGets(g, c, m, asked).out, Path) <==> m.kind.Path? && c.state.Null?
  {
    RespondPathAsks(g, c, m);
    if m.kind.Path? && c.state.Null? { assert IncomingGets(g, c, m, asked).out[0] == Ask(Path); }
  }

  /** The manager is asked about a PATH exactly when it is the first. */
  lemma QuestionStep(g: Globals, s: Station, e: Event)
    requires Enabled(s, e) && Resting(s.conn) && AllPaths(s.pending)
    ensures Reports(Said(g, s, e), Path) <==> e.Network? && e.m.kind.Path? && s.conn.state.Null?
  {
    if e.Network? {
      SaidOnArrival(g, s, e);
      hide OutgoingGets, IncomingGets, Reports, Said, EffectOf;
      var d := Directed(s.conn, e.m.kind);
      IncomingAsks(g, d, e.m, e.asked);
      if !e.m.kind.Path? { OutgoingAsks(g, d, e.m, e.key); }
      NothingReported();
    } else if e.Answered? {
      RespondPathAsks(g, Directed(s.conn, Path), s.pending[e.k]);
    }
  }

  lemma NothingReported()
    ensures !Reports([], Path)
  {
  }
}
