/** One end of a tunnel: the signalling automaton of `rsvp_connection.cpp`. The class does what its methods do under the
    `access` semaphore; the functions say what each of them makes of a state, and what it sends and asks. */
module Connections {
  import opened Bytes
  import opened Options

  /** A refresh interval; the thread divides by it. */
  type pos = n: nat | n > 0 witness 1

  datatype PathState =
    | Null | Initiated | PathSent | PathRecv | ResvRecv | ResvSent | Up
    | ResvTearRecv | ResvTearSent | PathTearSent | PathTearRecv | Down

  datatype Direction = Undefined | Incoming | Outgoing

  datatype Kind = Path | Resv | PathErr | ResvErr | PathTear | ResvTear | ResvConf | Bundle | Ack | Srefresh | Hello

  /** What the automaton looks at in a parsed message: the RTAD flags of ADMIN_STATUS, the upstream label, and the label
      of a RESV. */
  datatype Packet = Packet(kind: Kind, rtad: Option<byte>, upstream: Option<u32>, mplsLabel: u32)

  datatype Output = Send(packet: Packet) | Ask(about: Kind)

  /** `globals`: the protocol version, as far as it matters here, the translator mode, and `path_setup_timeout`. */
  datatype Globals = Globals(ietf: bool, translator: bool, setupTimeout: nat)

  /** The fields of a connection. `pathRtad` and `pathUpstream` are what `path_configuration` holds, `upstream` is the
      upstream label in `configuration`; `ticks` and `waited` are the counters of the refresh thread. */
  datatype Conn = Conn(
    state: PathState, direction: Direction, mplsLabel: u32, key: int, router: u32, destination: u32,
    pathRtad: Option<byte>, pathUpstream: Option<u32>, upstream: Option<u32>,
    labelId: u32, interval: pos, ticks: nat, waited: nat, refreshing: bool)

  datatype Effect = Effect(conn: Conn, out: seq<Output>)

  const ERROR_CANNOT_DESTROY: int := -22

  /** `update` overwrites what the other configuration has. */
  function Latest(have: Option<u32>, got: Option<u32>): Option<u32> {
    if got.Some? then got else have
  }

  function Plain(kind: Kind): Packet {
    Packet(kind, None, None, 0)
  }

  /** The low four bits of the flags, with 0 for no ADMIN_STATUS: none of the tests below is for 0. */
  function Rtad(m: Packet): byte {
    if m.rtad.Some? then m.rtad.value % 16 else 0
  }

  const REFLECT_DELETE: byte := 9
  const DELETE_IN_PROGRESS: byte := 1

  // ---- What each handler does

  /** `check_if_packet_valid`. */
  predicate Acceptable(c: Conn, kind: Kind) {
    && kind !in {Bundle, Ack, Srefresh, Hello}
    && (c.direction.Outgoing? ==> kind !in {Path, ResvErr, PathTear, ResvConf})
    && (c.direction.Incoming? ==> kind !in {Resv, PathErr, ResvTear})
    && (c.direction.Undefined? ==> kind == Path)
    && (c.state in {Null, Down} ==> kind in {Path, PathErr})
    && (c.state == PathSent ==> kind in {Resv, PathErr})
  }

  /** No label, no key, no path. */
  function Dropped(c: Conn): Conn {
    c.(state := Down, mplsLabel := 0, key := 0)
  }

  function NextLabel(c: Conn): u32 {
    (c.labelId + 1) % WORD32
  }

  /** `respond_path` as far as the label and the path configuration. */
  function TakePath(c: Conn, m: Packet): Conn {
    c.(state := PathRecv,
       mplsLabel := if c.mplsLabel == 0 then NextLabel(c) else c.mplsLabel,
       labelId := if c.mplsLabel == 0 then NextLabel(c) else c.labelId,
       pathRtad := m.rtad, pathUpstream := m.upstream)
  }

  /** `respond_path`. The reflect-and-delete flags bring the path down; an IETF agent only says so and waits. */
  function RespondPath(g: Globals, c: Conn, m: Packet): Effect {
    var taken := TakePath(c, m);
    if Rtad(m) == REFLECT_DELETE then
      if g.ietf then Effect(taken, [Send(Packet(Resv, Some(1), None, taken.mplsLabel))])
      else Effect(Dropped(taken), [Ask(PathTear), Send(Plain(PathErr))])
    else
      var mplsLabel := if m.upstream.Some? then m.upstream.value else taken.mplsLabel;
      Effect(taken.(state := Up, mplsLabel := mplsLabel, upstream := m.upstream),
             [Send(Packet(Resv, None, None, mplsLabel))])
  }

  /** `respond_path_nack` leaves the label as it is. */
  function RespondPathNack(g: Globals, c: Conn, m: Packet): Effect {
    Effect(c.(state := Down, upstream := m.upstream),
      [Send(Packet(PathErr, None, if g.ietf then None else m.upstream, 0))])
  }

  /** `respond_resv`. */
  function RespondResv(g: Globals, c: Conn, m: Packet, key: int): Effect {
    if Rtad(m) == REFLECT_DELETE then Effect(Dropped(c), [Ask(ResvTear), Send(Plain(PathTear))])
    else if Rtad(m) == DELETE_IN_PROGRESS then Effect(Dropped(c).(destination := 0), [Send(Plain(PathTear))])
    else if c.state == Up then Effect(c, [])
    else
      Effect(c.(state := Up, mplsLabel := m.mplsLabel, key := key,
        upstream := if !g.ietf then Latest(c.upstream, m.upstream) else c.upstream),
             if g.ietf then [] else [Send(Plain(ResvConf))])
  }

  function AckReply(ackWanted: bool): seq<Output> {
    if ackWanted then [Send(Plain(Ack))] else []
  }

  /** An outgoing end: every message it understands is also reported to the manager. */
  function OutgoingGets(g: Globals, c: Conn, m: Packet, key: int): Effect {
    match m.kind
    case Resv => var e := RespondResv(g, c, m, key); Effect(e.conn, e.out + [Ask(Resv)])
    case PathErr => Effect(Dropped(c), [Ask(PathErr)])
    case ResvTear => Effect(Dropped(c), [Ask(ResvTear)])
    case _ => Effect(c, [])
  }

  /** An incoming end; `asked` says whether `ask_interface` found a manager to ask. */
  function IncomingGets(g: Globals, c: Conn, m: Packet, asked: bool): Effect {
    match m.kind
    case Path =>
      if c.state == Null then
        if asked then Effect(c.(state := PathRecv), [Ask(Path)])
        else
          var e := if g.translator then RespondPathNack(g, c.(state := PathRecv), m)
            else RespondPath(g, c.(state := PathRecv), m);
          Effect(e.conn, [Ask(Path)] + e.out)
      else if c.state == Up then RespondPath(g, c, m)
      else RespondPathNack(g, c, m)
    case ResvErr => Effect(c.(state := Down, mplsLabel := 0), [Ask(ResvErr)])
    case PathTear => Effect(Dropped(c), [Ask(PathTear)])
    case _ => Effect(c, [])
  }

  function Directed(c: Conn, kind: Kind): Conn {
    if c.direction.Undefined? && kind == Path then c.(direction := Incoming) else c
  }

  /** `get_packet` for a packet from the network; `ackWanted` is the flag of its MESSAGE_ID, `key` what `set_out_label`
      returns. */
  function Arrive(g: Globals, c: Conn, m: Packet, ackWanted: bool, asked: bool, key: int): Effect {
    if !Acceptable(c, m.kind) then Effect(c, AckReply(ackWanted))
    else
      var d := Directed(c, m.kind);
      var e := if d.direction.Outgoing? then OutgoingGets(g, d, m, key) else IncomingGets(g, d, m, asked);
      Effect(e.conn, AckReply(ackWanted) + e.out)
  }

  /** `get_packet` for a PATH that the manager has answered. */
  function Answer(g: Globals, c: Conn, m: Packet, nack: bool): Effect {
    if !Acceptable(c, Path) then Effect(c, [])
    else
      var d := Directed(c, Path);
      if nack then RespondPathNack(g, d, m) else RespondPath(g, d, m)
  }

  /** `create_path`, with what it puts in the path configuration. */
  function Create(g: Globals, c: Conn, router: u32, destination: u32, rtad: Option<byte>,
      upstream: Option<u32>): Effect {
    Effect(c.(state := PathSent, direction := Outgoing, router := router, destination := destination,
              pathRtad := rtad, pathUpstream := upstream, upstream := Latest(c.upstream, upstream)),
           [Send(PathPacket(g, rtad, upstream))])
  }

  /** Only the OIF messages carry ADMIN_STATUS. */
  function PathPacket(g: Globals, rtad: Option<byte>, upstream: Option<u32>): Packet {
    Packet(Path, if g.ietf then None else rtad, upstream, 0)
  }

  /** `destroy_path`; `resolved` is the router address it works out anew. */
  function Destroy(g: Globals, c: Conn, resolved: u32): Effect {
    if c.direction.Undefined? then Effect(c, [])
    else if g.ietf && c.upstream.None? then
      Effect(Dropped(c).(destination := 0), [Send(Plain(if c.direction.Outgoing? then PathTear else ResvTear))])
    else if c.direction.Outgoing? then
      Effect(c.(router := resolved, pathRtad := if g.ietf then Some(REFLECT_DELETE) else c.pathRtad),
             [Send(Packet(Path, Some(REFLECT_DELETE), if g.ietf then c.pathUpstream else c.upstream, 0))])
    else Effect(c, [Send(Packet(Resv, Some(REFLECT_DELETE), None, c.mplsLabel))])
  }

  predicate Settled(c: Conn) {
    c.state == Up || c.state == Down
  }

  predicate TimesOut(g: Globals, c: Conn) {
    !c.state.Down? && c.direction.Outgoing? && c.waited + (if Settled(c) then 0 else 1) > g.setupTimeout
  }

  /** One iteration of `refresh_path`. */
  function Tick(g: Globals, c: Conn): Effect
  {
    if !c.refreshing then Effect(c, [])
    else if c.state == Down then Effect(c.(refreshing := false), [])
    else
      var d := c.(waited := c.waited + if Settled(c) then 0 else 1);
      if TimesOut(g, c) then Effect(d.(state := Down, refreshing := false), [Ask(PathErr)])
      else
        Effect(d.(ticks := d.ticks + 1),
               if c.ticks % c.interval == 0 && c.state == Up && c.direction.Outgoing? && c.router != 0
               then [Send(PathPacket(g, c.pathRtad, c.pathUpstream))] else [])
  }

  // ---- The object

  class RsvpConnection {
    const globals: Globals
    const interval: pos
    var pathState: PathState
    var pathDirection: Direction
    var mplsLabel: u32
    var key: int
    var routerAddress: u32
    var destAddress: u32
    var pathRtad: Option<byte>
    var pathUpstream: Option<u32>
    var upstream: Option<u32>
    var labelId: u32
    var ticks: nat
    var waited: nat
    var refreshing: bool
    /** What has been sent and asked, oldest first. */
    var out: seq<Output>

    function View(): Conn
      reads this
    {
      Conn(pathState, pathDirection, mplsLabel, key, routerAddress, destAddress, pathRtad, pathUpstream, upstream,
           labelId, interval, ticks, waited, refreshing)
    }

    /** The state is the one of the effect, and its output has been added. */
    ghost predicate Became(outBefore: seq<Output>, e: Effect)
      reads this
    {
      View() == e.conn && out == outBefore + e.out
    }

    constructor (g: Globals, refreshInterval: pos, router: u32, lastLabel: u32)
      ensures View() == Conn(Null, Undefined, 0, 0, router, 0, None, None, None, lastLabel, refreshInterval, 0, 0, true)
      ensures out == [] && globals == g && interval == refreshInterval
    {
      globals, interval := g, refreshInterval;
      pathState, pathDirection, mplsLabel, key := Null, Undefined, 0, 0;
      routerAddress, destAddress, pathRtad, pathUpstream, upstream := router, 0, None, None, None;
      labelId, ticks, waited, refreshing := lastLabel, 0, 0, true;
      out := [];
    }

    method Emit(o: Output)
      modifies this`out
      ensures out == old(out) + [o]
    {
      out := out + [o];
    }

    method TakeDown()
      modifies this`pathState, this`mplsLabel, this`key
      ensures pathState == Down && mplsLabel == 0 && key == 0
    {
      mplsLabel := 0;
      key := 0;
      pathState := Down;
    }

    method RespondToPath(m: Packet)
      modifies this
      ensures Became(old(out), RespondPath(globals, old(View()), m))
    {
      StartPath(m);
      if m.rtad.Some? && m.rtad.value % 16 == REFLECT_DELETE {
        RespondToDelete();
        return;
      }
      if m.upstream.Some? {
        mplsLabel := m.upstream.value;
      }
      upstream := m.upstream;
      Emit(Send(Packet(Resv, None, None, mplsLabel)));
      pathState := Up;
    }

    method StartPath(m: Packet)
      modifies this
      ensures Became(old(out), Effect(TakePath(old(View()), m), []))
    {
      pathRtad, pathUpstream := m.rtad, m.upstream;
      if mplsLabel == 0 {
        labelId := (labelId + 1) % WORD32;
        mplsLabel := labelId;
      }
      pathState := PathRecv;
    }

    /** `PathErr_RD_flags_response`. */
    method RespondToDelete()
      modifies this
      ensures Became(old(out), if globals.ietf
                then Effect(old(View()), [Send(Packet(Resv, Some(1), None, old(mplsLabel)))])
                else Effect(Dropped(old(View())), [Ask(PathTear), Send(Plain(PathErr))]))
    {
      if globals.ietf {
        Emit(Send(Packet(Resv, Some(1), None, mplsLabel)));
      } else {
        Emit(Ask(PathTear));
        Emit(Send(Plain(PathErr)));
        TakeDown();
      }
    }

    method RespondToPathNack(m: Packet)
      modifies this
      ensures Became(old(out), RespondPathNack(globals, old(View()), m))
    {
      pathState := PathRecv;
      upstream := m.upstream;
      Emit(Send(Packet(PathErr, None, if globals.ietf then None else m.upstream, 0)));
      pathState := Down;
    }

    method RespondToResv(m: Packet, outKey: int)
      modifies this
      ensures Became(old(out), RespondResv(globals, old(View()), m, outKey))
    {
      if m.rtad.Some? {
        if m.rtad.value % 16 == REFLECT_DELETE {
          Emit(Ask(ResvTear));
          Emit(Send(Plain(PathTear)));
          TakeDown();
          return;
        } else if m.rtad.value % 16 == DELETE_IN_PROGRESS {
          Emit(Send(Plain(PathTear)));
          destAddress := 0;
          TakeDown();
          return;
        }
      }
      if pathState == Up {
        return;
      }
      pathState := ResvRecv;
      mplsLabel := m.mplsLabel;
      key := outKey;
      if !globals.ietf {
        upstream := Latest(upstream, m.upstream);
        Emit(Send(Plain(ResvConf)));
      }
      pathState := Up;
    }

    /** `get_packet` for a packet from the network. */
    method GetPacket(m: Packet, ackWanted: bool, asked: bool, outKey: int)
      modifies this
      ensures Became(old(out), Arrive(globals, old(View()), m, ackWanted, asked, outKey))
    {
      if ackWanted {
        Emit(Send(Plain(Ack)));
      }
      if Acceptable(View(), m.kind) {
        Deliver(m, asked, outKey);
      }
    }

    method Deliver(m: Packet, asked: bool, outKey: int)
      requires Acceptable(View(), m.kind)
      modifies this
      ensures var d := Directed(old(View()), m.kind);
        Became(old(out), if d.direction.Outgoing? then OutgoingGets(globals, d, m, outKey)
          else IncomingGets(globals, d, m, asked))
    {
      if pathDirection == Undefined && m.kind == Path {
        pathDirection := Incoming;
      }
      if pathDirection == Outgoing {
        GetOutgoing(m, outKey);
      } else {
        GetIncoming(m, asked);
      }
    }

    method GetOutgoing(m: Packet, outKey: int)
      modifies this
      ensures Became(old(out), OutgoingGets(globals, old(View()), m, outKey))
    {
      var done := true;
      match m.kind {
        case Resv => RespondToResv(m, outKey);
        case PathErr => TakeDown();
        case ResvTear => TakeDown();
        case _ => done := false;
      }
      if done {
        Emit(Ask(m.kind));
      }
    }

    method GetIncoming(m: Packet, asked: bool)
      modifies this
      ensures Became(old(out), IncomingGets(globals, old(View()), m, asked))
    {
      match m.kind {
        case Path =>
          if pathState == Null {
            pathState := PathRecv;
            Emit(Ask(Path));
            if !asked {
              if globals.translator {
                RespondToPathNack(m);
              } else {
                RespondToPath(m);
              }
            }
          } else if pathState == Up {
            RespondToPath(m);
          } else {
            RespondToPathNack(m);
          }
        case ResvErr =>
          pathState := Down;
          mplsLabel := 0;
          Emit(Ask(ResvErr));
        case PathTear =>
          TakeDown();
          Emit(Ask(PathTear));
        case _ =>
      }
    }

    /** `get_packet` for a PATH that the manager has answered. */
    method GetAnswer(m: Packet, nack: bool)
      requires m.kind == Path
      modifies this
      ensures Became(old(out), Answer(globals, old(View()), m, nack))
    {
      if !Acceptable(View(), Path) {
        return;
      }
      if pathDirection == Undefined {
        pathDirection := Incoming;
      }
      if nack {
        RespondToPathNack(m);
      } else {
        RespondToPath(m);
      }
    }

    method CreatePath(router: u32, destination: u32, rtad: Option<byte>, up: Option<u32>)
      modifies this
      ensures Became(old(out), Create(globals, old(View()), router, destination, rtad, up))
    {
      routerAddress := router;
      pathDirection := Outgoing;
      pathState := Initiated;
      destAddress := destination;
      upstream := Latest(upstream, up);
      pathRtad, pathUpstream := rtad, up;
      Emit(Send(PathPacket(globals, rtad, up)));
      pathState := PathSent;
    }

    method DestroyPath(resolved: u32) returns (code: int)
      modifies this
      ensures Became(old(out), Destroy(globals, old(View()), resolved))
      ensures code == if old(pathDirection) == Undefined then ERROR_CANNOT_DESTROY else 0
    {
      if pathDirection == Undefined {
        return ERROR_CANNOT_DESTROY;
      }
      if globals.ietf && upstream.None? {
        Emit(Send(Plain(if pathDirection == Outgoing then PathTear else ResvTear)));
        pathState := PathTearSent;
        destAddress := 0;
        TakeDown();
        return 0;
      }
      if pathDirection == Outgoing {
        if globals.ietf {
          pathRtad := Some(REFLECT_DELETE);
        }
        routerAddress := resolved;
        Emit(Send(Packet(Path, Some(REFLECT_DELETE), if globals.ietf then pathUpstream else upstream, 0)));
      } else {
        Emit(Send(Packet(Resv, Some(REFLECT_DELETE), None, mplsLabel)));
      }
      code := 0;
    }

    /** One iteration of `refresh_path`. */
    method RefreshPath()
      modifies this
      ensures Became(old(out), Tick(globals, old(View())))
    {
      if !refreshing {
        return;
      }
      if pathState == Down {
        refreshing := false;
        return;
      }
      if pathState != Up {
        waited := waited + 1;
      }
      if waited > globals.setupTimeout && pathDirection == Outgoing {
        Emit(Ask(PathErr));
        pathState := Down;
        refreshing := false;
        return;
      }
      if ticks % interval == 0 {
        if pathState == Up && pathDirection == Outgoing && routerAddress != 0 {
          Emit(Send(PathPacket(globals, pathRtad, pathUpstream)));
        }
      }
      ticks := ticks + 1;
    }
  }
}
