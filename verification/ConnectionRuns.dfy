/** What every run of a connection keeps: the states it rests in, its direction, its label, and how long it takes to
    come up. A run interleaves packets in any order, the manager's answers, requests, and ticks of the refresh
    thread. */
module ConnectionRuns {
  import opened Bytes
  import opened Options
  import opened Connections

  datatype Event =
    | Network(m: Packet, ackWanted: bool, asked: bool, key: int)
    | Answered(k: nat, nack: bool)
    | Created(router: u32, destination: u32, rtad: Option<byte>, upstream: Option<u32>)
    | Destroyed(resolved: u32)
    | Ticked

  /** A connection, and the PATHs the manager has been asked about and has not answered. */
  datatype Station = Station(conn: Conn, pending: seq<Packet>)

  predicate Fresh(s: Station) {
    && s.conn.state == Null && s.conn.direction == Undefined && s.conn.mplsLabel == 0 && s.conn.key == 0
    && s.conn.ticks == 0 && s.conn.waited == 0 && s.conn.refreshing && s.pending == []
  }

  /** A path is created once, on a connection that has seen no PATH, and each question is answered once. */
  predicate Enabled(s: Station, e: Event) {
    && (e.Answered? ==> e.k < |s.pending|)
    && (e.Created? ==> s.conn.direction.Undefined?)
  }

  /** The manager is asked about the PATH, and keeps it. */
  predicate Asked(c: Conn, e: Event) {
    e.Network? && e.asked && e.m.kind.Path? && Acceptable(c, Path) && c.state.Null?
  }

  function EffectOf(g: Globals, s: Station, e: Event): Effect
    requires Enabled(s, e)
  {
    match e
    case Network(m, ackWanted, asked, key) => Arrive(g, s.conn, m, ackWanted, asked, key)
    case Answered(k, nack) => Answer(g, s.conn, s.pending[k], nack)
    case Created(router, destination, rtad, upstream) => Create(g, s.conn, router, destination, rtad, upstream)
    case Destroyed(resolved) => Destroy(g, s.conn, resolved)
    case Ticked => Tick(g, s.conn)
  }

  function Next(g: Globals, s: Station, e: Event): Station
    requires Enabled(s, e)
  {
    Station(EffectOf(g, s, e).conn,
            if Asked(s.conn, e) then s.pending + [e.m]
            else if e.Answered? then s.pending[..e.k] + s.pending[e.k + 1..]
            else s.pending)
  }

  /** The events can happen one after the other. */
  predicate Runs(g: Globals, s: Station, events: seq<Event>)
    decreases |events|, 0
  {
    events == [] ||
    (Runs(g, s, events[..|events| - 1]) && Enabled(After(g, s, events[..|events| - 1]), events[|events| - 1]))
  }

  function After(g: Globals, s: Station, events: seq<Event>): Station
    requires Runs(g, s, events)
    decreases |events|, 1
  {
    if events == [] then s
    else
      var before := After(g, s, events[..|events| - 1]);
      Next(g, before, events[|events| - 1])
  }

  // ---- The invariant

  /** The states a connection is in whenever the lock is free, by direction. */
  predicate Resting(c: Conn) {
    match c.direction
    case Undefined => c.state == Null
    case Outgoing => c.state in {PathSent, Up, Down}
    case Incoming => c.state in {PathRecv, Up, Down}
  }

  /** One question at most, and while it is open nothing is up; no label is held but by a path that is up; and the
      timeout of an outgoing path has not passed it by. */
  predicate Tidy(g: Globals, s: Station) {
    && (s.conn.state in {Null, PathSent, PathRecv, Down} ==> s.conn.mplsLabel == 0 && s.conn.key == 0)
    && (s.conn.direction.Incoming? ==> s.conn.key == 0)
    && (s.pending != [] ==> |s.pending| == 1 && s.conn.direction.Incoming? && s.conn.state in {PathRecv, Down})
    && (s.conn.direction.Outgoing? && s.conn.refreshing ==> s.conn.waited <= g.setupTimeout)
  }

  lemma RestsAgain(g: Globals, s: Station, e: Event)
    requires Enabled(s, e) && Resting(s.conn)
    ensures Resting(Next(g, s, e).conn)
  {
  }

  /** The deletion flags on a PATH, which an IETF agent answers without going down. */
  predicate Deletes(m: Packet) {
    m.kind.Path? && Rtad(m) == REFLECT_DELETE
  }

  predicate AllPaths(pending: seq<Packet>) {
    forall i :: 0 <= i < |pending| ==> pending[i].kind.Path?
  }

  predicate NoDeletion(pending: seq<Packet>) {
    forall i :: 0 <= i < |pending| ==> !Deletes(pending[i])
  }

  /** What keeps labels tidy: an IETF agent is sent no deletion, and a path is created before the refresh thread has
      waited longer than the timeout. */
  predicate Considerate(g: Globals, s: Station, e: Event) {
    && (g.ietf && e.Network? ==> !Deletes(e.m))
    && (e.Created? ==> s.conn.waited <= g.setupTimeout)
  }

  predicate Kept(g: Globals, s: Station) {
    && Resting(s.conn) && Tidy(g, s) && AllPaths(s.pending) && (g.ietf ==> NoDeletion(s.pending))
  }

  lemma TidyOutgoing(g: Globals, s: Station, e: Event)
    requires e.Network? && s.conn.direction.Outgoing? && Kept(g, s)
    ensures Tidy(g, Next(g, s, e))
  {
  }

  lemma TidyIncoming(g: Globals, s: Station, e: Event)
    requires e.Network? && !s.conn.direction.Outgoing? && Kept(g, s) && Considerate(g, s, e)
    ensures Tidy(g, Next(g, s, e))
  {
  }

  lemma TidyAnswer(g: Globals, s: Station, e: Event)
    requires e.Answered? && Enabled(s, e) && Kept(g, s)
    ensures Tidy(g, Next(g, s, e))
  {
    assert s.pending[e.k].kind.Path?;
  }

  lemma TidyLocal(g: Globals, s: Station, e: Event)
    requires !e.Network? && !e.Answered? && Enabled(s, e) && Kept(g, s) && Considerate(g, s, e)
    ensures Tidy(g, Next(g, s, e))
  {
  }

  lemma KeptAgain(g: Globals, s: Station, e: Event)
    requires Enabled(s, e) && Kept(g, s) && Considerate(g, s, e)
    ensures Kept(g, Next(g, s, e))
  {
    RestsAgain(g, s, e);
    if e.Network? && s.conn.direction.Outgoing? {
      TidyOutgoing(g, s, e);
    } else if e.Network? {
      TidyIncoming(g, s, e);
    } else if e.Answered? {
      TidyAnswer(g, s, e);
    } else {
      TidyLocal(g, s, e);
    }
  }

  predicate AllConsiderate(g: Globals, s: Station, events: seq<Event>)
    requires Runs(g, s, events)
    decreases |events|
  {
    events == [] ||
    (AllConsiderate(g, s, events[..|events| - 1])
      && Considerate(g, After(g, s, events[..|events| - 1]), events[|events| - 1]))
  }

  lemma {:induction false} KeptThroughout(g: Globals, s: Station, events: seq<Event>)
    requires Fresh(s) && Runs(g, s, events) && AllConsiderate(g, s, events)
    ensures Kept(g, After(g, s, events))
    decreases |events|
  {
    if events != [] {
      var init, last := events[..|events| - 1], events[|events| - 1];
      KeptThroughout(g, s, init);
      KeptAgain(g, After(g, s, init), last);
    }
  }

  // ---- What a run shows

  /** Between steps a connection rests in one of five states, fixed by its direction. */
  lemma {:induction false} RestsThroughout(g: Globals, s: Station, events: seq<Event>)
    requires Fresh(s) && Runs(g, s, events)
    ensures Resting(After(g, s, events).conn)
    decreases |events|
  {
    if events != [] {
      RestsThroughout(g, s, events[..|events| - 1]);
      RestsAgain(g, After(g, s, events[..|events| - 1]), events[|events| - 1]);
    }
  }

  /** Where nobody deletes an IETF path or creates one late, a path that is down holds no label and no key. */
  lemma TidyWhenConsiderate(g: Globals, s: Station, events: seq<Event>)
    requires Fresh(s) && Runs(g, s, events) && AllConsiderate(g, s, events)
    ensures After(g, s, events).conn.state.Down?
      ==> After(g, s, events).conn.mplsLabel == 0 && After(g, s, events).conn.key == 0
  {
    KeptThroughout(g, s, events);
  }

  /** One step changes a direction only by setting it. */
  lemma DirectionStep(g: Globals, s: Station, e: Event)
    requires Enabled(s, e) && !s.conn.direction.Undefined?
    ensures Next(g, s, e).conn.direction == s.conn.direction
  {
  }

  lemma DownStep(g: Globals, s: Station, e: Event)
    requires Enabled(s, e) && s.conn.state.Down?
    requires e.Answered? ==> s.pending[e.k].kind.Path?
    ensures s.conn.direction.Outgoing? ==> Next(g, s, e).conn.state.Down?
    ensures s.conn.direction.Incoming? ==>
      (!Next(g, s, e).conn.state.Down? <==> e.Answered? && !e.nack && (Deletes(s.pending[e.k]) ==> g.ietf))
  {
  }

  lemma {:induction false} Extend(g: Globals, s: Station, events: seq<Event>, more: seq<Event>)
    requires Runs(g, s, events + more)
    ensures Runs(g, s, events) && Runs(g, After(g, s, events), more)
    ensures After(g, s, events + more) == After(g, After(g, s, events), more)
    decreases |more|
  {
    if more == [] {
      assert events + more == events;
    } else {
      var init := more[..|more| - 1];
      assert (events + more)[..|events + more| - 1] == events + init;
      Extend(g, s, events, init);
    }
  }

  /** Whatever happens after it is set, the direction stays. */
  lemma {:induction false} DirectionFixed(g: Globals, s: Station, more: seq<Event>)
    requires Runs(g, s, more) && !s.conn.direction.Undefined?
    ensures After(g, s, more).conn.direction == s.conn.direction
    decreases |more|
  {
    if more != [] {
      DirectionFixed(g, s, more[..|more| - 1]);
      DirectionStep(g, After(g, s, more[..|more| - 1]), more[|more| - 1]);
    }
  }

  predicate PathsPending(s: Station) {
    AllPaths(s.pending)
  }

  lemma PathsPendingStep(g: Globals, s: Station, e: Event)
    requires Enabled(s, e) && PathsPending(s)
    ensures PathsPending(Next(g, s, e))
  {
  }

  /** An outgoing path that is down stays down, whatever happens. */
  lemma {:induction false} DownForGood(g: Globals, s: Station, more: seq<Event>)
    requires Runs(g, s, more) && s.conn.direction.Outgoing? && s.conn.state.Down? && PathsPending(s)
    ensures After(g, s, more).conn.state.Down? && After(g, s, more).conn.direction.Outgoing?
    ensures PathsPending(After(g, s, more))
    decreases |more|
  {
    if more != [] {
      var before := After(g, s, more[..|more| - 1]);
      DownForGood(g, s, more[..|more| - 1]);
      DirectionStep(g, before, more[|more| - 1]);
      PathsPendingStep(g, before, more[|more| - 1]);
      DownStep(g, before, more[|more| - 1]);
    }
  }

  // ---- Exactly when a label is left

  predicate Leaky(c: Conn) {
    c.state.Down? && (c.mplsLabel != 0 || c.key != 0)
  }

  /** What every run keeps, whatever happens in it. */
  predicate Steady(s: Station) {
    && Resting(s.conn)
    && (s.conn.direction.Incoming? ==> s.conn.key == 0)
    && (s.conn.state in {Null, PathSent} ==> s.conn.mplsLabel == 0 && s.conn.key == 0)
    && (s.pending != [] ==>
          |s.pending| == 1 && s.conn.direction.Incoming? && s.conn.state in {PathRecv, Down} && s.conn.mplsLabel == 0)
    && AllPaths(s.pending)
  }

  lemma SteadyStep(g: Globals, s: Station, e: Event)
    requires Enabled(s, e) && Steady(s)
    ensures Steady(Next(g, s, e))
  {
    if e.Answered? { assert s.pending[e.k].kind.Path?; }
  }

  lemma {:induction false} SteadyThroughout(g: Globals, s: Station, events: seq<Event>)
    requires Fresh(s) && Runs(g, s, events)
    ensures Steady(After(g, s, events))
    decreases |events|
  {
    if events != [] {
      SteadyThroughout(g, s, events[..|events| - 1]);
      SteadyStep(g, After(g, s, events[..|events| - 1]), events[|events| - 1]);
    }
  }

  predicate Strikes(g: Globals, s: Station, e: Event) {
    e.Ticked? && s.conn.refreshing && !s.conn.state.Down? && TimesOut(g, s.conn)
  }

  /** A connection that waits with a label is sent another PATH, or the timeout strikes a path that is up. */
  predicate LosesTrack(g: Globals, s: Station, e: Event) {
    || (e.Network? && e.m.kind.Path? && s.conn.state.PathRecv? && s.conn.mplsLabel != 0)
    || (Strikes(g, s, e) && s.conn.state.Up? && (s.conn.mplsLabel != 0 || s.conn.key != 0))
  }

  /** What drops the label of a path that is already down. */
  predicate DropsLabel(g: Globals, s: Station, e: Event) {
    || (e.Destroyed? && g.ietf && s.conn.upstream.None?)
    || (e.Network? && e.m.kind.PathErr? && s.conn.direction.Outgoing?)
  }

  lemma LeakStep(g: Globals, s: Station, e: Event)
    requires Enabled(s, e) && Steady(s)
    ensures Leaky(Next(g, s, e).conn) <==> LosesTrack(g, s, e) || (Leaky(s.conn) && !DropsLabel(g, s, e))
  {
    if e.Answered? { assert s.pending[e.k].kind.Path?; }
  }

  /** Somewhere in the run a label is lost track of, and nothing after that drops it. */
  predicate LabelLost(g: Globals, s: Station, events: seq<Event>)
    requires Runs(g, s, events)
    decreases |events|
  {
    events != [] &&
    var init, last := events[..|events| - 1], events[|events| - 1];
    LosesTrack(g, After(g, s, init), last) || (LabelLost(g, s, init) && !DropsLabel(g, After(g, s, init), last))
  }

  /** A path is down with a label or a key exactly when it was lost track of and not dropped since. */
  lemma {:induction false} LabelLeftExactly(g: Globals, s: Station, events: seq<Event>)
    requires Fresh(s) && Runs(g, s, events)
    ensures Leaky(After(g, s, events).conn) <==> LabelLost(g, s, events)
    decreases |events|
  {
    if events != [] {
      var init := events[..|events| - 1];
      LabelLeftExactly(g, s, init);
      SteadyThroughout(g, s, init);
      LeakStep(g, After(g, s, init), events[|events| - 1]);
    }
  }

  /** After no step of the run is the path down with a label or a key. */
  predicate NeverLeaky(g: Globals, s: Station, events: seq<Event>)
    requires Runs(g, s, events)
    decreases |events|
  {
    !Leaky(After(g, s, events).conn) && (events == [] || NeverLeaky(g, s, events[..|events| - 1]))
  }

  predicate NeverLosesTrack(g: Globals, s: Station, events: seq<Event>)
    requires Runs(g, s, events)
    decreases |events|
  {
    events == [] ||
    (NeverLosesTrack(g, s, events[..|events| - 1])
      && !LosesTrack(g, After(g, s, events[..|events| - 1]), events[|events| - 1]))
  }

  /** Labels are kept tidy over a whole run exactly when none of its steps loses track of one. */
  lemma {:induction false} LabelHygiene(g: Globals, s: Station, events: seq<Event>)
    requires Fresh(s) && Runs(g, s, events)
    ensures NeverLeaky(g, s, events) <==> NeverLosesTrack(g, s, events)
    decreases |events|
  {
    if events != [] {
      var init := events[..|events| - 1];
      LabelHygiene(g, s, init);
      SteadyThroughout(g, s, init);
      LeakStep(g, After(g, s, init), events[|events| - 1]);
      if NeverLosesTrack(g, s, init) { NotLeakyNow(g, s, init); }
    }
  }

  lemma NotLeakyNow(g: Globals, s: Station, events: seq<Event>)
    requires Runs(g, s, events) && NeverLeaky(g, s, events)
    ensures !Leaky(After(g, s, events).conn)
  {
  }

  /** The PATH that the event makes the agent respond to as an incoming end, if it makes it respond to one. */
  function Accepts(g: Globals, s: Station, e: Event): Option<Packet>
    requires Enabled(s, e)
  {
    if s.conn.direction.Outgoing? then None
    else if e.Answered? && !e.nack then Some(s.pending[e.k])
    else if
      && e.Network? && e.m.kind.Path?
      && (s.conn.state.Up? || (s.conn.state.Null? && !e.asked && !g.translator))
    then Some(e.m)
    else None
  }

  /** A connection waits with a label exactly when it is an IETF agent that accepted a deletion, and nothing has moved
      it since. */
  lemma {:induction false} WaitsLabelled(g: Globals, s: Station, e: Event)
    requires Enabled(s, e) && Steady(s)
    ensures var c := Next(g, s, e).conn;
      c.state.PathRecv? && c.mplsLabel != 0 <==>
      match Accepts(g, s, e)
      case Some(m) => g.ietf && Deletes(m) && TakePath(s.conn, m).mplsLabel != 0
      case None =>
        s.conn.state.PathRecv? && s.conn.mplsLabel != 0
        && !(e.Network? && e.m.kind in {Path, PathTear, ResvErr}) && !(e.Destroyed? && g.ietf && s.conn.upstream.None?)
  {
    if e.Answered? { assert s.pending[e.k].kind.Path?; }
  }

  // ---- Runs in which labels are left

  const FIRST: Globals := Globals(true, false, 5)

  function Newborn(interval: pos): Station {
    Station(Conn(Null, Undefined, 0, 0, 0, 0, None, None, None, 0, interval, 0, 0, true), [])
  }

  lemma OneEvent(g: Globals, s: Station, events: seq<Event>, e: Event)
    requires Runs(g, s, events) && Enabled(After(g, s, events), e)
    ensures Runs(g, s, events + [e]) && After(g, s, events + [e]) == Next(g, After(g, s, events), e)
  {
    assert (events + [e])[..|events + [e]| - 1] == events;
  }

  /** An IETF agent whose path is up and is sent a deletion keeps its label while it waits, and another PATH then
      takes it down with the label in place. */
  lemma LabelLeftByDeletion()
    ensures var deletion := Packet(Path, Some(REFLECT_DELETE), None, 0);
      var up := [Network(Plain(Path), false, true, 0), Answered(0, false)];
      var events := up + [Network(deletion, false, true, 0)] + [Network(Plain(Path), false, true, 0)];
      && Fresh(Newborn(30)) && Runs(FIRST, Newborn(30), events)
      && After(FIRST, Newborn(30), events).conn.state.Down? && After(FIRST, Newborn(30), events).conn.mplsLabel == 1
  {
    var s := Newborn(30);
    var path, answer, deletion := Network(Plain(Path), false, true, 0), Answered(0, false),
        Network(Packet(Path, Some(REFLECT_DELETE), None, 0), false, true, 0);
    OneEvent(FIRST, s, [], path);
    OneEvent(FIRST, s, [] + [path], answer);
    assert [] + [path] + [answer] == [path, answer];
    var up := After(FIRST, s, [path, answer]);
    assert up.conn.state.Up? && up.conn.direction.Incoming? && up.conn.mplsLabel == 1 && up.pending == [];
    GoesDown(up);
    OneEvent(FIRST, s, [path, answer], deletion);
    OneEvent(FIRST, s, [path, answer] + [deletion], path);
  }

  lemma GoesDown(s: Station)
    requires s.conn.state.Up? && s.conn.direction.Incoming? && s.conn.mplsLabel == 1
    ensures var waiting := Next(FIRST, s, Network(Packet(Path, Some(REFLECT_DELETE), None, 0), false, true, 0));
      var down := Next(FIRST, waiting, Network(Plain(Path), false, true, 0));
      down.conn.state.Down? && down.conn.mplsLabel == 1
  {
  }

  lemma IdleTicks(n: nat)
    requires n <= 6
    ensures var s := Newborn(30); var events := seq(n, _ => Ticked);
      Runs(FIRST, s, events) && After(FIRST, s, events) == Station(s.conn.(ticks := n, waited := n), [])
  {
    if n > 0 {
      IdleTicks(n - 1);
      OneEvent(FIRST, Newborn(30), seq(n - 1, _ => Ticked), Ticked);
      assert seq(n - 1, _ => Ticked) + [Ticked] == seq(n, _ => Ticked);
    }
  }

  /** A path created once the refresh thread has waited too long comes up, and is struck at the next tick with its label
      in place. */
  lemma LabelLeftByTimeout()
    ensures var events :=
      seq(6, _ => Ticked) + [Created(1, 2, None, None)] + [Network(Packet(Resv, None, None, 7), false, true, 3)];
      Runs(FIRST, Newborn(30), events + [Ticked])
      && After(FIRST, Newborn(30), events).conn.state.Up?
      && After(FIRST, Newborn(30), events + [Ticked]).conn.state.Down?
      && After(FIRST, Newborn(30), events + [Ticked]).conn.mplsLabel == 7
  {
    var s, idle := Newborn(30), seq(6, _ => Ticked);
    var a, b := Created(1, 2, None, None), Network(Packet(Resv, None, None, 7), false, true, 3);
    IdleTicks(6);
    OneEvent(FIRST, s, idle, a);
    OneEvent(FIRST, s, idle + [a], b);
    OneEvent(FIRST, s, idle + [a] + [b], Ticked);
  }

  // ---- Setting up in time

  function TickCount(events: seq<Event>): nat {
    if events == [] then 0
    else TickCount(events[..|events| - 1]) + if events[|events| - 1].Ticked? then 1 else 0
  }

  predicate Waiting(g: Globals, c: Conn, waited: int) {
    c.direction.Outgoing? && c.state in {PathSent, Up, Down}
    && (c.state.PathSent? ==> c.refreshing && c.waited == waited && waited <= g.setupTimeout)
  }

  lemma WaitingStep(g: Globals, s: Station, e: Event, waited: int)
    requires Enabled(s, e) && Waiting(g, s.conn, waited)
    ensures Waiting(g, Next(g, s, e).conn, waited + if e.Ticked? then 1 else 0)
  {
  }

  lemma {:induction false} WaitingRun(g: Globals, s: Station, events: seq<Event>)
    requires Runs(g, s, events) && Waiting(g, s.conn, s.conn.waited)
    ensures Waiting(g, After(g, s, events).conn, s.conn.waited + TickCount(events))
    decreases |events|
  {
    if events != [] {
      var init := events[..|events| - 1];
      WaitingRun(g, s, init);
      WaitingStep(g, After(g, s, init), events[|events| - 1], s.conn.waited + TickCount(init));
    }
  }

  /** However packets and requests fall between the ticks, a path that has been sent is up or down once the thread has
      come round once more than the timeout. */
  lemma {:induction false} SetupBounded(g: Globals, s: Station, events: seq<Event>)
    requires Runs(g, s, events)
    requires s.conn.direction.Outgoing? && s.conn.state.PathSent? && s.conn.refreshing && s.conn.waited == 0
    requires TickCount(events) > g.setupTimeout
    ensures After(g, s, events).conn.state in {Up, Down}
  {
    WaitingRun(g, s, events);
  }

  function StrikeCount(g: Globals, s: Station, events: seq<Event>): nat
    requires Runs(g, s, events)
    decreases |events|
  {
    if events == [] then 0
    else
      var init := events[..|events| - 1];
      StrikeCount(g, s, init) + if Strikes(g, After(g, s, init), events[|events| - 1]) then 1 else 0
  }

  /** A tick reports a failed path exactly when the timeout strikes, and then it is the last. */
  lemma StrikeReports(g: Globals, s: Station, e: Event)
    requires Enabled(s, e)
    ensures e.Ticked? ==> (Strikes(g, s, e) <==> EffectOf(g, s, e).out == [Ask(PathErr)])
    ensures Strikes(g, s, e) ==> !Next(g, s, e).conn.refreshing
    ensures !s.conn.refreshing ==> !Next(g, s, e).conn.refreshing
  {
  }

  /** The manager is told of a timeout at most once in the life of a connection. */
  lemma {:induction false} StrikesOnce(g: Globals, s: Station, events: seq<Event>)
    requires Runs(g, s, events)
    ensures StrikeCount(g, s, events) <= 1
    ensures StrikeCount(g, s, events) == 1 ==> !After(g, s, events).conn.refreshing
    decreases |events|
  {
    if events != [] {
      var init := events[..|events| - 1];
      StrikesOnce(g, s, init);
      StrikeReports(g, After(g, s, init), events[|events| - 1]);
    }
  }

  /** Until a connection has a direction, the refresh thread counts every tick as waiting. */
  lemma IdlePacket(g: Globals, s: Station, e: Event)
    requires e.Network? && s.conn.state.Null? && Next(g, s, e).conn.direction.Undefined?
    ensures Next(g, s, e).conn == s.conn
  {
  }

  lemma IdleStep(g: Globals, s: Station, e: Event)
    requires Enabled(s, e) && s.conn.state.Null? && s.conn.refreshing && Next(g, s, e).conn.direction.Undefined?
    ensures var c := Next(g, s, e).conn;
      c.state.Null? && c.refreshing && c.waited == s.conn.waited + if e.Ticked? then 1 else 0
  {
    if e.Network? { IdlePacket(g, s, e); }
  }

  lemma {:induction false} IdleRun(g: Globals, s: Station, events: seq<Event>)
    requires Fresh(s) && Runs(g, s, events) && After(g, s, events).conn.direction.Undefined?
    ensures var c := After(g, s, events).conn; c.state.Null? && c.refreshing && c.waited == TickCount(events)
    decreases |events|
  {
    if events != [] {
      var init, last := events[..|events| - 1], events[|events| - 1];
      var t := After(g, s, init);
      if !t.conn.direction.Undefined? { DirectionStep(g, t, last); }
      IdleRun(g, s, init);
      IdleStep(g, t, last);
    }
  }

  /** A created path, by whether it was created after the thread had waited too long: then the next tick is its last. */
  predicate Timed(g: Globals, c: Conn, late: bool) {
    && c.direction.Outgoing? && c.state in {PathSent, Up, Down}
    && (!c.state.Down? ==> c.refreshing && (c.waited > g.setupTimeout <==> late))
  }

  lemma TimedStep(g: Globals, s: Station, e: Event, late: bool)
    requires Enabled(s, e) && Timed(g, s.conn, late)
    ensures Timed(g, Next(g, s, e).conn, late)
  {
  }

  lemma {:induction false} TimedRun(g: Globals, s: Station, events: seq<Event>, late: bool)
    requires Runs(g, s, events) && Timed(g, s.conn, late)
    ensures Timed(g, After(g, s, events).conn, late)
    decreases |events|
  {
    if events != [] {
      TimedRun(g, s, events[..|events| - 1], late);
      TimedStep(g, After(g, s, events[..|events| - 1]), events[|events| - 1], late);
    }
  }

  /** Whatever came before its creation and has come since, a path that is up is struck by the timeout at the next
      tick if and only if it was created after more ticks than the timeout allows; its label then stays. */
  lemma TimeoutStrikesUp(g: Globals, s: Station, before: seq<Event>, create: Event, since: seq<Event>)
    requires Fresh(s) && create.Created? && Runs(g, s, before + [create] + since)
    requires After(g, s, before + [create] + since).conn.state.Up?
    ensures var t := After(g, s, before + [create] + since);
      && (Strikes(g, t, Ticked) <==> TickCount(before) > g.setupTimeout)
      && (Strikes(g, t, Ticked) ==>
            Next(g, t, Ticked).conn.state.Down? && Next(g, t, Ticked).conn.mplsLabel == t.conn.mplsLabel)
  {
    Extend(g, s, before + [create], since);
    assert (before + [create])[..|before + [create]| - 1] == before;
    var sent := After(g, s, before + [create]);
    assert sent == Next(g, After(g, s, before), create);
    IdleRun(g, s, before);
    TimedRun(g, sent, since, TickCount(before) > g.setupTimeout);
  }

  /** The messages and requests that take a path out of the state it is sent in, besides the timeout. */
  predicate Settles(g: Globals, c: Conn, e: Event) {
    (e.Network? && e.m.kind in {Resv, PathErr}) || (e.Destroyed? && g.ietf && c.upstream.None?)
  }

  predicate Unsettled(g: Globals, c: Conn, events: seq<Event>) {
    forall i :: 0 <= i < |events| ==> !Settles(g, c, events[i])
  }

  /** The first n events settle nothing, and hold more ticks than are left to wait. */
  predicate RunsOut(g: Globals, c: Conn, events: seq<Event>, n: nat) {
    n <= |events| && Unsettled(g, c, events[..n]) && c.waited + TickCount(events[..n]) > g.setupTimeout
  }

  /** How a sent path stands: still waiting, struck once, or settled in time. */
  predicate Standing(g: Globals, sent: Conn, c: Conn, waiting: bool, ranOut: bool, ticks: nat, strikes: nat) {
    && c.direction.Outgoing?
    && (strikes == 1 <==> ranOut) && strikes <= 1
    && (ranOut ==> c.state.Down? && !c.refreshing)
    && (!ranOut && waiting ==>
          && c.state.PathSent? && c.refreshing && c.upstream == sent.upstream
          && c.waited == sent.waited + ticks <= g.setupTimeout)
    && (!ranOut && !waiting ==> c.state.Down? || (c.state.Up? && c.waited <= g.setupTimeout))
  }

  lemma StandingStep(g: Globals, sent: Conn, s: Station, e: Event, waiting: bool, ranOut: bool, ticks: nat,
      strikes: nat)
    requires Enabled(s, e) && Standing(g, sent, s.conn, waiting, ranOut, ticks, strikes)
    ensures var waits, n := waiting && !Settles(g, sent, e), ticks + if e.Ticked? then 1 else 0;
      Standing(g, sent, Next(g, s, e).conn, waits, ranOut || (waits && sent.waited + n > g.setupTimeout), n,
               strikes + if Strikes(g, s, e) then 1 else 0)
  {
  }

  lemma RunsOutStep(g: Globals, c: Conn, events: seq<Event>)
    requires events != []
    ensures var init := events[..|events| - 1];
      && (Unsettled(g, c, events) <==> Unsettled(g, c, init) && !Settles(g, c, events[|events| - 1]))
      && ((exists n: nat :: RunsOut(g, c, events, n)) <==>
          (exists n: nat :: RunsOut(g, c, init, n))
            || (Unsettled(g, c, events) && c.waited + TickCount(events) > g.setupTimeout))
  {
    var init := events[..|events| - 1];
    assert events == init + [events[|events| - 1]];
    forall n: nat | RunsOut(g, c, events, n) && n < |events|
      ensures RunsOut(g, c, init, n)
    {
      assert init[..n] == events[..n];
    }
    forall n: nat | RunsOut(g, c, init, n)
      ensures RunsOut(g, c, events, n)
    {
      assert init[..n] == events[..n];
    }
    assert events[..|events|] == events;
    if Unsettled(g, c, events) && c.waited + TickCount(events) > g.setupTimeout {
      assert RunsOut(g, c, events, |events|);
    }
  }

  lemma {:induction false} StandingRun(g: Globals, s: Station, events: seq<Event>)
    requires Runs(g, s, events)
    requires s.conn.direction.Outgoing? && s.conn.state.PathSent? && s.conn.refreshing
    requires s.conn.waited <= g.setupTimeout
    ensures Standing(g, s.conn, After(g, s, events).conn, Unsettled(g, s.conn, events),
                     exists n: nat :: RunsOut(g, s.conn, events, n), TickCount(events), StrikeCount(g, s, events))
    decreases |events|
  {
    if events == [] {
      assert forall n: nat :: !RunsOut(g, s.conn, [], n);
    } else {
      var init, last := events[..|events| - 1], events[|events| - 1];
      StandingRun(g, s, init);
      StandingStep(g, s.conn, After(g, s, init), last, Unsettled(g, s.conn, init),
                   exists n: nat :: RunsOut(g, s.conn, init, n), TickCount(init), StrikeCount(g, s, init));
      RunsOutStep(g, s.conn, events);
    }
  }

  /** A path that has been sent is struck by the timeout, and then once, exactly when the time runs out before a RESV, a
      PATHERR or a teardown settles it. */
  lemma {:induction false} StruckExactly(g: Globals, s: Station, events: seq<Event>)
    requires Runs(g, s, events)
    requires s.conn.direction.Outgoing? && s.conn.state.PathSent? && s.conn.refreshing
    requires s.conn.waited <= g.setupTimeout
    ensures StrikeCount(g, s, events) == if exists n: nat :: RunsOut(g, s.conn, events, n) then 1 else 0
  {
    StandingRun(g, s, events);
  }

  /** The first tick of the run finds the path sent or up. */
  predicate FirstTickAlive(g: Globals, s: Station, events: seq<Event>)
    requires Runs(g, s, events)
    decreases |events|
  {
    events != [] &&
    var init, last := events[..|events| - 1], events[|events| - 1];
    FirstTickAlive(g, s, init) || (last.Ticked? && TickCount(init) == 0 && !After(g, s, init).conn.state.Down?)
  }

  /** A path that was created late is struck, and then once, exactly when the first tick does not find it down
      already. */
  lemma {:induction false} LateStruckExactly(g: Globals, s: Station, events: seq<Event>)
    requires Runs(g, s, events)
    requires s.conn.direction.Outgoing? && s.conn.state.PathSent? && s.conn.refreshing && s.conn.waited > g.setupTimeout
    ensures StrikeCount(g, s, events) == if FirstTickAlive(g, s, events) then 1 else 0
    ensures Timed(g, After(g, s, events).conn, true)
    ensures TickCount(events) == 0 ==> !FirstTickAlive(g, s, events)
    ensures TickCount(events) > 0 ==> After(g, s, events).conn.state.Down? && !After(g, s, events).conn.refreshing
    decreases |events|
  {
    if events != [] {
      var init, last := events[..|events| - 1], events[|events| - 1];
      LateStruckExactly(g, s, init);
      TimedStep(g, After(g, s, init), last, true);
      LateStep(g, After(g, s, init), last, TickCount(init) > 0);
    }
  }

  lemma LateStep(g: Globals, s: Station, e: Event, ticked: bool)
    requires Enabled(s, e) && Timed(g, s.conn, true) && (ticked ==> s.conn.state.Down? && !s.conn.refreshing)
    ensures Strikes(g, s, e) <==> e.Ticked? && !ticked && !s.conn.state.Down?
    ensures ticked || e.Ticked? ==> Next(g, s, e).conn.state.Down? && !Next(g, s, e).conn.refreshing
  {
  }

  // ---- Refreshing

  predicate Refreshes(g: Globals, c: Conn) {
    c.state.Up? && c.direction.Outgoing? && c.router != 0 && c.refreshing && c.waited <= g.setupTimeout
  }

  /** After every step of the run the path is up, and has a router to send to. */
  predicate StaysUp(g: Globals, s: Station, events: seq<Event>)
    requires Runs(g, s, events)
    decreases |events|
  {
    Refreshes(g, After(g, s, events).conn) && (events == [] || StaysUp(g, s, events[..|events| - 1]))
  }

  /** The PATHs that the ticks of the run send. */
  function RefreshCount(g: Globals, s: Station, events: seq<Event>): nat
    requires Runs(g, s, events)
    decreases |events|
  {
    if events == [] then 0
    else
      var init, last := events[..|events| - 1], events[|events| - 1];
      RefreshCount(g, s, init) + if last.Ticked? then |Tick(g, After(g, s, init).conn).out| else 0
  }

  function Ceil(x: nat, n: nat): nat
    requires n > 0
  {
    (x + n - 1) / n
  }

  lemma Quotient(a: nat, q: nat, r: nat, n: nat)
    requires n > 0 && a == q * n + r && r < n
    ensures a / n == q
  {
    if a / n < q {
      Product(a / n + 1, q, n);
    } else if a / n > q {
      Product(q + 1, a / n, n);
    }
  }

  lemma Product(a: nat, b: nat, n: nat)
    requires a <= b
    ensures a * n <= b * n
  {
  }

  lemma Distribute(q: nat, k: nat, n: nat)
    ensures (q + k) * n == q * n + k * n
  {
  }

  lemma CeilStep(x: nat, n: nat)
    requires n > 0
    ensures Ceil(x + 1, n) == Ceil(x, n) + if x % n == 0 then 1 else 0
  {
    var q, r := x / n, x % n;
    Distribute(q, 1, n);
    if r == 0 {
      Quotient(x + n - 1, q, n - 1, n);
      Quotient(x + n, q + 1, 0, n);
    } else {
      Quotient(x + n - 1, q + 1, r - 1, n);
      Quotient(x + n, q + 1, r, n);
    }
  }

  lemma UpStep(g: Globals, s: Station, e: Event)
    requires Enabled(s, e) && Refreshes(g, s.conn)
    ensures var c := Next(g, s, e).conn;
      c.interval == s.conn.interval && c.ticks == s.conn.ticks + if e.Ticked? then 1 else 0
    ensures e.Ticked? ==> |Tick(g, s.conn).out| == if s.conn.ticks % s.conn.interval == 0 then 1 else 0
  {
  }

  lemma {:induction false} RefreshesCounted(g: Globals, s: Station, events: seq<Event>)
    requires Runs(g, s, events) && StaysUp(g, s, events)
    ensures After(g, s, events).conn.ticks == s.conn.ticks + TickCount(events)
    ensures After(g, s, events).conn.interval == s.conn.interval
    ensures Ceil(After(g, s, events).conn.ticks, s.conn.interval)
      == Ceil(s.conn.ticks, s.conn.interval) + RefreshCount(g, s, events)
    decreases |events|
  {
    if events != [] {
      var init := events[..|events| - 1];
      RefreshesCounted(g, s, init);
      UpStep(g, After(g, s, init), events[|events| - 1]);
      CeilStep(After(g, s, init).conn.ticks, s.conn.interval);
    }
  }

  lemma CeilBounds(x: nat, n: nat)
    requires n > 0
    ensures x <= Ceil(x, n) * n < x + n
  {
    var q := Ceil(x, n);
    assert q * n + (x + n - 1) % n == x + n - 1;
  }

  lemma FloorBounds(x: nat, n: nat)
    requires n > 0
    ensures x / n * n <= x < x / n * n + n
  {
  }

  lemma RatesApart(t: nat, m: nat, p: nat, s: nat, f: nat, n: nat)
    requires n > 0 && s >= p
    requires t <= p * n < t + n && t + m <= s * n < t + m + n && f * n <= m < f * n + n
    ensures f <= s - p <= f + 1
  {
    var k := s - p;
    Distribute(p, k, n);
    if k > f + 1 {
      Product(f + 2, k, n);
      Distribute(f, 2, n);
    }
    if f > k {
      Product(k + 1, f, n);
      Distribute(k, 1, n);
    }
  }

  lemma RateBetween(ticks: nat, m: nat, n: nat, count: nat)
    requires n > 0 && Ceil(ticks + m, n) == Ceil(ticks, n) + count
    ensures m / n <= count <= m / n + 1
  {
    hide Ceil;
    CeilBounds(ticks, n);
    CeilBounds(ticks + m, n);
    FloorBounds(m, n);
    RatesApart(ticks, m, Ceil(ticks, n), Ceil(ticks + m, n), m / n, n);
  }

  /** While a path stays up, and whatever packets and requests fall between the ticks, it is refreshed once in every
      interval, give or take one. */
  lemma RefreshRate(g: Globals, s: Station, events: seq<Event>)
    requires Runs(g, s, events) && StaysUp(g, s, events)
    ensures TickCount(events) / s.conn.interval <= RefreshCount(g, s, events) <= TickCount(events) / s.conn.interval + 1
  {
    RefreshesCounted(g, s, events);
    RateBetween(s.conn.ticks, TickCount(events), s.conn.interval, RefreshCount(g, s, events));
  }
}
