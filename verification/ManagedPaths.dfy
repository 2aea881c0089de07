/** A connection together with the table of questions: what the manager's answers deliver to it is what the automaton
    takes them to be about, so whatever holds of every run of the automaton holds of the pair. */
module ManagedPaths {
  import opened Bytes
  import opened Options
  import opened Connections
  import R = ConnectionRuns
  import M = MgmtInterface

  /** The connection; the table with its history; and the message behind each question, by serial number. */
  datatype Pair = Pair(conn: Conn, desk: M.Desk, contents: seq<Packet>)

  /** What happens to the connection itself, an answer that names its tunnel, and whatever else happens to the table. */
  datatype Event =
    | Arrives(m: Packet, ackWanted: bool, key: int)
    | Decided(request: nat, nack: bool)
    | Created(router: u32, destination: u32, rtad: Option<byte>, upstream: Option<u32>)
    | Destroyed(resolved: u32)
    | Ticked
    | Elsewhere(e: M.Event)

  datatype Filed = Filed(desk: M.Desk, contents: seq<Packet>)

  predicate Room(d: M.Desk) {
    M.FirstFree(d.table.slots, 0) < M.MAX_PENDING
  }

  /** The questions a step of the connection asks, in order; `m` is the message a question about a PATH is about. */
  function File(id: u16, f: Filed, out: seq<Output>, m: Packet): (r: Filed)
    ensures r.desk.issued == f.desk.issued && r.desk.answered == f.desk.answered
    decreases |out|
  {
    if out == [] then f
    else if !out[0].Ask? then File(id, f, out[1..], m)
    else
      var isPath := out[0].about.Path?;
      var desk := M.Next(f.desk, M.Asks(id, out[0].about, isPath && R.Deletes(m)));
      File(id, Filed(desk, f.contents + [if isPath then m else Plain(out[0].about)]), out[1..], m)
  }

  function SlotFound(id: u16, p: Pair, request: nat): int {
    M.Found(p.desk, request, id)
  }

  /** The message in the slot that an answer finds. */
  function Delivered(id: u16, p: Pair, request: nat): Packet
    requires SlotFound(id, p, request) >= 0
  {
    var serial := p.desk.table.slots[SlotFound(id, p, request)].serial;
    if serial < |p.contents| then p.contents[serial] else Plain(Path)
  }

  predicate Enabled(id: u16, p: Pair, e: Event) {
    match e
    case Created(_, _, _, _) => p.conn.direction.Undefined?
    case Decided(request, _) =>
      M.Enabled(p.desk, M.Answers(request, id)) && M.Timely(p.desk, M.Answers(request, id))
    case Elsewhere(f) =>
      && M.Enabled(p.desk, f) && M.Timely(p.desk, f)
      && (f.Asks? ==> f.cid != id) && (f.Answers? ==> f.tunnel != id)
    case _ => true
  }

  function EffectOf(g: Globals, id: u16, p: Pair, e: Event): Effect {
    match e
    case Arrives(m, ackWanted, key) => Arrive(g, p.conn, m, ackWanted, Room(p.desk), key)
    case Decided(request, nack) =>
      if SlotFound(id, p, request) < 0 then Effect(p.conn, []) else Answer(g, p.conn, Delivered(id, p, request), nack)
    case Created(router, destination, rtad, upstream) => Create(g, p.conn, router, destination, rtad, upstream)
    case Destroyed(resolved) => Destroy(g, p.conn, resolved)
    case Ticked => Tick(g, p.conn)
    case Elsewhere(_) => Effect(p.conn, [])
  }

  function Next(g: Globals, id: u16, p: Pair, e: Event): Pair
    requires Enabled(id, p, e)
  {
    var effect := EffectOf(g, id, p, e);
    match e
    case Elsewhere(f) =>
      Pair(p.conn, M.Next(p.desk, f), p.contents + if f.Asks? then [Plain(f.kind)] else [])
    case Decided(request, _) =>
      var f := File(id, Filed(p.desk, p.contents), effect.out, Plain(Path));
      Pair(effect.conn, M.Next(f.desk, M.Answers(request, id)), f.contents)
    case _ =>
      var f := File(id, Filed(p.desk, p.contents), effect.out, if e.Arrives? then e.m else Plain(Path));
      Pair(effect.conn, f.desk, f.contents)
  }

  /** The same step as the automaton sees it. */
  function Seen(id: u16, p: Pair, e: Event): seq<R.Event> {
    match e
    case Arrives(m, ackWanted, key) => [R.Network(m, ackWanted, Room(p.desk), key)]
    case Decided(request, nack) => if SlotFound(id, p, request) < 0 then [] else [R.Answered(0, nack)]
    case Created(router, destination, rtad, upstream) => [R.Created(router, destination, rtad, upstream)]
    case Destroyed(resolved) => [R.Destroyed(resolved)]
    case Ticked => [R.Ticked]
    case Elsewhere(_) => []
  }

  // ---- What ties the two together

  /** A PATH of this tunnel is in the slot. */
  predicate Ours(id: u16, slot: M.Slot) {
    slot.cid == id && slot.kind.Path?
  }

  /** The slots hold the pending PATHs of the tunnel, one at most, and no others. */
  predicate Holds(id: u16, f: Filed, pending: seq<Packet>) {
    && |pending| <= 1 && |f.contents| == f.desk.asks
    && (forall i :: 0 <= i < M.MAX_PENDING && Ours(id, f.desk.table.slots[i]) ==> HeldAt(id, f, pending, i))
    && (forall i, j :: 0 <= i < j < M.MAX_PENDING && Ours(id, f.desk.table.slots[i]) ==>
          !Ours(id, f.desk.table.slots[j]))
  }

  predicate HeldAt(id: u16, f: Filed, pending: seq<Packet>, i: nat)
    requires i < M.MAX_PENDING
  {
    var slot := f.desk.table.slots[i];
    slot.serial < |f.contents| && pending == [f.contents[slot.serial]]
      && (slot.deletes <==> R.Deletes(f.contents[slot.serial]))
  }

  ghost predicate Tied(id: u16, f: Filed, pending: seq<Packet>) {
    M.Sound(f.desk) && Holds(id, f, pending)
  }

  predicate AsksNoPath(out: seq<Output>) {
    forall k :: 0 <= k < |out| && out[k].Ask? ==> !out[k].about.Path?
  }

  /** A question that is not about a PATH, or for which there is no room, leaves the pending PATHs as they are. */
  lemma OtherQuestion(id: u16, cid: u16, f: Filed, kind: Kind, deletes: bool, c: Packet, pending: seq<Packet>)
    requires Tied(id, f, pending) && (kind.Path? && cid == id ==> !Room(f.desk))
    ensures Tied(id, Filed(M.Next(f.desk, M.Asks(cid, kind, deletes)), f.contents + [c]), pending)
  {
    var e := M.Asks(cid, kind, deletes);
    M.SoundStep(f.desk, e);
    var t := Filed(M.Next(f.desk, e), f.contents + [c]);
    forall i | 0 <= i < M.MAX_PENDING && Ours(id, t.desk.table.slots[i])
      ensures HeldAt(id, t, pending, i)
    {
      assert t.desk.table.slots[i] == f.desk.table.slots[i];
      assert HeldAt(id, f, pending, i);
    }
  }

  lemma NoneOurs(id: u16, f: Filed)
    requires Holds(id, f, [])
    ensures forall j :: 0 <= j < M.MAX_PENDING ==> !Ours(id, f.desk.table.slots[j])
  {
  }

  /** A question about a PATH of a tunnel that has none pending makes it the pending one. */
  lemma PathQuestion(id: u16, f: Filed, m: Packet)
    requires Tied(id, f, []) && Room(f.desk)
    ensures Tied(id, Filed(M.Next(f.desk, M.Asks(id, Path, R.Deletes(m))), f.contents + [m]), [m])
  {
    var e := M.Asks(id, Path, R.Deletes(m));
    M.SoundStep(f.desk, e);
    var t, i := Filed(M.Next(f.desk, e), f.contents + [m]), M.FirstFree(f.desk.table.slots, 0);
    NoneOurs(id, f);
    assert HeldAt(id, t, [m], i);
    assert forall j :: 0 <= j < M.MAX_PENDING && j != i ==> t.desk.table.slots[j] == f.desk.table.slots[j];
  }

  lemma {:induction false} OtherQuestions(id: u16, f: Filed, out: seq<Output>, m: Packet, pending: seq<Packet>)
    requires Tied(id, f, pending) && AsksNoPath(out)
    ensures Tied(id, File(id, f, out, m), pending)
    decreases |out|
  {
    if out != [] {
      if out[0].Ask? {
        OtherQuestion(id, id, f, out[0].about, false, Plain(out[0].about), pending);
        OtherQuestions(id, Filed(M.Next(f.desk, M.Asks(id, out[0].about, false)), f.contents + [Plain(out[0].about)]),
          out[1..], m, pending);
      } else {
        OtherQuestions(id, f, out[1..], m, pending);
      }
    }
  }

  lemma {:induction false} FileParts(id: u16, f: Filed, a: seq<Output>, b: seq<Output>, m: Packet)
    ensures File(id, f, a + b, m) == File(id, File(id, f, a, m), b, m)
    decreases |a|
  {
    if a == [] {
      assert a + b == b;
    } else {
      assert (a + b)[1..] == a[1..] + b;
      if a[0].Ask? {
        var isPath := a[0].about.Path?;
        var desk := M.Next(f.desk, M.Asks(id, a[0].about, isPath && R.Deletes(m)));
        FileParts(id, Filed(desk, f.contents + [if isPath then m else Plain(a[0].about)]), a[1..], b, m);
      } else {
        FileParts(id, f, a[1..], b, m);
      }
    }
  }

  // ---- One step

  /** The pair is in a state that the automaton can be in, with these PATHs pending. */
  ghost predicate Inv(id: u16, p: Pair, pending: seq<Packet>) {
    Tied(id, Filed(p.desk, p.contents), pending) && R.Steady(R.Station(p.conn, pending))
  }

  /** What a packet makes a connection send and ask, after the acknowledgement. */
  function Handled(g: Globals, c: Conn, m: Packet, asked: bool, key: int): seq<Output> {
    if !Acceptable(c, m.kind) then []
    else
      var d := Directed(c, m.kind);
      (if d.direction.Outgoing? then OutgoingGets(g, d, m, key) else IncomingGets(g, d, m, asked)).out
  }

  lemma ArrivalHandled(g: Globals, c: Conn, m: Packet, ackWanted: bool, asked: bool, key: int)
    ensures Arrive(g, c, m, ackWanted, asked, key).out == AckReply(ackWanted) + Handled(g, c, m, asked, key)
  {
  }

  predicate FirstPath(c: Conn, m: Packet) {
    m.kind.Path? && Acceptable(c, Path) && c.state.Null? && !c.direction.Outgoing?
  }

  /** Only the first PATH of a connection is asked about. */
  lemma HandledAsks(g: Globals, c: Conn, m: Packet, asked: bool, key: int)
    ensures var out := Handled(g, c, m, asked, key);
      if FirstPath(c, m)
      then out != [] && out[0] == Ask(Path) && AsksNoPath(out[1..]) && (asked ==> out == [Ask(Path)])
      else AsksNoPath(out)
  {
  }

  lemma HandledTied(g: Globals, id: u16, f: Filed, c: Conn, m: Packet, key: int, pending: seq<Packet>)
    requires Tied(id, f, pending) && (FirstPath(c, m) ==> pending == [])
    ensures Tied(id, File(id, f, Handled(g, c, m, Room(f.desk), key), m),
                 if FirstPath(c, m) && Room(f.desk) then [m] else pending)
  {
    var out := Handled(g, c, m, Room(f.desk), key);
    HandledAsks(g, c, m, Room(f.desk), key);
    if !FirstPath(c, m) {
      OtherQuestions(id, f, out, m, pending);
    } else {
      if Room(f.desk) { PathQuestion(id, f, m); } else { OtherQuestion(id, id, f, Path, R.Deletes(m), m, pending); }
      var asked := Filed(M.Next(f.desk, M.Asks(id, Path, R.Deletes(m))), f.contents + [m]);
      OtherQuestions(id, asked, out[1..], m, if Room(f.desk) then [m] else pending);
    }
  }

  lemma ArrivalTied(g: Globals, id: u16, p: Pair, e: Event, pending: seq<Packet>)
    requires e.Arrives? && Inv(id, p, pending)
    ensures Inv(id, Next(g, id, p, e), R.Next(g, R.Station(p.conn, pending), Seen(id, p, e)[0]).pending)
  {
    var f, ack := Filed(p.desk, p.contents), AckReply(e.ackWanted);
    R.SteadyStep(g, R.Station(p.conn, pending), Seen(id, p, e)[0]);
    ArrivalHandled(g, p.conn, e.m, e.ackWanted, Room(p.desk), e.key);
    FileParts(id, f, ack, Handled(g, p.conn, e.m, Room(p.desk), e.key), e.m);
    NothingFiled(id, f, ack, e.m);
    HandledTied(g, id, f, p.conn, e.m, e.key, pending);
  }

  lemma LocalTied(g: Globals, id: u16, p: Pair, e: Event, pending: seq<Packet>)
    requires (e.Created? || e.Destroyed? || e.Ticked?) && Enabled(id, p, e) && Inv(id, p, pending)
    ensures var s := R.Station(p.conn, pending);
      && R.Enabled(s, Seen(id, p, e)[0])
      && R.Next(g, s, Seen(id, p, e)[0]).pending == pending
      && Inv(id, Next(g, id, p, e), pending)
  {
    R.SteadyStep(g, R.Station(p.conn, pending), Seen(id, p, e)[0]);
    OtherQuestions(id, Filed(p.desk, p.contents), EffectOf(g, id, p, e).out, Plain(Path), pending);
  }

  /** What an answer delivers is the one PATH pending, and it is no deletion. */
  lemma DeliversPending(id: u16, p: Pair, request: nat, pending: seq<Packet>)
    requires Tied(id, Filed(p.desk, p.contents), pending)
    requires M.Enabled(p.desk, M.Answers(request, id)) && M.Timely(p.desk, M.Answers(request, id))
    requires SlotFound(id, p, request) >= 0
    ensures pending == [Delivered(id, p, request)] && !R.Deletes(Delivered(id, p, request))
    ensures Ours(id, p.desk.table.slots[SlotFound(id, p, request)])
  {
    M.FindsItsOwn(p.desk, request, id);
    var i := SlotFound(id, p, request);
    assert p.desk.carried[i] == request;
    assert HeldAt(id, Filed(p.desk, p.contents), pending, i);
  }

  lemma AnsweredTied(g: Globals, id: u16, p: Pair, e: Event, pending: seq<Packet>)
    requires e.Decided? && Enabled(id, p, e) && Inv(id, p, pending)
    ensures var s := R.Station(p.conn, pending);
      if SlotFound(id, p, e.request) < 0 then Inv(id, Next(g, id, p, e), pending)
      else
        && R.Enabled(s, Seen(id, p, e)[0]) && EffectOf(g, id, p, e) == R.EffectOf(g, s, Seen(id, p, e)[0])
        && Inv(id, Next(g, id, p, e), R.Next(g, s, Seen(id, p, e)[0]).pending)
  {
    var f, answer := Filed(p.desk, p.contents), M.Answers(e.request, id);
    if SlotFound(id, p, e.request) >= 0 {
      DeliversPending(id, p, e.request, pending);
      assert pending[0].kind.Path?;
      AnswerAsksNothing(g, p.conn, Delivered(id, p, e.request), e.nack);
      NothingFiled(id, f, EffectOf(g, id, p, e).out, Plain(Path));
      R.SteadyStep(g, R.Station(p.conn, pending), R.Answered(0, e.nack));
    }
    M.SoundStep(p.desk, answer);
    SlotFreed(id, f, answer, pending);
  }

  predicate AsksNothing(out: seq<Output>) {
    forall k :: 0 <= k < |out| ==> !out[k].Ask?
  }

  lemma AnswerAsksNothing(g: Globals, c: Conn, m: Packet, nack: bool)
    requires !R.Deletes(m) && m.kind.Path?
    ensures AsksNothing(Answer(g, c, m, nack).out)
  {
  }

  lemma {:induction false} NothingFiled(id: u16, f: Filed, out: seq<Output>, m: Packet)
    requires AsksNothing(out)
    ensures File(id, f, out, m) == f
    decreases |out|
  {
    if out != [] { NothingFiled(id, f, out[1..], m); }
  }

  /** An answer frees the slot of the pending PATH when it finds it, and no slot of this tunnel otherwise. */
  lemma SlotFreed(id: u16, f: Filed, e: M.Event, pending: seq<Packet>)
    requires Tied(id, f, pending) && e.Answers? && M.Enabled(f.desk, e) && M.Timely(f.desk, e)
    requires M.Sound(M.Next(f.desk, e))
    ensures Tied(id, Filed(M.Next(f.desk, e), f.contents),
                 if e.tunnel == id && M.Found(f.desk, e.request, id) >= 0 then [] else pending)
  {
    var t, i := Filed(M.Next(f.desk, e), f.contents), M.Found(f.desk, e.request, e.tunnel);
    M.FindsItsOwn(f.desk, e.request, e.tunnel);
    forall j | 0 <= j < M.MAX_PENDING && Ours(id, t.desk.table.slots[j])
      ensures j != i && Ours(id, f.desk.table.slots[j]) && HeldAt(id, t, pending, j)
    {
      assert t.desk.table.slots[j] == f.desk.table.slots[j];
      assert HeldAt(id, f, pending, j);
    }
  }

  lemma ElsewhereTied(g: Globals, id: u16, p: Pair, e: Event, pending: seq<Packet>)
    requires e.Elsewhere? && Enabled(id, p, e) && Inv(id, p, pending)
    ensures Inv(id, Next(g, id, p, e), pending)
  {
    var f := Filed(p.desk, p.contents);
    M.SoundStep(p.desk, e.e);
    match e.e
    case Asks(cid, kind, deletes) => OtherQuestion(id, cid, f, kind, deletes, Plain(kind), pending);
    case Answers(_, _) =>
      SlotFreed(id, f, e.e, pending);
      assert p.contents + [] == p.contents;
    case Checks(i) =>
      assert p.contents + [] == p.contents;
      SlotChecked(id, f, e.e, pending);
  }

  lemma SlotChecked(id: u16, f: Filed, e: M.Event, pending: seq<Packet>)
    requires e.Checks? && M.Enabled(f.desk, e) && Tied(id, f, pending) && M.Sound(M.Next(f.desk, e))
    ensures Tied(id, Filed(M.Next(f.desk, e), f.contents), pending)
  {
    var t := Filed(M.Next(f.desk, e), f.contents);
    forall j | 0 <= j < M.MAX_PENDING && Ours(id, t.desk.table.slots[j])
      ensures Ours(id, f.desk.table.slots[j]) && HeldAt(id, t, pending, j)
    {
      assert HeldAt(id, f, pending, j);
    }
  }

  /** A step of the pair is a step of the automaton, or none that it sees. */
  lemma StepSeen(g: Globals, id: u16, p: Pair, e: Event, pending: seq<Packet>)
    requires Enabled(id, p, e) && Inv(id, p, pending)
    ensures var s := R.Station(p.conn, pending);
      && R.Runs(g, s, Seen(id, p, e))
      && R.After(g, s, Seen(id, p, e)).conn == Next(g, id, p, e).conn
      && Inv(id, Next(g, id, p, e), R.After(g, s, Seen(id, p, e)).pending)
  {
    var s, seen := R.Station(p.conn, pending), Seen(id, p, e);
    if e.Elsewhere? {
      ElsewhereTied(g, id, p, e, pending);
    } else if e.Decided? {
      AnsweredTied(g, id, p, e, pending);
    } else if e.Arrives? {
      ArrivalTied(g, id, p, e, pending);
    } else {
      LocalTied(g, id, p, e, pending);
    }
    if seen != [] { OneSeen(g, s, seen[0]); }
  }

  lemma OneSeen(g: Globals, s: R.Station, e: R.Event)
    requires R.Enabled(s, e)
    ensures R.Runs(g, s, [e]) && R.After(g, s, [e]) == R.Next(g, s, e)
  {
    R.OneEvent(g, s, [], e);
    assert [] + [e] == [e];
  }

  // ---- Every run

  predicate Fresh(p: Pair) {
    R.Fresh(R.Station(p.conn, [])) && p.desk == M.NewDesk() && p.contents == []
  }

  predicate Runs(g: Globals, id: u16, p: Pair, events: seq<Event>)
    decreases |events|, 0
  {
    events == [] ||
    (Runs(g, id, p, events[..|events| - 1])
      && Enabled(id, After(g, id, p, events[..|events| - 1]), events[|events| - 1]))
  }

  function After(g: Globals, id: u16, p: Pair, events: seq<Event>): Pair
    requires Runs(g, id, p, events)
    decreases |events|, 1
  {
    if events == [] then p else Next(g, id, After(g, id, p, events[..|events| - 1]), events[|events| - 1])
  }

  /** The run as the automaton sees it. */
  function AllSeen(g: Globals, id: u16, p: Pair, events: seq<Event>): seq<R.Event>
    requires Runs(g, id, p, events)
    decreases |events|
  {
    if events == [] then []
    else
      var init := events[..|events| - 1];
      AllSeen(g, id, p, init) + Seen(id, After(g, id, p, init), events[|events| - 1])
  }

  lemma FreshInv(id: u16, p: Pair)
    requires Fresh(p)
    ensures Inv(id, p, [])
  {
  }

  /** A run of a connection with the table, from where the two are tied together, is a run of the automaton: it ends in
      the same state of the connection, with the PATHs pending that the slots hold. */
  lemma {:induction false} RunSeenFrom(g: Globals, id: u16, p: Pair, pending: seq<Packet>, events: seq<Event>)
    requires Inv(id, p, pending) && Runs(g, id, p, events)
    ensures var s := R.Station(p.conn, pending); var seen := AllSeen(g, id, p, events);
      && R.Runs(g, s, seen)
      && R.After(g, s, seen).conn == After(g, id, p, events).conn
      && Inv(id, After(g, id, p, events), R.After(g, s, seen).pending)
    decreases |events|
  {
    if events != [] {
      var init, last := events[..|events| - 1], events[|events| - 1];
      RunSeenFrom(g, id, p, pending, init);
      var s, before := R.Station(p.conn, pending), AllSeen(g, id, p, init);
      var middle := R.After(g, s, before);
      StepSeen(g, id, After(g, id, p, init), last, middle.pending);
      JoinRuns(g, s, before, Seen(id, After(g, id, p, init), last));
    }
  }

  /** So every run of a new connection with a new table is a run of the automaton. */
  lemma RunSeen(g: Globals, id: u16, p: Pair, events: seq<Event>)
    requires Fresh(p) && Runs(g, id, p, events)
    ensures var s := R.Station(p.conn, []); var seen := AllSeen(g, id, p, events);
      && R.Runs(g, s, seen)
      && R.After(g, s, seen).conn == After(g, id, p, events).conn
      && Inv(id, After(g, id, p, events), R.After(g, s, seen).pending)
  {
    FreshInv(id, p);
    RunSeenFrom(g, id, p, [], events);
  }

  lemma {:induction false} JoinRuns(g: Globals, s: R.Station, a: seq<R.Event>, b: seq<R.Event>)
    requires R.Runs(g, s, a) && R.Runs(g, R.After(g, s, a), b) && |b| <= 1
    ensures R.Runs(g, s, a + b) && R.After(g, s, a + b) == R.After(g, R.After(g, s, a), b)
  {
    if b == [] {
      assert a + b == a;
    } else {
      assert b == [b[0]] && b[..|b| - 1] == [];
      R.OneEvent(g, s, a, b[0]);
    }
  }

  /** In every run, what an answer hands to the connection is the PATH it asked about and has not been told about
      since, and that PATH is no deletion. */
  lemma AnswerIsForPending(g: Globals, id: u16, p: Pair, events: seq<Event>, request: nat, nack: bool)
    requires Fresh(p) && Runs(g, id, p, events) && Enabled(id, After(g, id, p, events), Decided(request, nack))
    requires SlotFound(id, After(g, id, p, events), request) >= 0
    ensures var s := R.Station(p.conn, []); var seen := AllSeen(g, id, p, events);
      && R.Runs(g, s, seen)
      && R.After(g, s, seen).pending == [Delivered(id, After(g, id, p, events), request)]
      && !R.Deletes(Delivered(id, After(g, id, p, events), request))
  {
    RunSeen(g, id, p, events);
    var q := After(g, id, p, events);
    DeliversPending(id, q, request, R.After(g, R.Station(p.conn, []), AllSeen(g, id, p, events)).pending);
  }

  /** So a label is left on a path that is down exactly when the automaton loses track of it. */
  lemma LabelsOfThePair(g: Globals, id: u16, p: Pair, events: seq<Event>)
    requires Fresh(p) && Runs(g, id, p, events)
    ensures var s := R.Station(p.conn, []); var seen := AllSeen(g, id, p, events);
      && R.Runs(g, s, seen)
      && (R.Leaky(After(g, id, p, events).conn) <==> R.LabelLost(g, s, seen))
  {
    RunSeen(g, id, p, events);
    R.LabelLeftExactly(g, R.Station(p.conn, []), AllSeen(g, id, p, events));
  }

  function TickCount(events: seq<Event>): nat {
    if events == [] then 0
    else TickCount(events[..|events| - 1]) + if events[|events| - 1].Ticked? then 1 else 0
  }

  lemma {:induction false} TickAdded(a: seq<R.Event>, b: seq<R.Event>)
    requires |b| <= 1
    ensures R.TickCount(a + b) == R.TickCount(a) + if b != [] && b[0].Ticked? then 1 else 0
  {
    if b == [] { assert a + b == a; } else { assert (a + b)[..|a + b| - 1] == a; }
  }

  lemma SeenTicks(id: u16, p: Pair, e: Event)
    ensures |Seen(id, p, e)| <= 1 && (e.Ticked? <==> Seen(id, p, e) != [] && Seen(id, p, e)[0].Ticked?)
  {
  }

  lemma {:induction false} TicksSeen(g: Globals, id: u16, p: Pair, events: seq<Event>)
    requires Runs(g, id, p, events)
    ensures R.TickCount(AllSeen(g, id, p, events)) == TickCount(events)
    decreases |events|
  {
    hide After, Enabled, Seen;
    if events != [] {
      var init, last := events[..|events| - 1], events[|events| - 1];
      TicksSeen(g, id, p, init);
      SeenTicks(id, After(g, id, p, init), last);
      TickAdded(AllSeen(g, id, p, init), Seen(id, After(g, id, p, init), last));
    }
  }

  /** And a path that has been sent is up or down once the thread has come round once more than the timeout, whatever
      the manager, the table and the network do. */
  lemma SetupOfThePair(g: Globals, id: u16, p: Pair, before: seq<Event>, since: seq<Event>)
    requires Fresh(p) && Runs(g, id, p, before) && Runs(g, id, After(g, id, p, before), since)
    requires var c := After(g, id, p, before).conn;
      c.direction.Outgoing? && c.state.PathSent? && c.refreshing && c.waited == 0
    requires TickCount(since) > g.setupTimeout
    ensures After(g, id, After(g, id, p, before), since).conn.state in {Up, Down}
  {
    RunSeen(g, id, p, before);
    var q, pending := After(g, id, p, before), R.After(g, R.Station(p.conn, []), AllSeen(g, id, p, before)).pending;
    RunSeenFrom(g, id, q, pending, since);
    TicksSeen(g, id, q, since);
    R.SetupBounded(g, R.Station(q.conn, pending), AllSeen(g, id, q, since));
  }

  lemma LabelledSource(g: Globals, s: R.Station, e: R.Event)
    requires R.Enabled(s, e) && R.Steady(s) && (e.Answered? ==> !R.Deletes(s.pending[e.k]))
    ensures var c := R.Next(g, s, e).conn;
      c.state.PathRecv? && c.mplsLabel != 0 ==>
        || (s.conn.state.PathRecv? && s.conn.mplsLabel != 0)
        || (e.Network? && g.ietf && R.Deletes(e.m) && (s.conn.state.Up? || (s.conn.state.Null? && !e.asked)))
  {
    R.WaitsLabelled(g, s, e);
  }

  predicate WaitsWithLabel(c: Conn) {
    c.state.PathRecv? && c.mplsLabel != 0
  }

  lemma LabelledStep(g: Globals, id: u16, p: Pair, e: Event, pending: seq<Packet>)
    requires Enabled(id, p, e) && Inv(id, p, pending)
    ensures WaitsWithLabel(Next(g, id, p, e).conn) ==>
      || WaitsWithLabel(p.conn)
      || (e.Arrives? && g.ietf && R.Deletes(e.m) && (p.conn.state.Up? || (p.conn.state.Null? && !Room(p.desk))))
  {
    var s, seen := R.Station(p.conn, pending), Seen(id, p, e);
    StepSeen(g, id, p, e, pending);
    if seen != [] {
      OneSeen(g, s, seen[0]);
      if e.Decided? { DeliversPending(id, p, e.request, pending); }
      LabelledSource(g, s, seen[0]);
    }
  }

  /** And no manager brings a connection to wait with a label: it comes to that only when a deletion arrives at an
      IETF agent whose path is up, or that finds no room for the question. */
  lemma WaitsLabelledByArrival(g: Globals, id: u16, p: Pair, events: seq<Event>, e: Event)
    requires Fresh(p) && Runs(g, id, p, events) && Enabled(id, After(g, id, p, events), e)
    ensures var q := After(g, id, p, events);
      WaitsWithLabel(Next(g, id, q, e).conn) ==>
        || WaitsWithLabel(q.conn)
        || (e.Arrives? && g.ietf && R.Deletes(e.m) && (q.conn.state.Up? || (q.conn.state.Null? && !Room(q.desk))))
  {
    RunSeen(g, id, p, events);
    LabelledStep(g, id, After(g, id, p, events), e,
      R.After(g, R.Station(p.conn, []), AllSeen(g, id, p, events)).pending);
  }
}
