/** The labels an agent hands out: one counter serves all its connections, so paths of one agent that go by labels of
    its own go by different ones. */
module LabelCounter {
  import opened Bytes
  import opened Options
  import opened Connections
  import R = ConnectionRuns

  /** Where the label of a connection is from: the counter, as which of the labels it gave, or elsewhere. */
  datatype Origin = Elsewhere | Given(number: nat)

  /** The connections of an agent, `globals.label_id`, how many labels it has given, and the origin of each
      connection's label. */
  datatype Agent = Agent(stations: seq<R.Station>, counter: u32, given: nat, origins: seq<Origin>)

  /** Something happens to the i-th connection. */
  datatype Turn = Turn(i: nat, e: R.Event)

  /** The connection as it finds the counter. */
  function Sharing(s: R.Station, counter: u32): R.Station {
    R.Station(s.conn.(labelId := counter), s.pending)
  }

  predicate Enabled(a: Agent, t: Turn) {
    t.i < |a.stations| && |a.origins| == |a.stations| && R.Enabled(a.stations[t.i], t.e)
  }

  /** The PATH that the event has accepted or refused for its deletion flags, if any: the one answered, one for which no
      manager is there to ask, or one that comes while the path is up. */
  function Responded(g: Globals, s: R.Station, e: R.Event): Option<Packet>
    requires R.Enabled(s, e)
  {
    if !Acceptable(s.conn, Path) then None
    else if e.Answered? && !e.nack then Some(s.pending[e.k])
    else if e.Network? && e.m.kind.Path?
      && (s.conn.state.Up? || (s.conn.state.Null? && !e.asked && !g.translator)) then Some(e.m)
    else None
  }

  /** The counter gives a label. */
  predicate Takes(g: Globals, s: R.Station, e: R.Event)
    requires R.Enabled(s, e)
  {
    Responded(g, s, e).Some? && s.conn.mplsLabel == 0
  }

  /** The connection keeps the label it has just been given: the PATH names none, and no deletion drops it. */
  predicate Keeps(g: Globals, m: Packet) {
    if Rtad(m) == REFLECT_DELETE then g.ietf else m.upstream.None?
  }

  function Next(g: Globals, a: Agent, t: Turn): Agent
    requires Enabled(a, t)
  {
    var s := Sharing(a.stations[t.i], a.counter);
    var after := R.Next(g, s, t.e);
    var takes := Takes(g, s, t.e);
    var origin :=
      if takes then if Keeps(g, Responded(g, s, t.e).value) then Given(a.given) else Elsewhere
      else if after.conn.mplsLabel == s.conn.mplsLabel then a.origins[t.i] else Elsewhere;
    Agent(a.stations[t.i := after], after.conn.labelId, a.given + if takes then 1 else 0,
          a.origins[t.i := origin])
  }

  lemma TakesOnArrival(g: Globals, s: R.Station, e: R.Event)
    requires e.Network? && R.Resting(s.conn)
    ensures R.Next(g, s, e).conn.labelId
      == if Takes(g, s, e) then (s.conn.labelId + 1) % 0x1_0000_0000 else s.conn.labelId
    ensures Takes(g, s, e) && Keeps(g, e.m)
      ==> R.Next(g, s, e).conn.mplsLabel == (s.conn.labelId + 1) % 0x1_0000_0000
  {
    if !e.m.kind.Path? { hide RespondPath, RespondPathNack; }
  }

  /** A label is taken exactly when a connection without one accepts a PATH; it is the next one, and the connection then
      has it unless the PATH names another or is a deletion. */
  lemma TakesNext(g: Globals, s: R.Station, e: R.Event)
    requires R.Enabled(s, e) && R.Resting(s.conn) && R.AllPaths(s.pending)
    ensures R.Next(g, s, e).conn.labelId
      == if Takes(g, s, e) then (s.conn.labelId + 1) % 0x1_0000_0000 else s.conn.labelId
    ensures Takes(g, s, e) && Keeps(g, Responded(g, s, e).value)
      ==> R.Next(g, s, e).conn.mplsLabel == (s.conn.labelId + 1) % 0x1_0000_0000
  {
    if e.Network? { TakesOnArrival(g, s, e); }
  }

  // ---- Runs of the agent

  predicate Fresh(a: Agent) {
    && (forall i :: 0 <= i < |a.stations| ==> R.Fresh(a.stations[i]))
    && a.given == 0 && a.origins == seq(|a.stations|, _ => Elsewhere)
  }

  predicate Runs(g: Globals, a: Agent, turns: seq<Turn>)
    decreases |turns|, 0
  {
    turns == [] ||
    (Runs(g, a, turns[..|turns| - 1]) && Enabled(After(g, a, turns[..|turns| - 1]), turns[|turns| - 1]))
  }

  function After(g: Globals, a: Agent, turns: seq<Turn>): Agent
    requires Runs(g, a, turns)
    decreases |turns|, 1
  {
    if turns == [] then a
    else
      var before := After(g, a, turns[..|turns| - 1]);
      Next(g, before, turns[|turns| - 1])
  }

  /** What the counter makes of the labels it has given when it started at `first`. */
  predicate Numbered(a: Agent, first: u32, i: nat)
    requires i < |a.stations| == |a.origins|
  {
    a.origins[i].Given? ==>
      && a.origins[i].number < a.given
      && a.stations[i].conn.mplsLabel == (first + 1 + a.origins[i].number) % 0x1_0000_0000
  }

  predicate Counted(a: Agent, first: u32) {
    && |a.origins| == |a.stations| && a.counter == (first + a.given) % 0x1_0000_0000
    && (forall i :: 0 <= i < |a.stations| ==>
          Numbered(a, first, i) && R.Resting(a.stations[i].conn) && R.AllPaths(a.stations[i].pending))
    && (forall i, j :: 0 <= i < j < |a.origins| && a.origins[i].Given? ==> a.origins[i] != a.origins[j])
  }

  lemma NextNumber(first: u32, given: nat)
    ensures ((first + given) % 0x1_0000_0000 + 1) % 0x1_0000_0000 == (first + 1 + given) % 0x1_0000_0000
  {
  }

  lemma KeepsPaths(g: Globals, s: R.Station, e: R.Event)
    requires R.Enabled(s, e) && R.AllPaths(s.pending)
    ensures R.AllPaths(R.Next(g, s, e).pending)
  {
  }

  /** The agent once the i-th connection has become `after`, with a label of this origin. */
  function Changed(a: Agent, i: nat, after: R.Station, takes: bool, origin: Origin): Agent
    requires i < |a.stations| == |a.origins|
  {
    Agent(a.stations[i := after], after.conn.labelId, a.given + if takes then 1 else 0, a.origins[i := origin])
  }

  lemma CountedChange(a: Agent, first: u32, i: nat, after: R.Station, takes: bool, origin: Origin)
    requires Counted(a, first) && i < |a.stations| && R.Resting(after.conn) && R.AllPaths(after.pending)
    requires after.conn.labelId == if takes then (first + 1 + a.given) % 0x1_0000_0000 else a.counter
    requires origin.Given? ==>
               || (origin == a.origins[i] && after.conn.mplsLabel == a.stations[i].conn.mplsLabel)
               || (takes && origin == Given(a.given) && after.conn.mplsLabel == after.conn.labelId)
    ensures Counted(Changed(a, i, after, takes, origin), first)
  {
    hide R.Resting, R.AllPaths;
    var b := Changed(a, i, after, takes, origin);
    assert Numbered(a, first, i);
    forall k | 0 <= k < |b.stations|
      ensures Numbered(b, first, k) && R.Resting(b.stations[k].conn) && R.AllPaths(b.stations[k].pending)
    {
      assert Numbered(a, first, k);
    }
    forall j, k | 0 <= j < k < |b.origins| && b.origins[j].Given?
      ensures b.origins[j] != b.origins[k]
    {
      assert Numbered(a, first, j) && Numbered(a, first, k);
    }
  }

  lemma CountedStep(g: Globals, a: Agent, t: Turn, first: u32)
    requires Enabled(a, t) && Counted(a, first)
    ensures Counted(Next(g, a, t), first)
  {
    assert Numbered(a, first, t.i);
    var s, b := Sharing(a.stations[t.i], a.counter), Next(g, a, t);
    TakesNext(g, s, t.e);
    R.RestsAgain(g, s, t.e);
    KeepsPaths(g, s, t.e);
    NextNumber(first, a.given);
    hide R.Next, Takes, Responded, Keeps, Counted, R.Resting, R.AllPaths, Numbered;
    CountedChange(a, first, t.i, b.stations[t.i], Takes(g, s, t.e), b.origins[t.i]);
    assert b == Changed(a, t.i, b.stations[t.i], Takes(g, s, t.e), b.origins[t.i]);
  }

  lemma {:induction false} CountedThroughout(g: Globals, a: Agent, turns: seq<Turn>)
    requires Runs(g, a, turns) && Fresh(a)
    ensures Counted(After(g, a, turns), a.counter)
    decreases |turns|
  {
    if turns != [] {
      CountedThroughout(g, a, turns[..|turns| - 1]);
      CountedStep(g, After(g, a, turns[..|turns| - 1]), turns[|turns| - 1], a.counter);
    }
  }

  lemma Residues(first: u32, j: nat, k: nat)
    ensures (first + 1 + j) % 0x1_0000_0000 == (first + 1 + k) % 0x1_0000_0000
      <==> j % 0x1_0000_0000 == k % 0x1_0000_0000
  {
  }

  predicate SameOnlyRound(b: Agent, i: nat, j: nat)
    requires i < j < |b.stations| == |b.origins| && b.origins[i].Given? && b.origins[j].Given?
  {
    && b.origins[i].number != b.origins[j].number
    && (b.stations[i].conn.mplsLabel == b.stations[j].conn.mplsLabel
        <==> b.origins[i].number % 0x1_0000_0000 == b.origins[j].number % 0x1_0000_0000)
    && (b.given <= 0x1_0000_0000 ==> b.stations[i].conn.mplsLabel != b.stations[j].conn.mplsLabel)
  }

  lemma CountedApart(b: Agent, first: u32, i: nat, j: nat)
    requires i < j < |b.stations| && Counted(b, first) && b.origins[i].Given? && b.origins[j].Given?
    ensures SameOnlyRound(b, i, j)
  {
    assert Numbered(b, first, i) && Numbered(b, first, j);
    Residues(first, b.origins[i].number, b.origins[j].number);
  }

  /** Whatever happens to the connections of an agent and in whatever order, two of them with labels from the counter
      have the same label exactly when it has gone round between the two; with no more than 2^32 labels given, never. */
  lemma LabelsApart(g: Globals, a: Agent, turns: seq<Turn>, i: nat, j: nat)
    requires Runs(g, a, turns) && Fresh(a)
    requires var b := After(g, a, turns);
      i < j < |b.stations| == |b.origins| && b.origins[i].Given? && b.origins[j].Given?
    ensures SameOnlyRound(After(g, a, turns), i, j)
  {
    CountedThroughout(g, a, turns);
    CountedApart(After(g, a, turns), a.counter, i, j);
  }

  /** An accepted PATH that names no label brings the path up under one from the counter, unless it already has a
      label. */
  lemma ComesUpUnderOwn(g: Globals, a: Agent, t: Turn)
    requires Enabled(a, t)
    requires var s := a.stations[t.i];
      R.Resting(s.conn) && R.AllPaths(s.pending) && Takes(g, s, t.e)
      && Responded(g, s, t.e).value.upstream.None? && Rtad(Responded(g, s, t.e).value) != REFLECT_DELETE
    ensures var b := Next(g, a, t);
      && b.stations[t.i].conn.state.Up? && b.origins[t.i] == Given(a.given)
      && b.stations[t.i].conn.mplsLabel == b.counter == (a.counter + 1) % 0x1_0000_0000
  {
    TakesNext(g, Sharing(a.stations[t.i], a.counter), t.e);
  }
}
