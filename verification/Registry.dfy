/** The table of registered connections in `rsvp_dispatcher.cpp`, and the clean-up at the end of a refresh thread. */
module Registry {
  import opened Bytes

  const MAX_REGISTERED_CONNS: nat := 10
  const ERROR_VAL_PRES: int := -5

  /** One slot: the connection id, and whether the connection is down with its refresh thread ended. */
  datatype Slot = Slot(id: u16, dead: bool)

  predicate Distinct(conns: seq<Slot>) {
    forall i, j :: 0 <= i < j < |conns| ==> conns[i].id != conns[j].id
  }

  predicate Registered(conns: seq<Slot>, id: u16) {
    exists i :: 0 <= i < |conns| && conns[i].id == id
  }

  function Removed(conns: seq<Slot>, pos: nat): seq<Slot>
    requires pos < |conns|
  {
    conns[..pos] + conns[pos + 1..]
  }

  // ---- The clean-up

  /** What the loop keeps: after removing an entry it steps over the one that has moved into its place. */
  function Swept(conns: seq<Slot>): seq<Slot> {
    if conns == [] then []
    else if !conns[0].dead then [conns[0]] + Swept(conns[1..])
    else if |conns| == 1 then []
    else [conns[1]] + Swept(conns[2..])
  }

  function Live(conns: seq<Slot>): seq<Slot> {
    if conns == [] then []
    else if conns[0].dead then Live(conns[1..])
    else [conns[0]] + Live(conns[1..])
  }

  /** How many dead entries stand at the front. */
  function Run(conns: seq<Slot>): nat {
    if conns == [] || !conns[0].dead then 0 else 1 + Run(conns[1..])
  }

  lemma {:induction false} RunFits(conns: seq<Slot>)
    ensures Run(conns) <= |conns|
    ensures forall i :: 0 <= i < Run(conns) ==> conns[i].dead
    ensures Run(conns) < |conns| ==> !conns[Run(conns)].dead
  {
    if conns != [] && conns[0].dead {
      RunFits(conns[1..]);
      assert forall i :: 0 < i < Run(conns) ==> conns[i] == conns[1..][i - 1];
    }
  }

  /** The second, fourth, and so on of the first n entries. */
  function Evens(conns: seq<Slot>, n: nat): seq<Slot>
    requires n <= |conns|
  {
    if n < 2 then [] else [conns[1]] + Evens(conns[2..], n - 2)
  }

  lemma {:induction false} SweptRunOf(conns: seq<Slot>, n: nat)
    requires n <= |conns| && (forall i :: 0 <= i < n ==> conns[i].dead) && (n < |conns| ==> !conns[n].dead)
    ensures Swept(conns) == Evens(conns, n) + Swept(conns[n..])
  {
    if n == 0 {
      assert conns[0..] == conns;
    } else if n == 1 {
      if |conns| > 1 { assert conns[1..][1..] == conns[2..]; }
    } else {
      var rest := conns[2..];
      assert forall i :: 0 <= i < n - 2 ==> rest[i] == conns[i + 2];
      SweptRunOf(rest, n - 2);
      assert rest[n - 2..] == conns[n..];
      assert Swept(conns) == [conns[1]] + Swept(rest);
    }
  }

  /** Of a run of dead entries the loop removes the first, third, fifth and so on, and goes on after the run. */
  lemma {:induction false} SweptByRuns(conns: seq<Slot>)
    ensures Run(conns) <= |conns|
    ensures Swept(conns) == Evens(conns, Run(conns)) + Swept(conns[Run(conns)..])
    ensures Run(conns) < |conns| ==>
      Swept(conns[Run(conns)..]) == [conns[Run(conns)]] + Swept(conns[Run(conns) + 1..])
  {
    RunFits(conns);
    SweptRunOf(conns, Run(conns));
    if Run(conns) < |conns| { assert conns[Run(conns)..][1..] == conns[Run(conns) + 1..]; }
  }

  /** Every live connection stays, in order. */
  lemma {:induction false} LiveKept(conns: seq<Slot>)
    ensures Live(Swept(conns)) == Live(conns)
    decreases |conns|
  {
    if conns == [] {
    } else if !conns[0].dead {
      LiveKept(conns[1..]);
      Prepend(conns[0], Swept(conns[1..]));
    } else if |conns| > 1 {
      LiveKept(conns[2..]);
      assert conns[1..][1..] == conns[2..];
      Prepend(conns[1], Swept(conns[2..]));
    }
  }

  lemma Prepend(c: Slot, rest: seq<Slot>)
    ensures Live([c] + rest) == if c.dead then Live(rest) else [c] + Live(rest)
  {
    assert ([c] + rest)[1..] == rest;
  }

  predicate NoDead(conns: seq<Slot>) {
    forall i :: 0 <= i < |conns| ==> !conns[i].dead
  }

  predicate Spread(conns: seq<Slot>) {
    forall i :: 0 <= i < |conns| - 1 ==> !(conns[i].dead && conns[i + 1].dead)
  }

  lemma PrependDead(c: Slot, rest: seq<Slot>)
    ensures NoDead([c] + rest) <==> !c.dead && NoDead(rest)
  {
    var all := [c] + rest;
    assert all[0] == c && forall i :: 0 <= i < |rest| ==> all[i + 1] == rest[i];
  }

  lemma SpreadTail(conns: seq<Slot>)
    requires conns != []
    ensures Spread(conns) <==> Spread(conns[1..]) && (|conns| > 1 ==> !(conns[0].dead && conns[1].dead))
  {
    var rest := conns[1..];
    if Spread(rest) && (|conns| > 1 ==> !(conns[0].dead && conns[1].dead)) {
      forall i | 0 <= i < |conns| - 1
        ensures !(conns[i].dead && conns[i + 1].dead)
      {
        if i > 0 { assert conns[i] == rest[i - 1] && conns[i + 1] == rest[i]; }
      }
    }
    if Spread(conns) {
      forall i | 0 <= i < |rest| - 1
        ensures !(rest[i].dead && rest[i + 1].dead)
      {
        assert rest[i] == conns[i + 1] && rest[i + 1] == conns[i + 2];
      }
    }
  }

  /** The clean-up leaves nothing dead behind exactly when no two dead connections stand side by side. */
  lemma {:induction false} CleanExactly(conns: seq<Slot>)
    ensures NoDead(Swept(conns)) <==> Spread(conns)
    decreases |conns|
  {
    if conns == [] {
    } else if !conns[0].dead {
      CleanExactly(conns[1..]);
      PrependDead(conns[0], Swept(conns[1..]));
      SpreadTail(conns);
    } else if |conns| > 1 {
      CleanExactly(conns[2..]);
      PrependDead(conns[1], Swept(conns[2..]));
      SpreadTail(conns);
      SpreadTail(conns[1..]);
      assert conns[1..][1..] == conns[2..];
      if !conns[1].dead && |conns| > 2 { assert conns[1..][0] == conns[1]; }
    }
  }

  // ---- Distinct ids

  lemma {:induction false} SweptWithin(conns: seq<Slot>, c: Slot)
    requires c in Swept(conns)
    ensures c in conns
    decreases |conns|
  {
    if !conns[0].dead {
      if c != conns[0] { SweptWithin(conns[1..], c); }
    } else if |conns| > 1 && c != conns[1] {
      SweptWithin(conns[2..], c);
    }
  }

  lemma PrependDistinct(c: Slot, rest: seq<Slot>)
    requires Distinct(rest) && forall d :: d in rest ==> d.id != c.id
    ensures Distinct([c] + rest)
  {
  }

  lemma {:induction false} SweptDistinct(conns: seq<Slot>)
    requires Distinct(conns)
    ensures Distinct(Swept(conns))
    decreases |conns|
  {
    if conns == [] {
    } else if !conns[0].dead {
      SweptDistinct(conns[1..]);
      NotAmong(conns, 0);
      PrependDistinct(conns[0], Swept(conns[1..]));
    } else if |conns| > 1 {
      SweptDistinct(conns[2..]);
      NotAmong(conns, 1);
      PrependDistinct(conns[1], Swept(conns[2..]));
    }
  }

  lemma NotAmong(conns: seq<Slot>, i: nat)
    requires Distinct(conns) && i < |conns|
    ensures forall d :: d in Swept(conns[i + 1..]) ==> d.id != conns[i].id
  {
    forall d | d in Swept(conns[i + 1..])
      ensures d.id != conns[i].id
    {
      SweptWithin(conns[i + 1..], d);
      var k :| 0 <= k < |conns[i + 1..]| && conns[i + 1..][k] == d;
      assert conns[i + 1 + k] == d;
    }
  }

  /** With distinct ids, at most one connection answers to an id. */
  lemma OneRecipient(conns: seq<Slot>, id: u16, i: nat, j: nat)
    requires Distinct(conns) && i < |conns| && j < |conns| && conns[i].id == id && conns[j].id == id
    ensures i == j
  {
  }

  // ---- The table

  class Dispatcher {
    const slots: array<Slot>
    var count: nat

    ghost predicate Valid()
      reads this, slots
    {
      slots.Length == MAX_REGISTERED_CONNS && count <= MAX_REGISTERED_CONNS && Distinct(Conns())
    }

    ghost function Conns(): seq<Slot>
      reads this, slots
      requires slots.Length == MAX_REGISTERED_CONNS && count <= MAX_REGISTERED_CONNS
    {
      slots[..count]
    }

    constructor ()
      ensures Valid() && Conns() == [] && fresh(slots)
    {
      slots := new Slot[MAX_REGISTERED_CONNS](_ => Slot(0, false));
      count := 0;
    }

    /** `register_connection`, which does not look whether the table has room: `overran` says that it writes past the
        end of it, and here the call stops short of that. */
    method Register(c: Slot) returns (overran: bool, code: int)
      requires Valid()
      modifies this, slots
      ensures Valid()
      ensures overran <==> old(count) == MAX_REGISTERED_CONNS && !Registered(old(Conns()), c.id)
      ensures !overran ==> code == if Registered(old(Conns()), c.id) then ERROR_VAL_PRES else 0
      ensures Conns() == if overran || Registered(old(Conns()), c.id) then old(Conns()) else old(Conns()) + [c]
    {
      overran := false;
      for t := 0 to count
        invariant forall i :: 0 <= i < t ==> slots[i].id != c.id
      {
        if slots[t].id == c.id {
          assert Conns()[t].id == c.id;
          return false, ERROR_VAL_PRES;
        }
      }
      if count == MAX_REGISTERED_CONNS {
        return true, 0;
      }
      ghost var before := Conns();
      slots[count] := c;
      count := count + 1;
      assert Conns() == before + [c];
      code := 0;
    }

    /** The shifting loop of `unregister_connection`. */
    method Unregister(pos: nat) returns (code: int)
      requires slots.Length == MAX_REGISTERED_CONNS && count <= MAX_REGISTERED_CONNS
      modifies this, slots
      ensures count <= MAX_REGISTERED_CONNS
      ensures code == if pos >= old(count) then -1 else 0
      ensures Conns() == if pos >= old(count) then old(Conns()) else Removed(old(Conns()), pos)
    {
      if pos >= count {
        return -1;
      }
      ghost var before := Conns();
      var t := pos;
      while t < count - 1
        invariant count == old(count) && pos <= t <= count - 1
        invariant forall i :: 0 <= i < count ==> slots[i] == before[if pos <= i < t then i + 1 else i]
      {
        slots[t] := slots[t + 1];
        t := t + 1;
      }
      count := count - 1;
      assert Conns() == Removed(before, pos);
      code := 0;
    }

    /** The clean-up loop of `refresh_path`. */
    method Cleanup()
      requires Valid()
      modifies this, slots
      ensures Valid() && Conns() == Swept(old(Conns()))
    {
      ghost var before := Conns();
      SweptDistinct(before);
      var x := 0;
      assert Conns()[..0] + Swept(Conns()[0..]) == Swept(before) by { assert Conns()[0..] == before; }
      while x < count
        invariant slots.Length == MAX_REGISTERED_CONNS && count <= MAX_REGISTERED_CONNS && x <= count + 1
        invariant x == count + 1 ==> Conns() == Swept(before)
        invariant x <= count ==> Conns()[..x] + Swept(Conns()[x..]) == Swept(before)
        decreases count + 1 - x
      {
        ghost var here := Conns();
        if slots[x].dead {
          var _ := Unregister(x);
          SweepDead(here, x);
        } else {
          SweepLive(here, x);
        }
        x := x + 1;
      }
      if x == count { assert Conns()[..x] + Swept(Conns()[x..]) == Conns(); }
    }

    /** The search of `deliver` and `get_connection`: where the connection with the id is, or -1. */
    method Find(id: u16) returns (t: int)
      requires Valid()
      ensures -1 <= t < count
      ensures t >= 0 <==> Registered(Conns(), id)
      ensures t >= 0 ==> Conns()[t].id == id && forall i :: 0 <= i < count && Conns()[i].id == id ==> i == t
    {
      t := 0;
      while t < count
        invariant 0 <= t <= count
        invariant forall i :: 0 <= i < t ==> slots[i].id != id
      {
        if slots[t].id == id {
          assert Conns()[t].id == id;
          forall i | 0 <= i < count && Conns()[i].id == id
            ensures i == t
          {
            OneRecipient(Conns(), id, i, t);
          }
          return;
        }
        t := t + 1;
      }
      t := -1;
    }
  }

  lemma SweepLive(conns: seq<Slot>, x: nat)
    requires x < |conns| && !conns[x].dead
    ensures conns[..x] + Swept(conns[x..]) == conns[..x + 1] + Swept(conns[x + 1..])
  {
    assert conns[x..][1..] == conns[x + 1..];
    assert conns[..x + 1] == conns[..x] + [conns[x]];
  }

  lemma SweepDead(conns: seq<Slot>, x: nat)
    requires x < |conns| && conns[x].dead
    ensures var r := Removed(conns, x);
      && (x == |r| ==> conns[..x] + Swept(conns[x..]) == r)
      && (x < |r| ==> conns[..x] + Swept(conns[x..]) == r[..x + 1] + Swept(r[x + 1..]))
  {
    var r := Removed(conns, x);
    if x == |r| {
      assert conns[x..] == [conns[x]];
    } else {
      assert conns[x..][2..] == conns[x + 2..] == r[x + 1..];
      assert r[..x + 1] == conns[..x] + [conns[x + 1]];
    }
  }
}
