/** The explicit route in a management packet: three objects a hop, which the agent sorts into three streams and puts
    together again. */
module MgmtEro {
  import opened Bytes
  import opened Options
  import opened MgmtCodec

  const OBJECT_ERO_ADDR: nat := 13
  const OBJECT_ERO_PREF: nat := 14
  const OBJECT_ERO_SL: nat := 15

  /** `struct rc_ero`. */
  datatype Hop = Hop(address: u32, prefixLength: byte, loose: byte)

  // ---- The three streams

  function Addresses(objects: seq<Object>): seq<u32> {
    if objects == [] then []
    else
      var rest, o := Addresses(objects[..|objects| - 1]), objects[|objects| - 1];
      if o.otype == OBJECT_ERO_ADDR && o.value.Addr? then rest + [o.value.a] else rest
  }

  function Prefixes(objects: seq<Object>): seq<byte> {
    if objects == [] then []
    else
      var rest, o := Prefixes(objects[..|objects| - 1]), objects[|objects| - 1];
      if o.otype == OBJECT_ERO_PREF && o.value.Byte? then rest + [o.value.c] else rest
  }

  function Looses(objects: seq<Object>): seq<byte> {
    if objects == [] then []
    else
      var rest, o := Looses(objects[..|objects| - 1]), objects[|objects| - 1];
      if o.otype == OBJECT_ERO_SL && o.value.Byte? then rest + [o.value.c] else rest
  }

  function Least(a: nat, b: nat, c: nat): nat {
    if a <= b && a <= c then a else if b <= c then b else c
  }

  /** Hop by hop, as long as all three have one. */
  function Zip(addresses: seq<u32>, prefixes: seq<byte>, looses: seq<byte>): (hops: seq<Hop>)
    ensures |hops| == Least(|addresses|, |prefixes|, |looses|)
  {
    seq(Least(|addresses|, |prefixes|, |looses|),
        i requires 0 <= i < Least(|addresses|, |prefixes|, |looses|) => Hop(addresses[i], prefixes[i], looses[i]))
  }

  function Route(objects: seq<Object>): seq<Hop> {
    Zip(Addresses(objects), Prefixes(objects), Looses(objects))
  }

  predicate AllWellFormed(objects: seq<Object>) {
    forall k :: 0 <= k < |objects| ==> WellFormed(objects[k])
  }

  /** The array and its counters so far: it is as long as the longest stream, and what has not arrived yet is whatever
      the memory held. */
  predicate Collected(ero: seq<Hop>, addresses: seq<u32>, prefixes: seq<byte>, looses: seq<byte>) {
    && |addresses| <= |ero| && |prefixes| <= |ero| && |looses| <= |ero|
    && (|ero| == |addresses| || |ero| == |prefixes| || |ero| == |looses|)
    && (forall i :: 0 <= i < |addresses| ==> ero[i].address == addresses[i])
    && (forall i :: 0 <= i < |prefixes| ==> ero[i].prefixLength == prefixes[i])
    && (forall i :: 0 <= i < |looses| ==> ero[i].loose == looses[i])
  }

  function Grown(ero: seq<Hop>, n: nat, memory: Hop): seq<Hop> {
    if n > |ero| then ero + [memory] else ero
  }

  lemma AddressArrives(ero: seq<Hop>, addresses: seq<u32>, prefixes: seq<byte>, looses: seq<byte>, a: u32, memory: Hop)
    requires Collected(ero, addresses, prefixes, looses)
    ensures var n := |addresses|; var g := Grown(ero, n + 1, memory);
      n < |g| && Collected(g[n := g[n].(address := a)], addresses + [a], prefixes, looses)
  {
  }

  lemma PrefixArrives(ero: seq<Hop>, addresses: seq<u32>, prefixes: seq<byte>, looses: seq<byte>, c: byte, memory: Hop)
    requires Collected(ero, addresses, prefixes, looses)
    ensures var n := |prefixes|; var g := Grown(ero, n + 1, memory);
      n < |g| && Collected(g[n := g[n].(prefixLength := c)], addresses, prefixes + [c], looses)
  {
  }

  lemma LooseArrives(ero: seq<Hop>, addresses: seq<u32>, prefixes: seq<byte>, looses: seq<byte>, c: byte, memory: Hop)
    requires Collected(ero, addresses, prefixes, looses)
    ensures var n := |looses|; var g := Grown(ero, n + 1, memory);
      n < |g| && Collected(g[n := g[n].(loose := c)], addresses, prefixes, looses + [c])
  {
  }

  lemma Append(objects: seq<Object>, o: Object)
    ensures Addresses(objects + [o])
      == Addresses(objects) + if o.otype == OBJECT_ERO_ADDR && o.value.Addr? then [o.value.a] else []
    ensures Prefixes(objects + [o])
      == Prefixes(objects) + if o.otype == OBJECT_ERO_PREF && o.value.Byte? then [o.value.c] else []
    ensures Looses(objects + [o])
      == Looses(objects) + if o.otype == OBJECT_ERO_SL && o.value.Byte? then [o.value.c] else []
  {
    assert (objects + [o])[..|objects|] == objects;
  }

  /** The decoding loop and the cut to the shortest stream after it. */
  method Reassemble(objects: seq<Object>, memory: Hop) returns (route: seq<Hop>)
    requires AllWellFormed(objects)
    ensures route == Route(objects)
  {
    var ero: seq<Hop> := [];
    var addrCount, prefCount, slCount := 0, 0, 0;
    assert objects[..0] == [];
    for t := 0 to |objects|
      invariant addrCount == |Addresses(objects[..t])| && prefCount == |Prefixes(objects[..t])|
      invariant slCount == |Looses(objects[..t])|
      invariant Collected(ero, Addresses(objects[..t]), Prefixes(objects[..t]), Looses(objects[..t]))
    {
      assert objects[..t + 1] == objects[..t] + [objects[t]];
      Append(objects[..t], objects[t]);
      ero, addrCount, prefCount, slCount :=
        Collect(ero, addrCount, prefCount, slCount, objects[t], memory, objects[..t]);
    }
    assert objects[..|objects|] == objects;
    route := CutRoute(ero, addrCount, prefCount, slCount, objects);
  }

  /** What follows the decoding loop. */
  method CutRoute(ero: seq<Hop>, addrCount: nat, prefCount: nat, slCount: nat, ghost objects: seq<Object>)
      returns (route: seq<Hop>)
    requires Collected(ero, Addresses(objects), Prefixes(objects), Looses(objects))
    requires addrCount == |Addresses(objects)| && prefCount == |Prefixes(objects)| && slCount == |Looses(objects)|
    ensures route == Route(objects)
  {
    var eroCount := |ero|;
    if addrCount < eroCount {
      eroCount := addrCount;
    }
    if prefCount < eroCount {
      eroCount := prefCount;
    }
    if slCount < eroCount {
      eroCount := slCount;
    }
    route := ero[..eroCount];
  }

  /** Cases 13, 14 and 15 of the decoding switch. */
  method Collect(ero: seq<Hop>, addrCount: nat, prefCount: nat, slCount: nat, o: Object, memory: Hop,
      ghost before: seq<Object>)
    returns (ero': seq<Hop>, addrCount': nat, prefCount': nat, slCount': nat)
    requires WellFormed(o) && Collected(ero, Addresses(before), Prefixes(before), Looses(before))
    requires addrCount == |Addresses(before)| && prefCount == |Prefixes(before)| && slCount == |Looses(before)|
    ensures Collected(ero', Addresses(before + [o]), Prefixes(before + [o]), Looses(before + [o]))
    ensures addrCount' == |Addresses(before + [o])| && prefCount' == |Prefixes(before + [o])|
    ensures slCount' == |Looses(before + [o])|
  {
    Append(before, o);
    ero', addrCount', prefCount', slCount' := ero, addrCount, prefCount, slCount;
    if o.otype == OBJECT_ERO_ADDR {
      AddressArrives(ero, Addresses(before), Prefixes(before), Looses(before), o.value.a, memory);
      addrCount' := addrCount + 1;
      ero' := Grown(ero, addrCount', memory);
      ero' := ero'[addrCount := ero'[addrCount].(address := o.value.a)];
    } else if o.otype == OBJECT_ERO_PREF {
      PrefixArrives(ero, Addresses(before), Prefixes(before), Looses(before), o.value.c, memory);
      prefCount' := prefCount + 1;
      ero' := Grown(ero, prefCount', memory);
      ero' := ero'[prefCount := ero'[prefCount].(prefixLength := o.value.c)];
    } else if o.otype == OBJECT_ERO_SL {
      LooseArrives(ero, Addresses(before), Prefixes(before), Looses(before), o.value.c, memory);
      slCount' := slCount + 1;
      ero' := Grown(ero, slCount', memory);
      ero' := ero'[slCount := ero'[slCount].(loose := o.value.c)];
    }
  }

  // ---- Writing a route

  function HopObjects(h: Hop): seq<Object> {
    [Object(OBJECT_ERO_ADDR, Addr(h.address)), Object(OBJECT_ERO_PREF, Byte(h.prefixLength)),
      Object(OBJECT_ERO_SL, Byte(h.loose))]
  }

  /** What the encoding constructor adds for the route. */
  function RouteObjects(hops: seq<Hop>): (objects: seq<Object>)
    ensures |objects| == 3 * |hops|
  {
    if hops == [] then [] else RouteObjects(hops[..|hops| - 1]) + HopObjects(hops[|hops| - 1])
  }

  /** Hop by hop: address, prefix length, flag. */
  lemma {:induction false} RouteInOrder(hops: seq<Hop>, i: nat)
    requires i < |hops|
    ensures var objects := RouteObjects(hops);
      && objects[3 * i] == Object(13, Addr(hops[i].address))
      && objects[3 * i + 1] == Object(14, Byte(hops[i].prefixLength))
      && objects[3 * i + 2] == Object(15, Byte(hops[i].loose))
  {
    var init := hops[..|hops| - 1];
    if i < |init| { RouteInOrder(init, i); }
  }

  lemma OneHop(objects: seq<Object>, h: Hop)
    ensures Addresses(objects + HopObjects(h)) == Addresses(objects) + [h.address]
    ensures Prefixes(objects + HopObjects(h)) == Prefixes(objects) + [h.prefixLength]
    ensures Looses(objects + HopObjects(h)) == Looses(objects) + [h.loose]
  {
    var a, b, c := HopObjects(h)[0], HopObjects(h)[1], HopObjects(h)[2];
    Append(objects, a);
    Append(objects + [a], b);
    Append(objects + [a] + [b], c);
    assert objects + HopObjects(h) == objects + [a] + [b] + [c];
  }

  lemma {:induction false} Streams(hops: seq<Hop>)
    ensures |Addresses(RouteObjects(hops))| == |hops|
    ensures forall i :: 0 <= i < |hops| ==> Addresses(RouteObjects(hops))[i] == hops[i].address
    ensures |Prefixes(RouteObjects(hops))| == |hops|
    ensures forall i :: 0 <= i < |hops| ==> Prefixes(RouteObjects(hops))[i] == hops[i].prefixLength
    ensures |Looses(RouteObjects(hops))| == |hops|
    ensures forall i :: 0 <= i < |hops| ==> Looses(RouteObjects(hops))[i] == hops[i].loose
  {
    if hops != [] {
      var init, last := hops[..|hops| - 1], hops[|hops| - 1];
      Streams(init);
      OneHop(RouteObjects(init), last);
      assert RouteObjects(hops) == RouteObjects(init) + HopObjects(last);
    }
  }

  predicate NoHops(objects: seq<Object>) {
    forall k :: 0 <= k < |objects| ==> objects[k].otype !in {OBJECT_ERO_ADDR, OBJECT_ERO_PREF, OBJECT_ERO_SL}
  }

  lemma {:induction false} StreamsJoin(a: seq<Object>, b: seq<Object>)
    ensures Addresses(a + b) == Addresses(a) + Addresses(b)
    ensures Prefixes(a + b) == Prefixes(a) + Prefixes(b)
    ensures Looses(a + b) == Looses(a) + Looses(b)
    decreases |b|
  {
    if b == [] {
      assert a + b == a;
    } else {
      var init, last := b[..|b| - 1], b[|b| - 1];
      StreamsJoin(a, init);
      Append(a + init, last);
      Append(init, last);
      assert a + b == a + init + [last] && b == init + [last];
    }
  }

  lemma {:induction false} NoStreams(objects: seq<Object>)
    requires NoHops(objects)
    ensures Addresses(objects) == [] && Prefixes(objects) == [] && Looses(objects) == []
  {
    if objects != [] { NoStreams(objects[..|objects| - 1]); }
  }

  /** Objects that are no part of a route change nothing about it. */
  lemma RouteAmong(before: seq<Object>, middle: seq<Object>, after: seq<Object>)
    requires NoHops(before) && NoHops(after)
    ensures Route(before + middle + after) == Route(middle)
  {
    StreamsJoin(before + middle, after);
    StreamsJoin(before, middle);
    NoStreams(before);
    NoStreams(after);
    assert Addresses(before + middle + after) == Addresses(middle);
    assert Prefixes(before + middle + after) == Prefixes(middle);
    assert Looses(before + middle + after) == Looses(middle);
  }

  /** The route that was written comes back, whatever other objects are written around it. */
  lemma RouteBack(before: seq<Object>, hops: seq<Hop>, after: seq<Object>)
    requires NoHops(before) && NoHops(after)
    ensures Route(before + RouteObjects(hops) + after) == hops
  {
    RouteAmong(before, RouteObjects(hops), after);
    Streams(hops);
  }

  // ---- Through the codec

  lemma HopWellFormed(h: Hop, k: nat)
    requires k < 3
    ensures WellFormed(HopObjects(h)[k]) && |Payload(HopObjects(h)[k].value)| < 0x80
  {
  }

  lemma {:induction false} RouteWellFormed(hops: seq<Hop>, k: nat)
    requires k < |RouteObjects(hops)|
    ensures WellFormed(RouteObjects(hops)[k]) && |Payload(RouteObjects(hops)[k].value)| < 0x80
  {
    var init := hops[..|hops| - 1];
    if k < 3 * |init| {
      RouteWellFormed(init, k);
    } else {
      HopWellFormed(hops[|hops| - 1], k - 3 * |init|);
    }
  }

  lemma RouteSendable(hops: seq<Hop>)
    ensures Sendable(RouteObjects(hops))
  {
    forall k | 0 <= k < |RouteObjects(hops)|
      ensures WellFormed(RouteObjects(hops)[k]) && |Payload(RouteObjects(hops)[k].value)| < 0x100
    {
      RouteWellFormed(hops, k);
    }
  }

  /** An object serves one stream at most. */
  lemma {:induction false} FewerHops(objects: seq<Object>)
    ensures |Addresses(objects)| + |Prefixes(objects)| + |Looses(objects)| <= |objects|
    ensures 3 * |Route(objects)| <= |objects|
  {
    if objects != [] { FewerHops(objects[..|objects| - 1]); }
  }

  lemma CutBefore(before: seq<Object>, m: nat)
    requires NoHops(before) && m <= |before|
    ensures Route(before[..m]) == []
  {
    NoStreams(before[..m]);
  }

  lemma CutWithin(before: seq<Object>, some: seq<Object>)
    requires NoHops(before)
    ensures 3 * |Route(before + some)| <= |some|
  {
    RouteAmong(before, some, []);
    FewerHops(some);
    assert before + some + [] == before + some;
  }

  lemma CutParts(before: seq<Object>, middle: seq<Object>, after: seq<Object>, m: nat)
    requires m <= |before| + |middle| + |after|
    ensures var all := before + middle + after;
      all[..m] == if m <= |before| then before[..m]
                  else if m < |before| + |middle| then before + middle[..m - |before|]
                  else before + middle + after[..m - |before| - |middle|]
  {
  }

  /** The first m objects of a message still hold its route exactly when they reach past its last object. */
  lemma {:induction false} RouteCut(before: seq<Object>, hops: seq<Hop>, after: seq<Object>, m: nat)
    requires NoHops(before) && NoHops(after) && hops != [] && m <= |before| + 3 * |hops| + |after|
    ensures Route((before + RouteObjects(hops) + after)[..m]) == hops <==> m >= |before| + 3 * |hops|
  {
    var middle := RouteObjects(hops);
    CutParts(before, middle, after, m);
    if m >= |before| + |middle| {
      RouteBack(before, hops, after[..m - |before| - |middle|]);
    } else if m > |before| {
      CutWithin(before, middle[..m - |before|]);
    } else {
      CutBefore(before, m);
    }
  }

  /** The numbers of a message in parts are no part of a route. */
  lemma {:induction false} RouteWithout(objects: seq<Object>)
    ensures Addresses(Without(MULTI_PART, objects)) == Addresses(objects)
    ensures Prefixes(Without(MULTI_PART, objects)) == Prefixes(objects)
    ensures Looses(Without(MULTI_PART, objects)) == Looses(objects)
  {
    if objects != [] {
      var first, rest := [objects[0]], objects[1..];
      RouteWithout(rest);
      assert objects == first + rest;
      StreamsJoin(first, rest);
      StreamsJoin(first, Without(MULTI_PART, rest));
      Append([], objects[0]);
      assert [] + first == first && [] + Without(MULTI_PART, rest) == Without(MULTI_PART, rest);
    }
  }

  lemma SameRoute(objects: seq<Object>)
    ensures Route(Without(MULTI_PART, objects)) == Route(objects)
  {
    RouteWithout(objects);
  }

  /** A message that carries the route among other objects. */
  ghost predicate CarriesRoute(objects: seq<Object>, before: seq<Object>, hops: seq<Hop>, after: seq<Object>) {
    objects == before + RouteObjects(hops) + after && NoHops(before) && NoHops(after)
  }

  lemma CutSurvives(objects: seq<Object>, before: seq<Object>, hops: seq<Hop>, after: seq<Object>, m: nat)
    requires CarriesRoute(objects, before, hops, after) && hops != [] && m <= |objects|
    ensures Route(Without(MULTI_PART, objects[..m])) == hops <==> m >= |before| + 3 * |hops|
  {
    RouteCut(before, hops, after, m);
    SameRoute(objects[..m]);
  }

  /** A route survives its message, among whatever other objects the writer puts around it, exactly when the object
      count, as it wraps in its byte, reaches past the last object of the route: beyond that the agent stops early. */
  lemma RouteSurvives(w: Writer, h: Header, objects: seq<Object>, before: seq<Object>, hops: seq<Hop>,
      after: seq<Object>)
    requires CarriesRoute(objects, before, hops, after) && hops != []
    requires Sendable(objects) && Packs(w, |objects|)
    ensures |Packet(w, h, objects)| >= 5
    ensures var read := Read(AgentReader, Packet(w, h, objects));
      read.Some? && (Route(read.value) == hops <==> |objects| % 0x100 >= |before| + 3 * |hops|)
  {
    CutShort(w, AgentReader, h, objects);
    CutSurvives(objects, before, hops, after, |objects| % 0x100);
  }

  /** 85 hops fit a message of their own, but not one with two more objects: then all of them are lost. */
  lemma RouteLost(h: Header, hops: seq<Hop>, tunnel: u16, destination: u32)
    requires |hops| == 85
    ensures var before := [Object(23, Short(tunnel)), Object(1, Addr(destination))];
      && Sendable(before + RouteObjects(hops)) && |Packet(Agent, h, before + RouteObjects(hops))| >= 5
      && Read(AgentReader, Packet(Agent, h, before + RouteObjects(hops))) == Some([Object(23, Short(tunnel))])
  {
    var before := [Object(23, Short(tunnel)), Object(1, Addr(destination))];
    var objects := before + RouteObjects(hops);
    RouteSendable(hops);
    forall k | 0 <= k < |objects|
      ensures WellFormed(objects[k]) && |Payload(objects[k].value)| < 0x100
    {
      if k >= 2 { assert objects[k] == RouteObjects(hops)[k - 2]; }
    }
    CutShort(Agent, AgentReader, h, objects);
    assert objects[..1] == [before[0]] && [before[0]][1..] == [];
    assert Without(MULTI_PART, [before[0]]) == [before[0]];
  }
}
