/** The object loop of `parse_data`, over any parser of object bodies, and what it does with a sequence of objects that
    are framed by their length fields (section 3.1.2 of RFC 2205). */
module MessagePieces {
  import opened Bytes
  import opened Parameters
  import opened Configuration
  import opened WireFormats

  /** Class-Num, C-Type, the packet, the start of the body, its declared size, and the configuration so far. */
  type BodyParser = (byte, byte, seq<byte>, nat, int, Store) -> Parse

  /** The loop from offset `at` on. */
  function ParseObjects(parse: BodyParser, packet: seq<byte>, at: nat, conf: Store): Parse
    decreases |packet| - at
  {
    if at >= |packet| then Parsed(conf)
    else if at + 4 > |packet| then Overrun
    else
      var length := FromNet16(packet[at..at + 2]);
      var result := parse(packet[at + 2], packet[at + 3], packet, at + 4, length - 4, conf);
      if !result.Parsed? then result
      else if length == 0 then Endless
      else ParseObjects(parse, packet, at + length, result.store)
  }

  /** One turn of the loop, by what the parser of the body makes of it. */
  lemma TurnTaken(parse: BodyParser, packet: seq<byte>, at: nat, conf: Store, length: nat, result: Parse)
    requires at + 4 <= |packet| && length == FromNet16(packet[at..at + 2])
    requires result == parse(packet[at + 2], packet[at + 3], packet, at + 4, length - 4, conf)
    ensures ParseObjects(parse, packet, at, conf) ==
      if !result.Parsed? then result else if length == 0 then Endless
        else ParseObjects(parse, packet, at + length, result.store)
  {
  }

  // ---- The loop on any packet

  /** An offset the loop comes to, and what has been added by then. */
  datatype Turn = Turn(at: nat, store: Store)

  /** The length field of the object at an offset. */
  function LengthAt(packet: seq<byte>, at: nat): u16
    requires at + 2 <= |packet|
  {
    FromNet16(packet[at..at + 2])
  }

  /** What parsing the body of the object there gives. */
  function BodyAt(parse: BodyParser, packet: seq<byte>, t: Turn): Parse
    requires t.at + 4 <= |packet|
  {
    parse(packet[t.at + 2], packet[t.at + 3], packet, t.at + 4, LengthAt(packet, t.at) - 4, t.store)
  }

  /** The body of the first object can be parsed, and its length field leads to the second. */
  predicate LeadsTo(parse: BodyParser, packet: seq<byte>, t: Turn, u: Turn) {
    && t.at + 4 <= |packet| && LengthAt(packet, t.at) > 0 && u.at == t.at + LengthAt(packet, t.at)
    && BodyAt(parse, packet, t) == Parsed(u.store)
  }

  predicate Chain(parse: BodyParser, packet: seq<byte>, turns: seq<Turn>) {
    turns != [] && forall i :: 0 <= i < |turns| - 1 ==> LeadsTo(parse, packet, turns[i], turns[i + 1])
  }

  /** A chain of length fields, with bodies that can be parsed, goes from one offset to the other. */
  ghost predicate Reaches(parse: BodyParser, packet: seq<byte>, t: Turn, u: Turn) {
    exists turns :: Chain(parse, packet, turns) && turns[0] == t && turns[|turns| - 1] == u
  }

  /** There the loop goes no further: the packet ends, or ends inside an object, or the body is not parsed, or the
      length is zero. */
  predicate EndsAt(parse: BodyParser, packet: seq<byte>, t: Turn, result: Parse) {
    if t.at >= |packet| then result == Parsed(t.store)
    else if t.at + 4 > |packet| then result == Overrun
    else
      var body := BodyAt(parse, packet, t);
      if !body.Parsed? then result == body else LengthAt(packet, t.at) == 0 && result == Endless
  }

  function Trail(parse: BodyParser, packet: seq<byte>, t: Turn): (turns: seq<Turn>)
    ensures turns != [] && turns[0] == t
    decreases |packet| - t.at
  {
    if t.at + 4 <= |packet| && LengthAt(packet, t.at) > 0 && BodyAt(parse, packet, t).Parsed? then
      [t] + Trail(parse, packet, Turn(t.at + LengthAt(packet, t.at), BodyAt(parse, packet, t).store))
    else [t]
  }

  lemma {:induction false} TrailEnds(parse: BodyParser, packet: seq<byte>, t: Turn)
    ensures var turns := Trail(parse, packet, t);
      && Chain(parse, packet, turns)
      && EndsAt(parse, packet, turns[|turns| - 1], ParseObjects(parse, packet, t.at, t.store))
    decreases |packet| - t.at
  {
    if t.at + 4 <= |packet| && LengthAt(packet, t.at) > 0 && BodyAt(parse, packet, t).Parsed? {
      var next := Turn(t.at + LengthAt(packet, t.at), BodyAt(parse, packet, t).store);
      TrailEnds(parse, packet, next);
      var rest, turns := Trail(parse, packet, next), Trail(parse, packet, t);
      forall i | 0 <= i < |turns| - 1
        ensures LeadsTo(parse, packet, turns[i], turns[i + 1])
      {
        if i > 0 { assert LeadsTo(parse, packet, rest[i - 1], rest[i]); }
      }
    }
  }

  lemma {:induction false} Follow(parse: BodyParser, packet: seq<byte>, turns: seq<Turn>, n: nat)
    requires Chain(parse, packet, turns) && n < |turns|
    ensures ParseObjects(parse, packet, turns[0].at, turns[0].store)
      == ParseObjects(parse, packet, turns[n].at, turns[n].store)
  {
    if n > 0 {
      Follow(parse, packet, turns, n - 1);
      assert LeadsTo(parse, packet, turns[n - 1], turns[n]);
    }
  }

  lemma ReachedKeeps(parse: BodyParser, packet: seq<byte>, t: Turn, u: Turn)
    requires Reaches(parse, packet, t, u)
    ensures ParseObjects(parse, packet, t.at, t.store) == ParseObjects(parse, packet, u.at, u.store)
  {
    var turns :| Chain(parse, packet, turns) && turns[0] == t && turns[|turns| - 1] == u;
    Follow(parse, packet, turns, |turns| - 1);
  }

  lemma EndsThere(parse: BodyParser, packet: seq<byte>, t: Turn, result: Parse)
    requires EndsAt(parse, packet, t, result)
    ensures ParseObjects(parse, packet, t.at, t.store) == result
  {
  }

  lemma TrailReaches(parse: BodyParser, packet: seq<byte>, t: Turn) returns (end: Turn)
    ensures Reaches(parse, packet, t, end)
    ensures EndsAt(parse, packet, end, ParseObjects(parse, packet, t.at, t.store))
  {
    var turns := Trail(parse, packet, t);
    TrailEnds(parse, packet, t);
    end := turns[|turns| - 1];
  }

  /** The loop gives a result exactly when a chain leads to where it ends with that result. */
  lemma ParseExactly(parse: BodyParser, packet: seq<byte>, t: Turn, result: Parse)
    ensures ParseObjects(parse, packet, t.at, t.store) == result
      <==> exists u :: Reaches(parse, packet, t, u) && EndsAt(parse, packet, u, result)
  {
    var end := TrailReaches(parse, packet, t);
    forall u | Reaches(parse, packet, t, u) && EndsAt(parse, packet, u, result)
      ensures ParseObjects(parse, packet, t.at, t.store) == result
    {
      ReachedKeeps(parse, packet, t, u);
      EndsThere(parse, packet, u, result);
    }
  }

  // ---- Objects framed by their length fields

  function ObjHeader(size: nat, cnum: byte, ctnum: byte): (s: seq<byte>)
    ensures |s| == 4
  {
    Net16((size + 4) % 0x1_0000) + [cnum, ctnum]
  }

  /** What one entry of the object list puts in a message, what was there before it is parsed and after, how many bytes
      after it that parse passes over, and the bytes after it that it reads. */
  datatype Piece = Piece(bytes: seq<byte>, before: Store, after: Store, overshoot: nat, ahead: seq<byte>)

  ghost predicate TakenAt(parse: BodyParser, piece: Piece, packet: seq<byte>, at: nat) {
    LiesAt(packet, at, piece.bytes) && at + |piece.bytes| + piece.overshoot <= |packet|
    && LiesAt(packet, at + |piece.bytes|, piece.ahead)
    ==> ParseObjects(parse, packet, at, piece.before) == ParseObjects(parse, packet, at + |piece.bytes|, piece.after)
  }

  /** Wherever the piece lies, the loop takes it and goes on after it. */
  ghost predicate Taken(parse: BodyParser, piece: Piece) {
    forall packet, at: nat :: TakenAt(parse, piece, packet, at)
  }

  /** What an object says of itself, and what parsing its body does. */
  datatype Content = Content(cnum: byte, ctnum: byte, body: seq<byte>, before: Store, after: Store, overshoot: nat)

  ghost predicate BodyParsesAt(parse: BodyParser, c: Content, packet: seq<byte>, at: nat) {
    LiesAt(packet, at, c.body) && at + |c.body| + c.overshoot <= |packet|
    ==> parse(c.cnum, c.ctnum, packet, at, |c.body|, c.before) == Parsed(c.after)
  }

  lemma HeaderParts(size: nat, cnum: byte, ctnum: byte)
    requires size + 4 < 0x1_0000
    ensures ObjHeader(size, cnum, ctnum) == Net16(size + 4) + [cnum, ctnum]
  {
  }

  lemma HeaderThere(packet: seq<byte>, at: nat, size: nat, cnum: byte, ctnum: byte)
    requires LiesAt(packet, at, ObjHeader(size, cnum, ctnum)) && size + 4 < 0x1_0000
    ensures FromNet16(packet[at..at + 2]) == size + 4 && packet[at + 2] == cnum && packet[at + 3] == ctnum
  {
    HeaderParts(size, cnum, ctnum);
    hide ObjHeader, Net16, FromNet16;
    PartsLie(packet, at, Net16(size + 4), [cnum, ctnum]);
    Net16RoundTrip(size + 4);
    assert packet[at + 2..at + 4][0] == cnum && packet[at + 2..at + 4][1] == ctnum;
  }

  lemma SilentTaken(parse: BodyParser, store: Store, overshoot: nat)
    ensures Taken(parse, Piece([], store, store, overshoot, []))
  {
  }

  /** An object whose length field frames its body is taken in one turn. */
  lemma ObjectTaken(parse: BodyParser, c: Content)
    requires |c.body| + 4 < 0x1_0000
    requires forall packet, at: nat :: BodyParsesAt(parse, c, packet, at)
    ensures Taken(parse, Piece(ObjHeader(|c.body|, c.cnum, c.ctnum) + c.body, c.before, c.after, c.overshoot, []))
  {
    var header := ObjHeader(|c.body|, c.cnum, c.ctnum);
    var piece := Piece(header + c.body, c.before, c.after, c.overshoot, []);
    forall packet, at: nat
      ensures TakenAt(parse, piece, packet, at)
    {
      if LiesAt(packet, at, piece.bytes) && at + |piece.bytes| + c.overshoot <= |packet| {
        PartsLie(packet, at, header, c.body);
        HeaderThere(packet, at, |c.body|, c.cnum, c.ctnum);
        assert BodyParsesAt(parse, c, packet, at + 4);
      }
    }
  }

  // ---- Sequences of pieces

  /** The first n parts, one after the other. */
  function Flatten(parts: seq<seq<byte>>, n: nat): seq<byte>
    requires n <= |parts|
  {
    if n == 0 then [] else Flatten(parts, n - 1) + parts[n - 1]
  }

  /** The bytes of the first n pieces. */
  function Joined(pieces: seq<Piece>, n: nat): seq<byte>
    requires n <= |pieces|
  {
    if n == 0 then [] else Joined(pieces, n - 1) + pieces[n - 1].bytes
  }

  /** What is there after the first n pieces. */
  function StoreAfter(pieces: seq<Piece>, n: nat): Store
    requires n <= |pieces|
  {
    if n == 0 then map[] else pieces[n - 1].after
  }

  /** Each piece finds what the ones before it left. */
  predicate Linked(pieces: seq<Piece>) {
    forall i :: 0 <= i < |pieces| ==> pieces[i].before == StoreAfter(pieces, i)
  }

  /** Enough follows each piece for its parser to pass over, and what its parser reads follows it. */
  predicate Spaced(pieces: seq<Piece>) {
    forall i :: 0 <= i < |pieces| ==>
      && |Joined(pieces, i + 1)| + pieces[i].overshoot <= |Joined(pieces, |pieces|)|
      && LiesAt(Joined(pieces, |pieces|), |Joined(pieces, i + 1)|, pieces[i].ahead)
  }

  lemma {:induction false} JoinedPrefix(pieces: seq<Piece>, i: nat, n: nat)
    requires i <= n <= |pieces|
    ensures Joined(pieces, i) <= Joined(pieces, n)
    decreases n - i
  {
    if i < n { JoinedPrefix(pieces, i, n - 1); }
  }

  /** Where the i-th piece lies in the whole. */
  lemma {:induction false} PieceLiesIn(pieces: seq<Piece>, i: nat)
    requires i < |pieces|
    ensures LiesAt(Joined(pieces, |pieces|), |Joined(pieces, i)|, pieces[i].bytes)
  {
    JoinedPrefix(pieces, i + 1, |pieces|);
    var all, upto := Joined(pieces, |pieces|), Joined(pieces, i + 1);
    assert all[..|upto|] == Joined(pieces, i) + pieces[i].bytes;
    assert all[..|upto|][|Joined(pieces, i)|..] == pieces[i].bytes;
  }

  /** Pieces that put in nothing leave the next where it is. */
  lemma {:induction false} EmptyBetween(pieces: seq<Piece>, i: nat, j: nat)
    requires i <= j <= |pieces| && forall k :: i <= k < j ==> pieces[k].bytes == []
    ensures |Joined(pieces, i)| == |Joined(pieces, j)|
    decreases j - i
  {
    if i < j { EmptyBetween(pieces, i, j - 1); }
  }

  /** What the next piece starts with follows the i-th, when the ones between put in nothing. */
  lemma HeadFollows(pieces: seq<Piece>, i: nat, j: nat, head: seq<byte>)
    requires i < j < |pieces| && (forall k :: i < k < j ==> pieces[k].bytes == []) && head <= pieces[j].bytes
    ensures LiesAt(Joined(pieces, |pieces|), |Joined(pieces, i + 1)|, head)
  {
    EmptyBetween(pieces, i + 1, j);
    PieceLiesIn(pieces, j);
    var rest := pieces[j].bytes[|head|..];
    assert pieces[j].bytes == head + rest;
    PartsLie(Joined(pieces, |pieces|), |Joined(pieces, j)|, head, rest);
  }

  /** The bytes the parser of the i-th piece reads after it are what the j-th starts with, and nothing is in between. */
  predicate ForeseenAt(pieces: seq<Piece>, i: nat, j: nat) {
    i < j < |pieces| && (forall k :: i < k < j ==> pieces[k].bytes == []) && pieces[i].ahead <= pieces[j].bytes
  }

  ghost predicate Foreseen(pieces: seq<Piece>) {
    forall i :: 0 <= i < |pieces| ==> pieces[i].ahead == [] || exists j: nat :: ForeseenAt(pieces, i, j)
  }

  /** Enough follows each piece for its parser to pass over. */
  predicate Roomy(pieces: seq<Piece>) {
    forall i :: 0 <= i < |pieces| ==> |Joined(pieces, i + 1)| + pieces[i].overshoot <= |Joined(pieces, |pieces|)|
  }

  lemma ForeseenSpaced(pieces: seq<Piece>)
    requires Foreseen(pieces) && Roomy(pieces)
    ensures Spaced(pieces)
  {
    forall i | 0 <= i < |pieces|
      ensures LiesAt(Joined(pieces, |pieces|), |Joined(pieces, i + 1)|, pieces[i].ahead)
    {
      if pieces[i].ahead == [] {
        JoinedPrefix(pieces, i + 1, |pieces|);
      } else {
        var j: nat :| ForeseenAt(pieces, i, j);
        HeadFollows(pieces, i, j, pieces[i].ahead);
      }
    }
  }

  /** The i-th piece is there, and can be taken. */
  ghost predicate Ready(pieces: seq<Piece>, packet: seq<byte>, i: nat)
    requires i < |pieces|
  {
    && LiesAt(packet, |Joined(pieces, i)|, pieces[i].bytes)
    && |Joined(pieces, i + 1)| + pieces[i].overshoot <= |packet|
    && LiesAt(packet, |Joined(pieces, i + 1)|, pieces[i].ahead)
    && pieces[i].before == StoreAfter(pieces, i)
  }

  lemma {:induction false} IsReady(pieces: seq<Piece>, i: nat)
    requires Linked(pieces) && Spaced(pieces) && i < |pieces|
    ensures Ready(pieces, Joined(pieces, |pieces|), i)
  {
    PieceLiesIn(pieces, i);
  }

  ghost predicate AllReady(parse: BodyParser, pieces: seq<Piece>, packet: seq<byte>) {
    forall i {:trigger Ready(pieces, packet, i)} :: 0 <= i < |pieces|
      ==> Taken(parse, pieces[i]) && Ready(pieces, packet, i)
  }

  lemma {:induction false} PiecesTaken(parse: BodyParser, pieces: seq<Piece>, packet: seq<byte>, n: nat)
    requires n <= |pieces| && AllReady(parse, pieces, packet)
    ensures ParseObjects(parse, packet, 0, map[])
      == ParseObjects(parse, packet, |Joined(pieces, n)|, StoreAfter(pieces, n))
  {
    if n > 0 {
      assert Ready(pieces, packet, n - 1);
      PiecesTaken(parse, pieces, packet, n - 1);
      assert TakenAt(parse, pieces[n - 1], packet, |Joined(pieces, n - 1)|);
    }
  }

  /** The loop takes the pieces one by one, stops at the end of the packet, and returns what the last one left. */
  lemma {:induction false} PiecesParse(parse: BodyParser, pieces: seq<Piece>, packet: seq<byte>)
    requires Linked(pieces) && Spaced(pieces) && forall i :: 0 <= i < |pieces| ==> Taken(parse, pieces[i])
    requires packet == Joined(pieces, |pieces|)
    ensures ParseObjects(parse, packet, 0, map[]) == Parsed(StoreAfter(pieces, |pieces|))
  {
    forall i | 0 <= i < |pieces|
      ensures Ready(pieces, packet, i)
    {
      IsReady(pieces, i);
    }
    PiecesTaken(parse, pieces, packet, |pieces|);
  }

  lemma {:induction false} FlattenJoins(parts: seq<seq<byte>>, pieces: seq<Piece>, n: nat)
    requires |parts| == |pieces| && n <= |parts| && forall i :: 0 <= i < |parts| ==> parts[i] == pieces[i].bytes
    ensures Flatten(parts, n) == Joined(pieces, n)
  {
    if n > 0 { FlattenJoins(parts, pieces, n - 1); }
  }

  lemma {:induction false} FlattenAligned(parts: seq<seq<byte>>, n: nat)
    requires n <= |parts| && forall j :: 0 <= j < |parts| ==> |parts[j]| % 4 == 0
    ensures |Flatten(parts, n)| % 4 == 0
  {
    if n > 0 { FlattenAligned(parts, n - 1); }
  }
}
