/** The loops that write and read management packets. */
module MgmtLoops {
  import opened Bytes
  import opened Options
  import opened MgmtCodec

  function Continued(acc: seq<Object>, rest: Option<seq<Object>>): Option<seq<Object>> {
    if rest.Some? then Some(acc + rest.value) else None
  }

  lemma OneMore(acc: seq<Object>, o: Object, rest: Option<seq<Object>>)
    ensures Continued(acc, Prepend(o, rest)) == Continued(acc + [o], rest)
  {
    if rest.Some? { assert acc + ([o] + rest.value) == acc + [o] + rest.value; }
  }

  lemma NoneYet(rest: Option<seq<Object>>)
    ensures Continued([], rest) == rest
  {
    if rest.Some? { assert [] + rest.value == rest.value; }
  }

  /** The writers' state: the contents so far and the object count, which wraps in its byte. */
  predicate Written(contents: seq<byte>, count: byte, parts: seq<seq<byte>>, t: nat)
    requires t <= |parts|
  {
    contents + Join(parts, t) == Join(parts, 0) && count == t % 0x100
  }

  lemma WrittenNext(contents: seq<byte>, count: byte, parts: seq<seq<byte>>, t: nat)
    requires t < |parts| && Written(contents, count, parts, t)
    ensures Written(contents + parts[t], (count + 1) % 0x100, parts, t + 1)
  {
    assert contents + parts[t] + Join(parts, t + 1) == contents + (parts[t] + Join(parts, t + 1));
  }

  lemma AllWritten(contents: seq<byte>, count: byte, parts: seq<seq<byte>>)
    requires Written(contents, count, parts, |parts|)
    ensures contents == Join(parts, 0) && count == |parts| % 0x100
  {
    assert contents + [] == contents;
  }

  /** The `add_` writers. */
  method AddObject(w: Writer, contents: seq<byte>, count: byte, o: Object) returns (r: seq<byte>, n: byte)
    requires WellFormed(o)
    ensures r == contents + ObjectBytes(w, o) && n == (count + 1) % 0x100
  {
    TypeFits(o);
    var head := Net16(o.otype) + [DataType(ShapeOfValue(o.value)), SizeByte(w, o.value)];
    r := contents + (head + Payload(o.value));
    n := (count + 1) % 0x100;
  }

  /** The encoding constructors: contents grow object by object. */
  method BuildObjects(w: Writer, objects: seq<Object>) returns (contents: seq<byte>, count: byte)
    requires forall k :: 0 <= k < |objects| ==> WellFormed(objects[k])
    ensures contents == Join(Parts(w, objects), 0)
    ensures count == |objects| % 0x100
  {
    contents, count := [], 0;
    ghost var parts := Parts(w, objects);
    for t := 0 to |objects|
      invariant Written(contents, count, parts, t)
    {
      WrittenNext(contents, count, parts, t);
      contents, count := AddObject(w, contents, count, objects[t]);
    }
    AllWritten(contents, count, parts);
  }

  /** The header goes in front at the end; Python cannot put a count of 256 or more in its byte. */
  method Build(w: Writer, h: Header, objects: seq<Object>) returns (packet: Option<seq<byte>>)
    requires Sendable(objects)
    ensures packet == if Packs(w, |objects|) then Some(Packet(w, h, objects)) else None
  {
    if w.PythonClient? && |objects| >= 0x100 {
      return None;
    }
    var contents, count := BuildObjects(w, objects);
    packet := Some(Net16(h.id) + [h.mtype, h.command, count] + contents);
  }

  /** `unpackData`. */
  method ReadJava(b: seq<byte>) returns (objects: Option<seq<Object>>)
    requires |b| >= 5
    ensures objects == Read(JavaReader, b)
  {
    var acc: seq<Object> := [];
    var index: nat, left: nat := 5, if b[4] < 0x80 then b[4] else 0;
    NoneYet(JavaObjects(b, 5, left));
    while left > 0
      invariant Read(JavaReader, b) == Continued(acc, JavaObjects(b, index, left))
      decreases left
    {
      if index + 4 > |b| {
        return None;
      }
      match Meet(b, index) {
        case PastEnd => return None;
        case Unknown => index := index + 4;
        case Known(o, n) =>
          if n >= 0x80 {
            return None;
          }
          OneMore(acc, o, JavaObjects(b, index + 4 + n, left - 1));
          acc := acc + [o];
          index := index + 4 + n;
      }
      left := left - 1;
    }
    assert acc + [] == acc;
    objects := Some(acc);
  }

  /** `parse`. */
  method ReadPython(b: seq<byte>) returns (objects: Option<seq<Object>>)
    requires |b| >= 5
    ensures objects == Read(PythonReader, b)
  {
    var acc: seq<Object> := [];
    var pos: nat, left: nat := 5, b[4];
    NoneYet(PythonObjects(b, 5, left));
    while pos + 3 < |b| && left > 0
      invariant Read(PythonReader, b) == Continued(acc, PythonObjects(b, pos, left))
      decreases |b| - pos
    {
      match Meet(b, pos) {
        case PastEnd => return None;
        case Unknown => pos := pos + 2;
        case Known(o, n) =>
          OneMore(acc, o, PythonObjects(b, pos + 4 + n, left - 1));
          acc := acc + [o];
          pos := pos + 4 + n;
          left := left - 1;
      }
    }
    assert acc + [] == acc;
    objects := Some(acc);
  }
}
