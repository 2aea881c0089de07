/** The management protocol, which the agent, the C++ and Java libraries and the Python client each read and write with
    code of their own: the four writers do not agree on the size byte, and the readers find the end of an object in
    different ways. */
module MgmtCodec {
  import opened Bytes
  import opened Options

  const LAST_TYPE: nat := 42
  const ETHERNET_PROFILE: nat := 42

  /** A value by its kind: addresses and floats travel as they lie in memory, numbers most significant byte first. */
  datatype Value = Byte(c: byte) | Short(s: u16) | Int(i: u32) | Addr(a: u32) | Float(bits: u32) | Text(text: seq<byte>)

  datatype Shape = OfByte | OfShort | OfInt | OfAddr | OfFloat | OfText

  datatype Object = Object(otype: nat, value: Value)

  /** The object table: the same in the four implementations. */
  function ShapeOf(otype: nat): Option<Shape> {
    if otype in {9, 10, 14, 15, 18, 19, 32, 33, 35, 41, 42} then Some(OfByte)
    else if otype in {11, 20, 23, 31, 34, 40} then Some(OfShort)
    else if otype in {4, 8, 21, 22, 26, 29, 30} then Some(OfInt)
    else if otype in {1, 2, 3, 13, 16, 17, 24, 25, 27, 28} then Some(OfAddr)
    else if otype in {5, 6, 7, 36, 37, 38, 39} then Some(OfFloat)
    else if otype == 12 then Some(OfText)
    else None
  }

  function ShapeOfValue(v: Value): Shape {
    match v
    case Byte(_) => OfByte
    case Short(_) => OfShort
    case Int(_) => OfInt
    case Addr(_) => OfAddr
    case Float(_) => OfFloat
    case Text(_) => OfText
  }

  predicate WellFormed(o: Object) {
    ShapeOf(o.otype) == Some(ShapeOfValue(o.value))
  }

  function Payload(v: Value): seq<byte> {
    match v
    case Byte(c) => [c]
    case Short(s) => Net16(s)
    case Int(i) => Net32(i)
    case Addr(a) => Host32(a)
    case Float(bits) => Host32(bits)
    case Text(text) => text
  }

  /** The data type byte; an address counts as an unsigned int. */
  function DataType(shape: Shape): byte {
    match shape
    case OfByte => 1
    case OfShort => 2
    case OfInt => 3
    case OfAddr => 3
    case OfFloat => 5
    case OfText => 6
  }

  function FixedWidth(shape: Shape): nat
    requires !shape.OfText?
  {
    match shape
    case OfByte => 1
    case OfShort => 2
    case _ => 4
  }

  function ValueOf(shape: Shape, s: seq<byte>): Value
    requires !shape.OfText? ==> |s| == FixedWidth(shape)
  {
    match shape
    case OfByte => Byte(s[0])
    case OfShort => Short(FromNet16(s))
    case OfInt => Int(FromNet32(s))
    case OfAddr => Addr(FromHost32(s))
    case OfFloat => Float(FromHost32(s))
    case OfText => Text(s)
  }

  lemma PayloadBack(v: Value)
    ensures !v.Text? ==> |Payload(v)| == FixedWidth(ShapeOfValue(v))
    ensures ValueOf(ShapeOfValue(v), Payload(v)) == v
  {
    match v
    case Byte(_) =>
    case Short(s) => Net16RoundTrip(s);
    case Int(i) => Net32RoundTrip(i);
    case Addr(a) => Host32RoundTrip(a);
    case Float(bits) => Host32RoundTrip(bits);
    case Text(_) =>
  }

  // ---- The writers

  datatype Writer = Agent | CppLibrary | JavaLibrary | PythonClient

  /** The C++ writers fill the size byte for strings only. */
  function SizeByte(w: Writer, v: Value): byte {
    if (w.Agent? || w.CppLibrary?) && !v.Text? then 0 else |Payload(v)| % 0x100
  }

  function ObjectBytes(w: Writer, o: Object): seq<byte>
    requires WellFormed(o)
  {
    Net16(o.otype) + [DataType(ShapeOfValue(o.value)), SizeByte(w, o.value)] + Payload(o.value)
  }

  predicate InCpp(w: Writer) {
    w.Agent? || w.CppLibrary?
  }

  /** The four writers lay an object out alike, but for the size byte of what is no name: the C++ ones leave it zero,
      the others write the width of the value. The data type byte tells names, floats and the widths of the rest
      apart. */
  lemma SameLayout(w: Writer, v: Writer, o: Object)
    requires WellFormed(o) && o.otype < 0x1_0000 && |Payload(o.value)| < 0x100
    ensures ObjectBytes(w, o) == ObjectBytes(v, o) <==> o.value.Text? || (InCpp(w) <==> InCpp(v))
    ensures |ObjectBytes(w, o)| == 4 + |Payload(o.value)|
    ensures ObjectBytes(w, o)[2]
      == if o.value.Text? then 6 else if o.value.Float? then 5 else if |Payload(o.value)| == 4 then 3
         else |Payload(o.value)|
    ensures ObjectBytes(w, o)[3] == if InCpp(w) && !o.value.Text? then 0 else |Payload(o.value)|
  {
    PayloadBack(o.value);
    assert ObjectBytes(w, o)[3] == SizeByte(w, o.value) && ObjectBytes(v, o)[3] == SizeByte(v, o.value);
  }

  /** The parts from the i-th on, one after the other. */
  function Join(parts: seq<seq<byte>>, i: nat): seq<byte>
    requires i <= |parts|
    decreases |parts| - i
  {
    if i == |parts| then [] else parts[i] + Join(parts, i + 1)
  }

  function Parts(w: Writer, objects: seq<Object>): (parts: seq<seq<byte>>)
    requires forall k :: 0 <= k < |objects| ==> WellFormed(objects[k])
    ensures |parts| == |objects| && forall k :: 0 <= k < |objects| ==> parts[k] == ObjectBytes(w, objects[k])
  {
    seq(|objects|, k requires 0 <= k < |objects| => ObjectBytes(w, objects[k]))
  }

  /** Whether the writer writes the object at all: the Python table misspells the name of the last type, and its writer
      goes by the name. */
  predicate Writes(w: Writer, o: Object) {
    w.PythonClient? ==> o.otype != ETHERNET_PROFILE
  }

  // ---- The readers

  /** The data type byte says how far to go on; one that is not known leaves the last step as it was. */
  function CppStep(dataType: byte, size: byte, last: nat): nat {
    match dataType
    case 1 => 5
    case 2 => 6
    case 3 => 8
    case 4 => 12
    case 5 => 8
    case 6 => size + 4
    case 7 => size + 4
    case _ => last
  }

  function Prepend(o: Object, rest: Option<seq<Object>>): Option<seq<Object>> {
    if rest.Some? then Some([o] + rest.value) else None
  }

  /** How many bytes the reader takes as the value. */
  function Extent(shape: Shape, size: nat): nat {
    if shape.OfText? then size else FixedWidth(shape)
  }

  /** What a reader finds at the start of an object: an unknown type, a value that runs past the end, or an object and
      the bytes its value takes. */
  datatype Met = Unknown | PastEnd | Known(o: Object, n: nat)

  function Meet(b: seq<byte>, at: nat): Met
    requires at + 4 <= |b|
  {
    var otype := FromNet16(b[at..at + 2]);
    match ShapeOf(otype)
    case None => Unknown
    case Some(shape) =>
      var n := Extent(shape, b[at + 3]);
      if at + 4 + n > |b| then PastEnd else Known(Object(otype, ValueOf(shape, b[at + 4..at + 4 + n])), n)
  }

  /** The object types whose value the agent does not look at. */
  const MULTI_PART: set<nat> := {21, 22}

  function MeetBut(ignored: set<nat>, b: seq<byte>, at: nat): Met
    requires at + 4 <= |b|
  {
    if FromNet16(b[at..at + 2]) in ignored then Unknown else Meet(b, at)
  }

  /** The agent and the C++ library: by data type. `None` is a read past the end. */
  function CppObjects(ignored: set<nat>, b: seq<byte>, at: nat, last: nat, count: nat): Option<seq<Object>>
    decreases count
  {
    if count == 0 then Some([])
    else if at + 4 > |b| then None
    else
      var step := CppStep(b[at + 2], b[at + 3], last);
      match MeetBut(ignored, b, at)
      case PastEnd => None
      case Unknown => CppObjects(ignored, b, at + step, step, count - 1)
      case Known(o, _) => Prepend(o, CppObjects(ignored, b, at + step, step, count - 1))
  }

  /** The Java library: by object type, with the counter and the size of a string as signed bytes. `None` is an
      exception. */
  function JavaObjects(b: seq<byte>, at: nat, count: nat): Option<seq<Object>>
    decreases count
  {
    if count == 0 then Some([])
    else if at + 4 > |b| then None
    else
      match Meet(b, at)
      case PastEnd => None
      case Unknown => JavaObjects(b, at + 4, count - 1)
      case Known(o, n) => if n >= 0x80 then None else Prepend(o, JavaObjects(b, at + 4 + n, count - 1))
  }

  /** The Python client: by its own table, as long as three bytes are left after the next. An unknown type is passed
      over alone. */
  function PythonObjects(b: seq<byte>, at: nat, count: nat): Option<seq<Object>>
    decreases |b| - at
  {
    if at + 3 >= |b| || count == 0 then Some([])
    else
      match Meet(b, at)
      case PastEnd => None
      case Unknown => PythonObjects(b, at + 2, count)
      case Known(o, n) => Prepend(o, PythonObjects(b, at + 4 + n, count - 1))
  }

  // ---- What all of them recover

  lemma ObjectThere(w: Writer, o: Object, b: seq<byte>, at: nat)
    requires WellFormed(o) && o.otype < 0x1_0000 && |Payload(o.value)| < 0x100 && LiesAt(b, at, ObjectBytes(w, o))
    ensures at + 4 + |Payload(o.value)| <= |b| && |ObjectBytes(w, o)| == 4 + |Payload(o.value)|
    ensures FromNet16(b[at..at + 2]) == o.otype
    ensures b[at + 2] == DataType(ShapeOfValue(o.value)) && b[at + 3] == SizeByte(w, o.value)
    ensures b[at + 4..at + 4 + |Payload(o.value)|] == Payload(o.value)
  {
    var head, mid, payload := Net16(o.otype), [DataType(ShapeOfValue(o.value)), SizeByte(w, o.value)], Payload(o.value);
    assert ObjectBytes(w, o) == head + (mid + payload);
    PartsLie(b, at, head, mid + payload);
    PartsLie(b, at + 2, mid, payload);
    Net16RoundTrip(o.otype);
    assert b[at + 2..at + 4][0] == mid[0] && b[at + 2..at + 4][1] == mid[1];
  }

  /** Every reader takes the same bytes for the value, whoever wrote it. */
  lemma ObjectMet(w: Writer, o: Object, b: seq<byte>, at: nat)
    requires WellFormed(o) && o.otype < 0x1_0000 && |Payload(o.value)| < 0x100 && LiesAt(b, at, ObjectBytes(w, o))
    ensures at + 4 <= |b| && Meet(b, at) == Known(o, |Payload(o.value)|)
  {
    ObjectThere(w, o, b, at);
    PayloadBack(o.value);
  }

  lemma CppStepRight(w: Writer, v: Value, last: nat)
    requires |Payload(v)| < 0x100
    ensures CppStep(DataType(ShapeOfValue(v)), SizeByte(w, v), last) == 4 + |Payload(v)|
  {
    PayloadBack(v);
  }

  predicate Sendable(objects: seq<Object>) {
    forall k :: 0 <= k < |objects| ==> WellFormed(objects[k]) && |Payload(objects[k].value)| < 0x100
  }

  lemma TypeFits(o: Object)
    requires WellFormed(o)
    ensures 1 <= o.otype <= LAST_TYPE
  {
  }

  predicate Meets(b: seq<byte>, at: nat, o: Object, n: nat) {
    at + 4 <= |b| && Meet(b, at) == Known(o, n)
  }

  /** From `at` on, the objects from the i-th on, one after the other, each with its data type known. */
  predicate Laid(b: seq<byte>, at: nat, objects: seq<Object>, widths: seq<nat>, i: nat)
    requires i <= |objects| == |widths|
    decreases |objects| - i
  {
    i == |objects| || (
      && Meets(b, at, objects[i], widths[i]) && b[at + 2] in {1, 2, 3, 5, 6}
      && CppStep(b[at + 2], b[at + 3], 0) == 4 + widths[i]
      && Laid(b, at + 4 + widths[i], objects, widths, i + 1))
  }

  function Widths(objects: seq<Object>): (widths: seq<nat>)
    ensures |widths| == |objects| && forall k :: 0 <= k < |objects| ==> widths[k] == |Payload(objects[k].value)|
  {
    seq(|objects|, k requires 0 <= k < |objects| => |Payload(objects[k].value)|)
  }

  ghost predicate FitsAt(part: seq<byte>, o: Object, n: nat, b: seq<byte>, at: nat) {
    LiesAt(b, at, part) ==>
      |part| == 4 + n && Meets(b, at, o, n) && b[at + 2] in {1, 2, 3, 5, 6} && CppStep(b[at + 2], b[at + 3], 0) == 4 + n
  }

  /** Wherever the part lies, a reader meets the object. */
  ghost predicate Fits(part: seq<byte>, o: Object, n: nat) {
    forall b, at: nat :: FitsAt(part, o, n, b, at)
  }

  lemma ObjectFits(w: Writer, o: Object)
    requires WellFormed(o) && |Payload(o.value)| < 0x100
    ensures Fits(ObjectBytes(w, o), o, |Payload(o.value)|)
  {
    forall b, at: nat
      ensures FitsAt(ObjectBytes(w, o), o, |Payload(o.value)|, b, at)
    {
      if LiesAt(b, at, ObjectBytes(w, o)) {
        TypeFits(o);
        ObjectThere(w, o, b, at);
        ObjectMet(w, o, b, at);
        CppStepRight(w, o.value, 0);
      }
    }
  }

  lemma {:induction false} PartsLaid(parts: seq<seq<byte>>, objects: seq<Object>, widths: seq<nat>, i: nat,
      b: seq<byte>, at: nat)
    requires i <= |objects| == |widths| == |parts| && LiesAt(b, at, Join(parts, i))
    requires forall k :: 0 <= k < |parts| ==> Fits(parts[k], objects[k], widths[k])
    ensures Laid(b, at, objects, widths, i)
    decreases |objects| - i
  {
    if i < |objects| {
      PartsLie(b, at, parts[i], Join(parts, i + 1));
      assert FitsAt(parts[i], objects[i], widths[i], b, at);
      PartsLaid(parts, objects, widths, i + 1, b, at + 4 + widths[i]);
    }
  }

  lemma CppTurn(ignored: set<nat>, b: seq<byte>, at: nat, last: nat, count: nat, o: Object, n: nat)
    requires count > 0 && Meets(b, at, o, n) && CppStep(b[at + 2], b[at + 3], last) == 4 + n
    ensures var rest := CppObjects(ignored, b, at + (4 + n), 4 + n, count - 1);
      CppObjects(ignored, b, at, last, count) == if o.otype in ignored then rest else Prepend(o, rest)
  {
  }

  lemma JavaTurn(b: seq<byte>, at: nat, count: nat, o: Object, n: nat)
    requires count > 0 && Meets(b, at, o, n) && n < 0x80
    ensures JavaObjects(b, at, count) == Prepend(o, JavaObjects(b, at + 4 + n, count - 1))
  {
  }

  lemma PythonTurn(b: seq<byte>, at: nat, count: nat, o: Object, n: nat)
    requires count > 0 && Meets(b, at, o, n)
    ensures PythonObjects(b, at, count) == Prepend(o, PythonObjects(b, at + 4 + n, count - 1))
  {
  }

  lemma Split(objects: seq<Object>, i: nat)
    requires i < |objects|
    ensures Some(objects[i..]) == Prepend(objects[i], Some(objects[i + 1..]))
  {
    assert objects[i..] == [objects[i]] + objects[i + 1..];
  }

  /** The objects of the other types, in order. */
  function Without(ignored: set<nat>, objects: seq<Object>): seq<Object> {
    if objects == [] then []
    else (if objects[0].otype in ignored then [] else [objects[0]]) + Without(ignored, objects[1..])
  }

  lemma {:induction false} WithoutNone(objects: seq<Object>)
    ensures Without({}, objects) == objects
  {
    if objects != [] {
      WithoutNone(objects[1..]);
      assert objects == [objects[0]] + objects[1..];
    }
  }

  lemma {:induction false} CppRecovers(ignored: set<nat>, b: seq<byte>, at: nat, objects: seq<Object>, widths: seq<nat>,
      i: nat, last: nat)
    requires i <= |objects| == |widths| && Laid(b, at, objects, widths, i)
    ensures CppObjects(ignored, b, at, last, |objects| - i) == Some(Without(ignored, objects[i..]))
    decreases |objects| - i
  {
    if i < |objects| {
      CppTurn(ignored, b, at, last, |objects| - i, objects[i], widths[i]);
      CppRecovers(ignored, b, at + (4 + widths[i]), objects, widths, i + 1, 4 + widths[i]);
      assert objects[i..][1..] == objects[i + 1..];
      assert [] + Without(ignored, objects[i + 1..]) == Without(ignored, objects[i + 1..]);
    } else {
      assert objects[i..] == [];
    }
  }

  predicate AllShort(widths: seq<nat>) {
    forall k :: 0 <= k < |widths| ==> widths[k] < 0x80
  }

  lemma {:induction false} JavaRecovers(b: seq<byte>, at: nat, objects: seq<Object>, widths: seq<nat>, i: nat)
    requires i <= |objects| == |widths| && Laid(b, at, objects, widths, i) && AllShort(widths)
    ensures JavaObjects(b, at, |objects| - i) == Some(objects[i..])
    decreases |objects| - i
  {
    if i == |objects| {
      assert objects[i..] == [];
    } else {
      var o, n, left := objects[i], widths[i], |objects| - (i + 1);
      JavaTurn(b, at, left + 1, o, n);
      JavaRecovers(b, at + 4 + n, objects, widths, i + 1);
      Split(objects, i);
    }
  }

  lemma {:induction false} PythonRecovers(b: seq<byte>, at: nat, objects: seq<Object>, widths: seq<nat>, i: nat)
    requires i <= |objects| == |widths| && Laid(b, at, objects, widths, i)
    ensures PythonObjects(b, at, |objects| - i) == Some(objects[i..])
    decreases |objects| - i
  {
    hide Meets;
    if i < |objects| {
      PythonTurn(b, at, |objects| - i, objects[i], widths[i]);
      PythonRecovers(b, at + 4 + widths[i], objects, widths, i + 1);
      Split(objects, i);
    } else {
      assert objects[i..] == [];
    }
  }

  // ---- Whole messages

  datatype Header = Header(id: u16, mtype: byte, command: byte)

  /** The count is one byte: it wraps, but Python raises an exception instead. */
  predicate Packs(w: Writer, count: nat) {
    w.PythonClient? ==> count < 0x100
  }

  /** The whole packet. */
  function Packet(w: Writer, h: Header, objects: seq<Object>): seq<byte>
    requires Sendable(objects) && Packs(w, |objects|)
  {
    Net16(h.id) + [h.mtype, h.command, |objects| % 0x100] + Join(Parts(w, objects), 0)
  }

  datatype Reader = AgentReader | LibraryReader | JavaReader | PythonReader

  /** The objects whose value a reader takes; what the agent and the C++ library then make of it is in `MgmtStore`. A
      negative count is none for Java. */
  function Read(r: Reader, b: seq<byte>): Option<seq<Object>>
    requires |b| >= 5
  {
    match r
    case AgentReader => CppObjects(MULTI_PART, b, 5, 5, b[4])
    case LibraryReader => CppObjects({}, b, 5, 5, b[4])
    case JavaReader => JavaObjects(b, 5, if b[4] < 0x80 then b[4] else 0)
    case PythonReader => PythonObjects(b, 5, b[4])
  }

  /** What the reader looks at of the objects sent to it: the agent passes over the numbers of a message in parts. */
  /** What a reader takes for the id, the type and the command; Java's are signed. */
  datatype Head = Head(id: int, mtype: int, command: int)

  function Heading(r: Reader, b: seq<byte>): Head
    requires |b| >= 5
  {
    if r.JavaReader? then Head(Signed(FromNet16(b[..2]), 0x8000), Signed(b[2], 0x80), Signed(b[3], 0x80))
    else Head(FromNet16(b[..2]), b[2], b[3])
  }

  /** The number that the same bits spell in a signed type with this sign bit. */
  function Signed(n: nat, sign: nat): int {
    if n < sign then n else n - 2 * sign
  }

  function Seen(r: Reader, objects: seq<Object>): seq<Object> {
    if r.AgentReader? then Without(MULTI_PART, objects) else objects
  }

  /** What Java's signed bytes leave room for. */
  predicate Small(r: Reader, objects: seq<Object>) {
    if r.JavaReader? then |objects| < 0x80 && forall k :: 0 <= k < |objects| ==> |Payload(objects[k].value)| < 0x80
    else |objects| < 0x100
  }

  lemma PacketParts(w: Writer, h: Header, objects: seq<Object>)
    requires Sendable(objects) && Packs(w, |objects|)
    ensures var b := Packet(w, h, objects);
      |b| >= 5 && b[4] == |objects| % 0x100 && LiesAt(b, 5, Join(Parts(w, objects), 0))
  {
  }

  /** Every reader finds the id, the type and the command that were written, but for Java, which finds them exactly when
      none of them has its top bit set. */
  lemma HeadingBack(w: Writer, r: Reader, h: Header, objects: seq<Object>)
    requires Sendable(objects) && Packs(w, |objects|)
    ensures |Packet(w, h, objects)| >= 5
    ensures Heading(r, Packet(w, h, objects)) == Head(h.id, h.mtype, h.command)
      <==> (r.JavaReader? ==> h.id < 0x8000 && h.mtype < 0x80 && h.command < 0x80)
  {
    var b := Packet(w, h, objects);
    assert b[..2] == Net16(h.id) && b[2] == h.mtype && b[3] == h.command;
    Net16RoundTrip(h.id);
  }

  lemma AllFit(w: Writer, objects: seq<Object>)
    requires Sendable(objects)
    ensures forall k :: 0 <= k < |objects| ==> Fits(Parts(w, objects)[k], objects[k], Widths(objects)[k])
  {
    forall k | 0 <= k < |objects|
      ensures Fits(Parts(w, objects)[k], objects[k], Widths(objects)[k])
    {
      ObjectFits(w, objects[k]);
    }
  }

  lemma {:induction false} LaidRead(r: Reader, b: seq<byte>, objects: seq<Object>, widths: seq<nat>)
    requires |b| >= 5 && |objects| == |widths| && b[4] == |objects| && Laid(b, 5, objects, widths, 0)
    requires r.JavaReader? ==> |objects| < 0x80 && AllShort(widths)
    ensures Read(r, b) == Some(Seen(r, objects))
  {
    assert objects[0..] == objects;
    if r.AgentReader? {
      CppRecovers(MULTI_PART, b, 5, objects, widths, 0, 5);
    } else if r.LibraryReader? {
      CppRecovers({}, b, 5, objects, widths, 0, 5);
      WithoutNone(objects);
    } else if r.JavaReader? {
      JavaRecovers(b, 5, objects, widths, 0);
    } else {
      PythonRecovers(b, 5, objects, widths, 0);
    }
  }

  /** Whichever of the four wrote it, every reader finds the same objects with the same values, in order; the agent
      takes the values of all but the numbers of a message in parts. */
  lemma Interoperates(w: Writer, r: Reader, h: Header, objects: seq<Object>)
    requires Sendable(objects) && Small(r, objects) && forall k :: 0 <= k < |objects| ==> Writes(w, objects[k])
    ensures |Packet(w, h, objects)| >= 5 && Read(r, Packet(w, h, objects)) == Some(Seen(r, objects))
  {
    hide Packet, Parts, Read, Widths, Laid;
    PacketParts(w, h, objects);
    AllFit(w, objects);
    PartsLaid(Parts(w, objects), objects, Widths(objects), 0, Packet(w, h, objects), 5);
    LaidRead(r, Packet(w, h, objects), objects, Widths(objects));
  }

  lemma {:induction false} LaidPrefix(b: seq<byte>, at: nat, objects: seq<Object>, widths: seq<nat>, i: nat, n: nat)
    requires i <= n <= |objects| == |widths| && Laid(b, at, objects, widths, i)
    ensures Laid(b, at, objects[..n], widths[..n], i)
    decreases n - i
  {
    if i < n { LaidPrefix(b, at + 4 + widths[i], objects, widths, i + 1, n); }
  }

  /** With more objects than the count byte can say, the readers take as many as it says. */
  lemma CutShort(w: Writer, r: Reader, h: Header, objects: seq<Object>)
    requires Sendable(objects) && Packs(w, |objects|) && !r.JavaReader?
    ensures |Packet(w, h, objects)| >= 5
    ensures Read(r, Packet(w, h, objects)) == Some(Seen(r, objects[..|objects| % 0x100]))
  {
    var b, n := Packet(w, h, objects), |objects| % 0x100;
    PacketParts(w, h, objects);
    AllFit(w, objects);
    PartsLaid(Parts(w, objects), objects, Widths(objects), 0, b, 5);
    LaidPrefix(b, 5, objects, Widths(objects), 0, n);
    LaidRead(r, b, objects[..n], Widths(objects)[..n]);
  }

  /** The Java library already reads nothing at all of 128 objects or more, where the others still read everything. */
  lemma JavaCountWraps(w: Writer, h: Header, objects: seq<Object>)
    requires Sendable(objects) && 0x80 <= |objects| < 0x100
    ensures |Packet(w, h, objects)| >= 5 && Read(JavaReader, Packet(w, h, objects)) == Some([])
  {
    PacketParts(w, h, objects);
  }
}
