/** The packet as an object: `get_data` grows `packet_data` piece by piece and patches one length afterwards, and
    `parse_data` walks it with a cursor, adding to the configuration as it goes. `junk` is what the stack held when the
    float at an offset of the packet was written. */
module RsvpPackets {
  import opened Binary32
  import opened Bytes
  import opened Parameters
  import opened Configuration
  import opened WireFormats
  import opened ObjectList
  import opened ObjectFormats
  import opened ObjectRoundTrips
  import opened ObjectRecovery
  import opened ObjectFidelity
  import opened MessagePieces
  import opened RsvpMessage
  import opened FloatSigns

  const ERROR_BUF_2_SMALL: int := -14

  lemma Regroup(a: seq<byte>, b: seq<byte>, c: seq<byte>)
    ensures a + b + c == a + (b + c)
  {
  }

  /** Patching the two length bytes of an object that starts at `at`. */
  lemma Patched(before: seq<byte>, size: u16, rest: seq<byte>, body: seq<byte>)
    ensures before + Net16(size) + (rest + body) == before + (Net16(size) + rest + body)
  {
  }

  /** Writes without floats append the same whatever the stack held. */
  lemma {:induction false} FloatlessEmission(writes: seq<Write>, i: nat, conf: Store, at: nat, junk: Stack)
    requires i <= |writes| && AllReadable(writes, conf) && NoFloats(writes)
    ensures EmittedAs(writes, i, conf, at, junk) == EmittedFrom(writes, i, conf)
    decreases |writes| - i
  {
    if i < |writes| {
      assert Readable(writes[i], conf);
      FloatlessEmission(writes, i + 1, conf, at + WidthOf(writes[i]), junk);
    }
  }

  lemma EmittedTurn(writes: seq<Write>, i: nat, conf: Store, at: nat, junk: Stack)
    requires i < |writes| && AllReadable(writes, conf)
    ensures Readable(writes[i], conf)
    ensures EmittedAs(writes, i, conf, at, junk)
      == WrittenAs(writes[i], conf, junk(at)) + EmittedAs(writes, i + 1, conf, at + WidthOf(writes[i]), junk)
  {
  }

  lemma EmittedNone(writes: seq<Write>, conf: Store, at: nat, junk: Stack)
    requires AllReadable(writes, conf)
    ensures EmittedAs(writes, |writes|, conf, at, junk) == []
  {
  }

  lemma EroObject(conf: Store, list: seq<ObjectClass>, at: nat, junk: Stack)
    requires Writable(Ero, conf, list)
    ensures HopsStored(conf) && AllReadable(EroWrites(conf[RC_ERO]), conf)
    ensures ObjectBytesAs(Ero, conf, list, at, junk)
            == ObjHeader(8 * |conf[RC_ERO]|, 20, 1) + Emission(EroWrites(conf[RC_ERO]), conf)
  {
    FloatlessEmission(EroWrites(conf[RC_ERO]), 0, conf, at + 4, junk);
  }

  lemma UniObject(conf: Store, list: seq<ObjectClass>, at: nat, junk: Stack)
    requires Writable(GeneralizedUni, conf, list)
    ensures AllReadable(UniWrites(list), conf)
    ensures ObjectBytesAs(GeneralizedUni, conf, list, at, junk)
            == ObjHeader(|Emission(UniWrites(list), conf)|, 229, 1) + Emission(UniWrites(list), conf)
  {
    UniFloatless(list);
    FloatlessEmission(UniWrites(list), 0, conf, at + 4, junk);
    EmittedWidth(UniWrites(list), 0, conf);
  }

  lemma SilentObject(c: ObjectClass, conf: Store, list: seq<ObjectClass>, at: nat, junk: Stack)
    requires Silent(c) && Writable(c, conf, list)
    ensures ObjectBytesAs(c, conf, list, at, junk) == []
  {
  }

  lemma StraightObject(c: ObjectClass, conf: Store, list: seq<ObjectClass>, at: nat, junk: Stack)
    requires !Silent(c) && !c.GeneralizedUni? && Writable(c, conf, list)
    ensures Writable(c, conf, [])
    ensures ObjectBytesAs(c, conf, list, at, junk) == ObjectBytesAs(c, conf, [], at, junk)
  {
    ListUnused(c, conf, list);
  }

  class RsvpPacket {
    var packetData: seq<byte>
    var configuration: Store
    const objects: ObjectArray

    constructor (conf: Store)
      ensures fresh(objects) && fresh(objects.objects) && objects.Valid() && objects.list == []
      ensures packetData == [] && configuration == conf
    {
      packetData := [];
      configuration := conf;
      objects := new ObjectArray();
    }

    method AddShort(value: u16)
      modifies this`packetData
      ensures packetData == old(packetData) + Net16(value)
    {
      packetData := packetData + Net16(value);
    }

    method AddChar(value: byte)
      modifies this`packetData
      ensures packetData == old(packetData) + [value]
    {
      packetData := packetData + [value];
    }

    method AddVoid(bytes: seq<byte>)
      modifies this`packetData
      ensures packetData == old(packetData) + bytes
    {
      packetData := packetData + bytes;
    }

    method AddObjHeader(size: nat, cnum: byte, ctnum: byte)
      modifies this`packetData
      ensures packetData == old(packetData) + ObjHeader(size, cnum, ctnum)
    {
      AddShort((size + 4) % 0x1_0000);
      AddChar(cnum);
      AddChar(ctnum);
    }

    /** `set_short`, inside the packet. */
    method SetShort(value: u16, offset: nat)
      requires offset + 2 <= |packetData|
      modifies this`packetData
      ensures packetData == old(packetData)[..offset] + Net16(value) + old(packetData)[offset + 2..]
    {
      packetData := packetData[..offset] + Net16(value) + packetData[offset + 2..];
    }

    /** `add_float`. */
    method AddFloat(value: Float, junk: Stack)
      requires Standard(value)
      modifies this`packetData
      ensures packetData == old(packetData) + FloatBytes(FloatLeft(value, junk(|old(packetData)|)))
    {
      var data := Net32(INFINITY_BITS);
      if !value.Infinity? {
        data := WriteIeeeFloat(value, junk(|packetData|));
      }
      AddVoid(data);
    }

    method AddWrite(w: Write, junk: Stack)
      requires Readable(w, configuration)
      modifies this`packetData
      ensures packetData == old(packetData) + WrittenAs(w, configuration, junk(|old(packetData)|))
    {
      if w.Put? && w.w.FloatC? {
        AddFloat(configuration[w.p][0].f, junk);
      } else {
        AddVoid(Written(w, configuration));
      }
    }

    method AddNext(writes: seq<Write>, i: nat, junk: Stack, ghost goal: seq<byte>)
      requires i < |writes| && AllReadable(writes, configuration)
      requires packetData + EmittedAs(writes, i, configuration, |packetData|, junk) == goal
      modifies this`packetData
      ensures packetData + EmittedAs(writes, i + 1, configuration, |packetData|, junk) == goal
    {
      hide EmittedAs, WrittenAs, AllReadable, WidthFrom, WidthOf;
      EmittedTurn(writes, i, configuration, |packetData|, junk);
      Regroup(packetData, WrittenAs(writes[i], configuration, junk(|packetData|)),
        EmittedAs(writes, i + 1, configuration, |packetData| + WidthOf(writes[i]), junk));
      AddWrite(writes[i], junk);
    }

    /** A straight-line `add_` routine. */
    method RunWrites(writes: seq<Write>, junk: Stack)
      requires AllReadable(writes, configuration)
      modifies this`packetData
      ensures packetData == old(packetData) + EmittedAs(writes, 0, configuration, |old(packetData)|, junk)
    {
      hide EmittedAs, AllReadable;
      ghost var goal := packetData + EmittedAs(writes, 0, configuration, |packetData|, junk);
      for i := 0 to |writes|
        invariant packetData + EmittedAs(writes, i, configuration, |packetData|, junk) == goal
      {
        AddNext(writes, i, junk, goal);
      }
      EmittedNone(writes, configuration, |packetData|, junk);
    }

    method HopPresent(t: nat) returns (present: bool)
      requires RC_ERO in configuration
      ensures present <==> t < |configuration[RC_ERO]|
    {
      present := PresentAt(configuration, TypeOf(RC_ERO), RC_ERO, t);
    }

    /** The first loop of `add_20_1_0_0`. */
    method CountHops() returns (t: nat)
      requires RC_ERO in configuration
      ensures t == |configuration[RC_ERO]|
    {
      t := 0;
      var present := HopPresent(t);
      while present
        invariant t <= |configuration[RC_ERO]|
        invariant present <==> t < |configuration[RC_ERO]|
        decreases |configuration[RC_ERO]| - t
      {
        t := t + 1;
        present := HopPresent(t);
      }
    }

    /** Its second loop. */
    method AddHops(ghost writes: seq<Write>)
      requires HopsStored(configuration) && writes == EroWrites(configuration[RC_ERO])
      requires AllReadable(writes, configuration)
      modifies this`packetData
      ensures packetData == old(packetData) + Emission(writes, configuration)
    {
      var t := 0;
      var present := HopPresent(t);
      while present
        invariant t <= |writes| == |configuration[RC_ERO]|
        invariant present <==> t < |writes|
        invariant packetData + EmittedFrom(writes, t, configuration)
          == old(packetData) + Emission(writes, configuration)
        decreases |writes| - t
      {
        ghost var before := packetData;
        AddHop(configuration[RC_ERO][t]);
        Regroup(before, HopBytes(configuration[RC_ERO][t]), EmittedFrom(writes, t + 1, configuration));
        t := t + 1;
        present := HopPresent(t);
      }
    }

    /** `add_20_1_0_0`: count the hops, then write them. */
    method AddEro()
      requires HopsStored(configuration) && AllReadable(EroWrites(configuration[RC_ERO]), configuration)
      modifies this`packetData
      ensures packetData == old(packetData) + ObjHeader(8 * |configuration[RC_ERO]|, 20, 1)
        + Emission(EroWrites(configuration[RC_ERO]), configuration)
    {
      var n := CountHops();
      AddObjHeader(n * 8, 20, 1);
      AddHops(EroWrites(configuration[RC_ERO]));
    }

    method AddHop(hop: Value)
      requires hop.Block? && |hop.bytes| == ERO_SIZE
      modifies this`packetData
      ensures packetData == old(packetData) + HopBytes(hop)
    {
      if hop.bytes[5] == 1 {
        AddChar(0x81);
      } else {
        AddChar(0x01);
      }
      AddChar(8);
      AddVoid(hop.bytes[..4]);
      AddChar(hop.bytes[4]);
      AddChar(0);
    }

    /** `add_229_1_0_0`: a header of unknown length, the subobjects found in the object list, and the length put in
        place. */
    method AddUni(junk: Stack)
      requires objects.Valid() && AllReadable(UniWrites(objects.list), configuration)
      modifies this`packetData
      ensures packetData == old(packetData) + ObjHeader(|Emission(UniWrites(objects.list), configuration)|, 229, 1)
                            + Emission(UniWrites(objects.list), configuration)
    {
      hide UniWrites, Emission, AllReadable;
      ghost var before := packetData;
      var lenPos := |packetData|;
      AddObjHeader(0, 229, 1);
      AddSubobjects(junk);
      SetShort((|packetData| - lenPos) % 0x1_0000, lenPos);
      ghost var body := Emission(UniWrites(objects.list), configuration);
      Patched(before, (|body| + 4) % 0x1_0000, [229, 1], body);
    }

    /** One turn of its loop. */
    method AddSubobject(c: ObjectClass, junk: Stack)
      requires AllReadable(SubWrites(c), configuration)
      modifies this`packetData
      ensures packetData == old(packetData) + Emission(SubWrites(c), configuration)
    {
      FloatlessEmission(SubWrites(c), 0, configuration, |packetData|, junk);
      RunWrites(SubWrites(c), junk);
    }

    method AddSubobjects(junk: Stack)
      requires objects.Valid() && AllReadable(UniWrites(objects.list), configuration)
      modifies this`packetData
      ensures packetData == old(packetData) + Emission(UniWrites(objects.list), configuration)
    {
      var t := 0;
      assert objects.list[0..] == objects.list;
      assert Emission(UniWrites([]), configuration) == [];
      hide UniWrites, SubWrites, Emission, AllReadable;
      while t < MAX_OBJECTS && objects.objects[t].Stored?
        invariant t <= |objects.list| && objects.Valid()
        invariant AllReadable(UniWrites(objects.list[t..]), configuration)
        invariant packetData + Emission(UniWrites(objects.list[t..]), configuration)
          == old(packetData) + Emission(UniWrites(objects.list), configuration)
        decreases MAX_OBJECTS - t
      {
        SubobjectStep(objects.list, t, configuration);
        ghost var before := packetData;
        AddSubobject(objects.objects[t].cls, junk);
        Regroup(before, Emission(SubWrites(objects.list[t]), configuration),
          Emission(UniWrites(objects.list[t + 1..]), configuration));
        t := t + 1;
      }
      assert objects.list[t..] == [];
    }

    /** The case of `get_data` for an object. */
    method AddOne(c: ObjectClass, junk: Stack)
      requires objects.Valid() && Writable(c, configuration, objects.list)
      modifies this`packetData
      ensures packetData == old(packetData) + ObjectBytesAs(c, configuration, objects.list, |old(packetData)|, junk)
    {
      hide ObjectBytesAs, Writable, EroWrites, UniWrites, AllReadable, HopsStored;
      ghost var before := packetData;
      if Silent(c) {
        SilentObject(c, configuration, objects.list, |before|, junk);
      } else if c.Ero? {
        EroObject(configuration, objects.list, |before|, junk);
        AddEro();
        Regroup(before, ObjHeader(8 * |configuration[RC_ERO]|, 20, 1),
          Emission(EroWrites(configuration[RC_ERO]), configuration));
      } else if c.GeneralizedUni? {
        UniObject(configuration, objects.list, |before|, junk);
        AddUni(junk);
        ghost var body := Emission(UniWrites(objects.list), configuration);
        Regroup(before, ObjHeader(|body|, 229, 1), body);
      } else {
        StraightObject(c, configuration, objects.list, |before|, junk);
        AddStraight(c, junk);
      }
    }

    method AddStraight(c: ObjectClass, junk: Stack)
      requires !Silent(c) && !c.GeneralizedUni? && Writable(c, configuration, [])
      modifies this`packetData
      ensures packetData == old(packetData) + ObjectBytesAs(c, configuration, [], |old(packetData)|, junk)
    {
      ghost var before := packetData;
      var size, writes := DeclaredSize(c, configuration, []), WritesOf(c, configuration, []);
      AddObjHeader(size, NumbersOf(c).cnum, NumbersOf(c).ctnum);
      RunWrites(writes, junk);
      Regroup(before, ObjHeader(size, NumbersOf(c).cnum, NumbersOf(c).ctnum),
        EmittedAs(writes, 0, configuration, |before| + 4, junk));
    }

    /** The t-th entry of the array holds an object. */
    method HasObject(t: nat) returns (has: bool)
      requires objects.Valid() && t <= |objects.list|
      ensures has <==> t < |objects.list|
    {
      has := t < MAX_OBJECTS && objects.objects[t].Stored?;
    }

    /** One turn of the loop of `get_data`. */
    method AddStored(t: nat, junk: Stack)
      requires objects.Valid() && t < |objects.list| && CanWrite(objects.list, configuration)
      requires packetData == MessageAs(objects.list, configuration, t, junk)
      modifies this`packetData
      ensures packetData == MessageAs(objects.list, configuration, t + 1, junk)
    {
      MessageStep(objects.list, configuration, t, junk);
      AddOne(objects.objects[t].cls, junk);
    }

    /** The loop of `get_data`. */
    method AddStoredObjects(junk: Stack)
      requires objects.Valid() && CanWrite(objects.list, configuration) && packetData == []
      modifies this`packetData
      ensures packetData == MessageAs(objects.list, configuration, |objects.list|, junk)
    {
      var t := 0;
      assert MessageAs(objects.list, configuration, 0, junk) == [];
      hide MessageAs, CanWrite;
      var more := HasObject(t);
      while more
        invariant t <= |objects.list| && objects.Valid() && (more <==> t < |objects.list|)
        invariant packetData == MessageAs(objects.list, configuration, t, junk)
        decreases |objects.list| - t
      {
        AddStored(t, junk);
        t := t + 1;
        more := HasObject(t);
      }
    }

    /** `get_data`. */
    method GetData(size: int, junk: Stack) returns (code: int, buffer: seq<byte>)
      requires objects.Valid() && CanWrite(objects.list, configuration)
      modifies this`packetData
      ensures packetData == MessageAs(objects.list, configuration, |objects.list|, junk)
      ensures code == if size < |packetData| then ERROR_BUF_2_SMALL else |packetData|
      ensures code >= 0 ==> buffer == packetData
    {
      packetData := [];
      AddStoredObjects(junk);
      buffer := [];
      if size < |packetData| {
        return ERROR_BUF_2_SMALL, buffer;
      }
      return |packetData|, packetData;
    }

    // ---- Parsing

    /** One call of `configuration->add`. */
    method Add(p: Param, v: Value) returns (code: int)
      modifies this`configuration
      ensures Change(code, configuration) == AddTo(old(configuration), TypeOf(p), p, v)
    {
      var change := AddTo(configuration, TypeOf(p), p, v);
      configuration := change.store;
      code := change.code;
    }

    method ReadNext(get: Read, at: nat) returns (step: Step)
      modifies this`configuration
      ensures step == ReadOne(get, packetData, at, old(configuration))
      ensures configuration == if step.Beyond? then old(configuration) else step.store
    {
      if at + ReadWidth(get) > |packetData| {
        return Beyond;
      }
      var code := 0;
      match get {
        case Skip(_) =>
        case Get(r, p) => code := Add(p, Decode(r, packetData[at..at + Width(r)]));
        case Took(_, p, v) => code := Add(p, v);
      }
      step := if code != 0 then Stop(configuration) else Next(configuration, at + ReadWidth(get));
    }

    /** A straight-line `parse_` routine: the cursor moves on until an addition is refused. */
    method RunReadsFrom(gets: seq<Read>, offset: nat) returns (step: Step)
      modifies this`configuration
      ensures step == RunReads(gets, 0, packetData, offset, old(configuration))
      ensures !step.Beyond? ==> configuration == step.store
    {
      step := Next(configuration, offset);
      for i := 0 to |gets|
        invariant step.Next? && step.store == configuration
        invariant RunReads(gets, 0, packetData, offset, old(configuration))
          == RunReads(gets, i, packetData, step.at, configuration)
      {
        step := ReadNext(gets[i], step.at);
        if !step.Next? {
          return;
        }
      }
    }

    method ParseRoute(offset: nat, size: int) returns (result: Parse)
      modifies this`configuration
      ensures result == ParseEro(packetData, offset, offset + size, old(configuration))
      ensures result.Parsed? ==> configuration == result.store
    {
      var at := offset;
      while at < offset + size
        invariant ParseEro(packetData, offset, offset + size, old(configuration))
          == ParseEro(packetData, at, offset + size, configuration)
        decreases |packetData| - at
      {
        if at + 2 > |packetData| {
          return Overrun;
        }
        if packetData[at] % 0x80 == 1 && packetData[at + 1] == 8 {
          if at + 7 > |packetData| {
            return Overrun;
          }
          var code := Add(RC_ERO, HopValue(packetData, at));
          if code != 0 {
            return Parsed(configuration);
          }
          if at + 8 > |packetData| {
            return Overrun;
          }
          at := at + 8;
        } else {
          if packetData[at + 1] == 0 {
            return Endless;
          }
          at := at + packetData[at + 1];
        }
      }
      result := Parsed(configuration);
    }

    method ParseInterfaces(offset: nat, size: int) returns (result: Parse)
      modifies this`configuration
      ensures result == ParseHop(packetData, offset, size, old(configuration))
      ensures result.Parsed? ==> configuration == result.store
    {
      var step := RunReadsFrom(ReadsOf(3, 1, packetData, offset, size), offset);
      if !step.Next? {
        return Finish(step);
      }
      result := ParseTlvsFrom(step.at, offset + size);
    }

    method ParseTlvsFrom(start: nat, end: int) returns (result: Parse)
      modifies this`configuration
      ensures result == ParseTlvs(packetData, start, end, old(configuration))
      ensures result.Parsed? ==> configuration == result.store
    {
      var at := start;
      while at < end
        invariant ParseTlvs(packetData, start, end, old(configuration)) == ParseTlvs(packetData, at, end, configuration)
        decreases |packetData| - at
      {
        if at + 4 > |packetData| {
          return Overrun;
        }
        var kind, length := FromNet16(packetData[at..at + 2]), FromNet16(packetData[at + 2..at + 4]);
        var step := RunReadsFrom(TlvReads(kind, length), at + 4);
        if !step.Next? {
          return Finish(step);
        }
        at := step.at;
      }
      result := Parsed(configuration);
    }

    method ParseSubobjects(offset: nat, size: int) returns (result: Parse)
      modifies this`configuration
      ensures result == ParseUni(packetData, offset, offset + size, old(configuration))
      ensures result.Parsed? ==> configuration == result.store
    {
      var at, end := offset, offset + size;
      ghost var whole := ParseUni(packetData, offset, end, configuration);
      while at < end
        invariant whole == ParseUni(packetData, at, end, configuration)
        decreases |packetData| - at
      {
        var next;
        result, next := ParseSubobject(at, end);
        if next == at {
          return;
        }
        at := next;
      }
      result := Parsed(configuration);
    }

    method ParseSubobject(at: nat, end: int) returns (result: Parse, next: nat)
      requires at < end
      modifies this`configuration
      ensures next == at ==> result == ParseUni(packetData, at, end, old(configuration))
      ensures next == at && result.Parsed? ==> configuration == result.store
      ensures next != at ==> next > at && at < |packetData|
      ensures next != at ==>
        ParseUni(packetData, at, end, old(configuration)) == ParseUni(packetData, next, end, configuration)
    {
      if at + 4 > |packetData| {
        return Overrun, at;
      }
      var length := FromNet16(packetData[at..at + 2]);
      var gets := SubReads(packetData[at + 2], packetData[at + 3]);
      var step := RunReadsFrom(gets, at + 4);
      if !step.Next? {
        return Finish(step), at;
      }
      if length == 0 {
        return if gets == [] then Endless else Parsed(configuration), at;
      }
      result, next := Parsed(configuration), at + length;
    }

    method ParseScopes(offset: nat, size: int) returns (result: Parse)
      modifies this`configuration
      ensures result == ParseScope(packetData, offset, offset + size, old(configuration))
      ensures result.Parsed? ==> configuration == result.store
    {
      var at := offset;
      while at < offset + size
        invariant ParseScope(packetData, offset, offset + size, old(configuration))
          == ParseScope(packetData, at, offset + size, configuration)
        decreases |packetData| - at
      {
        var step := ReadNext(Get(AddrC, RC_SCOPE_ADDR), at);
        if !step.Next? {
          return Finish(step);
        }
        at := step.at;
      }
      result := Parsed(configuration);
    }

    /** The `switch` of `parse_data`. */
    method ParseOne(oc: byte, oct: byte, offset: nat, size: int) returns (result: Parse)
      modifies this`configuration
      ensures result == ParseBody(oc, oct, packetData, offset, size, old(configuration))
      ensures result.Parsed? ==> configuration == result.store
    {
      if oc == 3 && oct == 3 {
        result := ParseInterfaces(offset, size);
      } else if oc == 7 && oct == 1 {
        result := ParseScopes(offset, size);
      } else if oc == 20 && oct == 1 {
        result := ParseRoute(offset, size);
      } else if oc == 229 && oct == 1 {
        result := ParseSubobjects(offset, size);
      } else {
        var step := RunReadsFrom(ReadsOf(oc, oct, packetData, offset, size), offset);
        result := Finish(step);
      }
    }

    method ParseWith(ghost parse: BodyParser, oc: byte, oct: byte, at: nat, size: int) returns (result: Parse)
      requires at <= |packetData| && ParsesBodies(parse)
      modifies this`configuration
      ensures result == parse(oc, oct, packetData, at, size, old(configuration))
      ensures result.Parsed? ==> configuration == result.store
    {
      assert SameParse(parse, oc, oct, packetData, at, size, configuration);
      result := ParseOne(oc, oct, at, size);
    }

    /** One turn of the loop of `parse_data`: where the cursor goes next, unless the loop ends here. */
    method ParseTurn(ghost parse: BodyParser, at: nat) returns (result: Parse, next: nat)
      requires at < |packetData| && ParsesBodies(parse)
      modifies this`configuration
      ensures next == at ==> !result.Parsed? && result == ParseObjects(parse, packetData, at, old(configuration))
      ensures next != at ==> next > at && result.Parsed?
      ensures next != at ==>
        ParseObjects(parse, packetData, at, old(configuration)) == ParseObjects(parse, packetData, next, configuration)
    {
      if at + 4 > |packetData| {
        return Overrun, at;
      }
      ghost var conf := configuration;
      var length: nat := FromNet16(packetData[at..at + 2]);
      result := ParseWith(parse, packetData[at + 2], packetData[at + 3], at + 4, length - 4);
      TurnTaken(parse, packetData, at, conf, length, result);
      if !result.Parsed? {
        return result, at;
      }
      if length == 0 {
        return Endless, at;
      }
      next := at + length;
    }

    /** `parse_data`, into a new configuration. */
    method ParsePacket(buffer: seq<byte>) returns (result: Parse)
      modifies this`packetData, this`configuration
      ensures packetData == buffer
      ensures result == ParseData(buffer, map[])
      ensures result.Parsed? ==> configuration == result.store
    {
      BodiesParsed();
      configuration := map[];
      packetData := buffer;
      var at := 0;
      while at < |packetData|
        invariant packetData == buffer
        invariant ParseObjects(ParseBody, buffer, 0, map[]) == ParseObjects(ParseBody, buffer, at, configuration)
        decreases |packetData| - at
      {
        var next;
        result, next := ParseTurn(ParseBody, at);
        if next == at {
          return;
        }
        at := next;
      }
      result := Parsed(configuration);
    }
  }

  ghost predicate SameParse(parse: BodyParser, oc: byte, oct: byte, packet: seq<byte>, at: nat, size: int,
      conf: Store) {
    parse(oc, oct, packet, at, size, conf) == ParseBody(oc, oct, packet, at, size, conf)
  }

  /** The parser the loop is proved for: it does what `ParseBody` does. */
  ghost predicate ParsesBodies(parse: BodyParser) {
    forall oc, oct, packet, at: nat, size, conf :: SameParse(parse, oc, oct, packet, at, size, conf)
  }

  lemma BodiesParsed()
    ensures ParsesBodies(ParseBody)
  {
  }

  lemma SubobjectStep(list: seq<ObjectClass>, t: nat, conf: Store)
    requires t < |list| && AllReadable(UniWrites(list[t..]), conf)
    ensures AllReadable(SubWrites(list[t]), conf) && AllReadable(UniWrites(list[t + 1..]), conf)
    ensures Emission(UniWrites(list[t..]), conf)
      == Emission(SubWrites(list[t]), conf) + Emission(UniWrites(list[t + 1..]), conf)
  {
    assert list[t..][1..] == list[t + 1..] && list[t..][0] == list[t];
    UniReadable(list[t..], conf);
    EmissionConcat(SubWrites(list[t]), UniWrites(list[t + 1..]), 0, conf);
  }
}
