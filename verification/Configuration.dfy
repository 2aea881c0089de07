/** The typed parameter store of `rsvp_configuration.cpp`: 256 slots, each a scalar or a NULL-terminated
    array, and the map from parameters to value lists that it refines. */
module Configuration {
  import opened Bytes
  import opened Parameters

  const ERROR_INC_PAR: int := -1
  const ERROR_VAL_NOT_PRES: int := -4
  const ERROR_VAL_PRES: int := -5
  const ERROR_DIFF_VOID_SIZE: int := -18

  /** What a configuration means: the values of each parameter that is present. */
  type Store = map<Param, seq<Value>>

  datatype Change = Change(code: int, store: Store)

  /** Blocks in one table share one recorded size. */
  predicate SizeFits(values: seq<Value>, v: Value) {
    v.Block? ==> values == [] || SizeOf(values[0]) == |v.bytes|
  }

  function ValuesIn(m: Store, p: Param): seq<Value> {
    if p in m then m[p] else []
  }

  /** A scalar answers for every index. */
  predicate PresentAt(m: Store, ty: ParamType, p: Param, index: nat) {
    p in m && (ty.Table? ==> index < |m[p]|)
  }

  function AddTo(m: Store, ty: ParamType, p: Param, v: Value): Change {
    if ty.Untyped? || ty.kind != KindOf(v) then Change(ERROR_INC_PAR, m)
    else if ty.Scalar? then
      if p in m then Change(ERROR_VAL_PRES, m) else Change(0, m[p := [v]])
    else if !SizeFits(ValuesIn(m, p), v) then Change(ERROR_DIFF_VOID_SIZE, m)
    else Change(0, m[p := ValuesIn(m, p) + [v]])
  }

  /** Whether `set` finds something to overwrite. */
  predicate Settable(m: Store, ty: ParamType, p: Param, v: Value, index: nat) {
    && !ty.Untyped? && ty.kind == KindOf(v) && p in m
    && (ty.Table? ==> index < |m[p]| && SizeFits(m[p], v))
  }

  /** What `set` returns. A table that has been emptied still has its array, with a recorded size of zero. */
  function SetCode(m: Store, ty: ParamType, p: Param, v: Value, index: nat, absent: bool): int {
    if ty.Untyped? || ty.kind != KindOf(v) then ERROR_INC_PAR
    else if absent then ERROR_VAL_NOT_PRES
    else if ty.Table? && v.Block? && (p in m ==> !SizeFits(m[p], v)) then ERROR_DIFF_VOID_SIZE
    else if ty.Table? && index >= |ValuesIn(m, p)| then ERROR_VAL_NOT_PRES
    else 0
  }

  function SetIn(m: Store, ty: ParamType, p: Param, v: Value, index: nat): Store {
    if !Settable(m, ty, p, v, index) then m
    else if ty.Scalar? then m[p := [v]]
    else m[p := m[p][index := v]]
  }

  function SetAddTo(m: Store, ty: ParamType, p: Param, v: Value, index: nat): Store {
    if Settable(m, ty, p, v, index) then SetIn(m, ty, p, v, index) else AddTo(m, ty, p, v).store
  }

  function RemoveFrom(m: Store, ty: ParamType, p: Param, index: nat): Change {
    if !ty.Table? then Change(0, m - {p})
    else if index >= |ValuesIn(m, p)| then Change(ERROR_VAL_NOT_PRES, m)
    else
      var rest := m[p][..index] + m[p][index + 1..];
      Change(0, if rest == [] then m - {p} else m[p := rest])
  }

  /** What each code of `add` tells: a wrong type, a scalar that has a value, a block of another size, or that the value
      now ends the list. A refusal changes nothing. */
  lemma AddCodes(m: Store, ty: ParamType, p: Param, v: Value)
    requires ty.Scalar? && p in m ==> |m[p]| == 1
    ensures var c := AddTo(m, ty, p, v);
      && (c.code == -1 <==> ty.Untyped? || ty.kind != KindOf(v))
      && (c.code == -5 <==> ty.Scalar? && ty.kind == KindOf(v) && p in m)
      && (c.code == -18 <==> ty.Table? && ty.kind == KindOf(v) && !SizeFits(ValuesIn(m, p), v))
      && (c.code == 0 <==> c.store != m) && (c.code != 0 ==> c.code in {-1, -5, -18})
      && (c.code == 0 ==> ValuesIn(c.store, p) == ValuesIn(m, p) + [v] && c.store - {p} == m - {p})
  {
    var c := AddTo(m, ty, p, v);
    if c.code == 0 { assert |ValuesIn(c.store, p)| == |ValuesIn(m, p)| + 1; }
  }

  /** What each code of `set` tells: `absent` is whether the slot has no value, or no table, at all. */
  lemma SetCodes(m: Store, ty: ParamType, p: Param, v: Value, index: nat, absent: bool)
    requires absent ==> p !in m
    requires ty.Scalar? && p !in m ==> absent
    ensures var code := SetCode(m, ty, p, v, index, absent);
      && (code == -1 <==> ty.Untyped? || ty.kind != KindOf(v))
      && (code == 0 <==> Settable(m, ty, p, v, index))
      && (code == -18 <==> ty.Table? && ty.kind == KindOf(v) && !absent && v.Block? && (p in m ==> !SizeFits(m[p], v)))
      && (code !in {0, -1, -18} ==> code == -4)
      && SetIn(m, ty, p, v, index)
        == if code != 0 then m else if ty.Scalar? then m[p := [v]] else m[p := m[p][index := v]]
  {
  }

  // ---- The representation

  datatype Cell = Nil | Ptr(value: Value)

  datatype Slot = Null | One(value: Value) | Cells(cells: seq<Cell>)

  predicate Terminated(cells: seq<Cell>) {
    && |cells| > 0
    && cells[|cells| - 1].Nil?
    && forall i :: 0 <= i < |cells| - 1 ==> cells[i].Ptr?
  }

  /** The values before the terminator. */
  function Values(cells: seq<Cell>): (s: seq<Value>)
    requires Terminated(cells)
    ensures |s| == |cells| - 1
    ensures forall i :: 0 <= i < |s| ==> s[i] == cells[i].value
  {
    seq(|cells| - 1, i requires 0 <= i < |cells| - 1 => cells[i].value)
  }

  predicate SlotOk(ty: ParamType, slot: Slot, voidSize: nat) {
    match slot
    case Null => voidSize == 0
    case One(v) => ty.Scalar? && ty.kind == KindOf(v) && voidSize == SizeOf(v)
    case Cells(cells) =>
      && ty.Table? && Terminated(cells)
      && (forall i :: 0 <= i < |cells| - 1 ==> KindOf(cells[i].value) == ty.kind && SizeOf(cells[i].value) == voidSize)
      && (|cells| == 1 ==> voidSize == 0)
      && (|cells| > 1 && ty.kind == VS ==> voidSize > 0)
  }

  function SlotValues(ty: ParamType, slot: Slot, voidSize: nat): seq<Value>
    requires SlotOk(ty, slot, voidSize)
  {
    match slot
    case Null => []
    case One(v) => [v]
    case Cells(cells) => Values(cells)
  }

  predicate SlotsOk(types: seq<ParamType>, slots: seq<Slot>, sizes: seq<nat>) {
    && |types| == |slots| == |sizes| == 256
    && forall p :: 0 <= p < 256 ==> SlotOk(types[p], slots[p], sizes[p])
  }

  ghost function StoreOf(types: seq<ParamType>, slots: seq<Slot>, sizes: seq<nat>): (m: Store)
    requires SlotsOk(types, slots, sizes)
  {
    map p: Param | SlotValues(types[p], slots[p], sizes[p]) != [] :: SlotValues(types[p], slots[p], sizes[p])
  }

  ghost function Updated(m: Store, p: Param, values: seq<Value>): Store {
    if values == [] then m - {p} else m[p := values]
  }

  lemma StoreAt(types: seq<ParamType>, slots: seq<Slot>, sizes: seq<nat>, p: Param)
    requires SlotsOk(types, slots, sizes)
    ensures ValuesIn(StoreOf(types, slots, sizes), p) == SlotValues(types[p], slots[p], sizes[p])
    ensures p in StoreOf(types, slots, sizes) <==> SlotValues(types[p], slots[p], sizes[p]) != []
  {
  }

  /** What every store a configuration holds looks like. */
  predicate Shaped(values: seq<Value>, ty: ParamType) {
    && values != [] && !ty.Untyped?
    && (ty.Scalar? ==> |values| == 1)
    && (forall i :: 0 <= i < |values| ==> KindOf(values[i]) == ty.kind)
    && (ty.Table? && ty.kind == VS ==> forall i :: 0 <= i < |values| ==> SizeOf(values[i]) == SizeOf(values[0]) > 0)
  }

  lemma StoreShape(types: seq<ParamType>, slots: seq<Slot>, sizes: seq<nat>, p: Param)
    requires SlotsOk(types, slots, sizes)
    ensures p in StoreOf(types, slots, sizes) ==> Shaped(StoreOf(types, slots, sizes)[p], types[p])
  {
    StoreAt(types, slots, sizes, p);
    assert SlotOk(types[p], slots[p], sizes[p]);
  }

  lemma RemoveStep(m: Store, ty: ParamType, p: Param)
    requires p in m && Shaped(m[p], ty)
    ensures RemoveFrom(m, ty, p, 0).store - {p} == m - {p}
    ensures |ValuesIn(RemoveFrom(m, ty, p, 0).store, p)| < |m[p]|
  {
  }

  lemma CopyStep(before: Store, source: seq<Value>, ty: ParamType, p: Param, t: nat)
    requires p !in before && ty.Table? && Shaped(source, ty) && t < |source|
    ensures AddTo(Updated(before, p, source[..t]), ty, p, source[t]) == Change(0, Updated(before, p, source[..t + 1]))
  {
    assert source[..t + 1] == source[..t] + [source[t]];
  }

  lemma SlotUpdate(types: seq<ParamType>, slots: seq<Slot>, sizes: seq<nat>, p: Param, slot: Slot, size: nat)
    requires SlotsOk(types, slots, sizes) && SlotOk(types[p], slot, size)
    ensures SlotsOk(types, slots[p := slot], sizes[p := size])
    ensures StoreOf(types, slots[p := slot], sizes[p := size])
            == Updated(StoreOf(types, slots, sizes), p, SlotValues(types[p], slot, size))
  {
    var a := StoreOf(types, slots[p := slot], sizes[p := size]);
    var b := Updated(StoreOf(types, slots, sizes), p, SlotValues(types[p], slot, size));
    forall q: Param
      ensures q in a <==> q in b
      ensures q in a ==> a[q] == b[q]
    {
      StoreAt(types, slots, sizes, q);
      StoreAt(types, slots[p := slot], sizes[p := size], q);
    }
  }

  /** The loop that closes the gap a removed cell leaves, and the `realloc` after it. */
  method ShiftDown(cells: seq<Cell>, index: nat) returns (vals: seq<Cell>)
    requires Terminated(cells) && index < |cells| - 1
    ensures Terminated(vals) && |vals| == |cells| - 1
    ensures Values(vals) == Values(cells)[..index] + Values(cells)[index + 1..]
    ensures forall i :: 0 <= i < |vals| - 1 ==> vals[i] in cells
  {
    vals := cells;
    var t := index;
    while vals[t].Ptr?
      invariant index <= t <= |vals| - 1 && |vals| == |cells|
      invariant forall i :: 0 <= i < |vals| ==> vals[i] == cells[if index <= i < t then i + 1 else i]
      decreases |cells| - t
    {
      vals := vals[t := vals[t + 1]];
      t := t + 1;
    }
    vals := vals[..t];
  }

  /** The loop of `add` over a table: find the terminator, and put the value in its place. */
  method Appended(cells: seq<Cell>, v: Value) returns (vals: seq<Cell>)
    requires Terminated(cells)
    ensures Terminated(vals) && Values(vals) == Values(cells) + [v]
  {
    vals := cells;
    var t := 0;
    while vals[t].Ptr?
      invariant t <= |vals| - 1
      decreases |vals| - t
    {
      t := t + 1;
    }
    vals := vals[t := Ptr(v)] + [Nil];
    assert Values(vals) == Values(cells) + [v];
  }

  class RsvpConfiguration {
    const types: seq<ParamType>
    const data: array<Slot>
    const voidSize: array<nat>

    ghost var contents: Store

    ghost predicate Valid()
      reads this, data, voidSize
    {
      && data.Length == 256 && voidSize.Length == 256
      && SlotsOk(types, data[..], voidSize[..])
      && contents == StoreOf(types, data[..], voidSize[..])
    }

    constructor ()
      ensures Valid() && fresh(data) && fresh(voidSize)
      ensures contents == map[]
      ensures |types| == 256 && forall p: Param :: types[p] == TypeOf(p)
    {
      types := seq(256, p requires 0 <= p < 256 => TypeOf(p));
      data := new Slot[256](p => Null);
      voidSize := new nat[256](p => 0);
      contents := map[];
      new;
      assert forall p: Param :: data[..][p] == Null;
    }

    lemma Shape(p: Param)
      requires Valid()
      ensures p in contents ==> Shaped(contents[p], types[p])
    {
      StoreShape(types, data[..], voidSize[..], p);
    }

    /** One slot rewritten. */
    method Put(p: Param, slot: Slot, size: nat)
      requires Valid() && SlotOk(types[p], slot, size)
      modifies this, data, voidSize
      ensures Valid() && contents == Updated(old(contents), p, SlotValues(types[p], slot, size))
      ensures data[p] == slot && voidSize[p] == size
    {
      ghost var slots, sizes := data[..], voidSize[..];
      SlotUpdate(types, slots, sizes, p, slot, size);
      data[p] := slot;
      voidSize[p] := size;
      assert data[..] == slots[p := slot] && voidSize[..] == sizes[p := size];
      contents := StoreOf(types, data[..], voidSize[..]);
    }

    method IsPresent(p: Param, index: nat := 0) returns (present: bool)
      requires Valid()
      ensures present <==> PresentAt(contents, types[p], p, index)
    {
      StoreAt(types, data[..], voidSize[..], p);
      match data[p]
      case Null =>
        present := false;
      case One(_) =>
        present := true;
      case Cells(vals) =>
        var t := 0;
        while t < index && vals[t].Ptr?
          invariant t <= index && t <= |vals| - 1
        {
          t := t + 1;
        }
        present := t == index && vals[t].Ptr?;
    }

    method Read(p: Param, index: nat := 0) returns (value: Value)
      requires Valid() && index < |ValuesIn(contents, p)|
      ensures value == contents[p][index]
    {
      StoreAt(types, data[..], voidSize[..], p);
      value := match data[p] case One(v) => v case Cells(vals) => vals[index].value;
    }

    method Add(p: Param, v: Value) returns (code: int)
      requires Valid()
      requires v.Block? && types[p].Table? ==> |v.bytes| > 0
      modifies this, data, voidSize
      ensures Valid()
      ensures var change := AddTo(old(contents), types[p], p, v);
        code == change.code && contents == change.store
    {
      StoreAt(types, data[..], voidSize[..], p);
      hide StoreOf;
      if types[p].Untyped? || types[p].kind != KindOf(v) {
        return ERROR_INC_PAR;
      }
      if !types[p].Table? {
        if data[p] != Null {
          return ERROR_VAL_PRES;
        }
        Put(p, One(v), SizeOf(v));
      } else {
        if v.Block? && voidSize[p] != 0 && voidSize[p] != |v.bytes| {
          return ERROR_DIFF_VOID_SIZE;
        }
        var vals := Appended(if data[p].Null? then [Nil] else data[p].cells, v);
        Put(p, Cells(vals), SizeOf(v));
      }
      code := 0;
    }

    method Set(p: Param, v: Value, index: nat := 0) returns (code: int)
      requires Valid()
      requires v.Block? && types[p].Table? ==> |v.bytes| > 0
      modifies this, data, voidSize
      ensures Valid()
      ensures code == 0 <==> Settable(old(contents), types[p], p, v, index)
      ensures contents == SetIn(old(contents), types[p], p, v, index)
      ensures code == SetCode(old(contents), types[p], p, v, index, old(data[p]).Null?)
    {
      StoreAt(types, data[..], voidSize[..], p);
      if types[p].Untyped? || types[p].kind != KindOf(v) {
        return ERROR_INC_PAR;
      }
      if data[p] == Null {
        return ERROR_VAL_NOT_PRES;
      }
      if !types[p].Table? {
        Put(p, One(v), SizeOf(v));
      } else {
        if v.Block? && voidSize[p] != |v.bytes| {
          return ERROR_DIFF_VOID_SIZE;
        }
        var vals := data[p].cells;
        var t := 0;
        while vals[t].Ptr? && t < index
          invariant t <= |vals| - 1 && t <= index
        {
          t := t + 1;
        }
        if !vals[t].Ptr? || t != index {
          return ERROR_VAL_NOT_PRES;
        }
        ghost var before := Values(vals);
        vals := vals[t := Ptr(v)];
        assert Values(vals) == before[index := v];
        Put(p, Cells(vals), SizeOf(v));
      }
      code := 0;
    }

    /** `setadd` returns nothing defined when `set` succeeds, and no caller looks. */
    method SetAdd(p: Param, v: Value, index: nat := 0)
      requires Valid()
      requires v.Block? && types[p].Table? ==> |v.bytes| > 0
      modifies this, data, voidSize
      ensures Valid()
      ensures contents == SetAddTo(old(contents), types[p], p, v, index)
    {
      var code := Set(p, v, index);
      if code != 0 {
        code := Add(p, v);
      }
    }

    method Remove(p: Param, index: nat := 0) returns (code: int)
      requires Valid()
      modifies this, data, voidSize
      ensures Valid()
      ensures var change := RemoveFrom(old(contents), types[p], p, index);
        code == change.code && contents == change.store
    {
      StoreAt(types, data[..], voidSize[..], p);
      if !types[p].Table? {
        Put(p, Null, 0);
        return 0;
      }
      if data[p] == Null {
        return ERROR_VAL_NOT_PRES;
      }
      var vals := data[p].cells;
      var t := 0;
      while t < index && vals[t].Ptr?
        invariant t <= index && t <= |vals| - 1
      {
        t := t + 1;
      }
      if t < index || vals[t].Nil? {
        return ERROR_VAL_NOT_PRES;
      }
      vals := ShiftDown(vals, index);
      Put(p, Cells(vals), if |vals| == 1 then 0 else voidSize[p]);
      code := 0;
    }

    /** A second configuration with the same declared types and no slot in common. */
    ghost predicate Separate(conf: RsvpConfiguration)
      reads this, data, voidSize, conf, conf.data, conf.voidSize
    {
      this != conf && Valid() && conf.Valid() && types == conf.types && data != conf.data && voidSize != conf.voidSize
    }

    /** The loop of `copy_from` that empties the target; it ends because each turn drops one value. */
    method Clear(p: Param)
      requires Valid()
      modifies this, data, voidSize
      ensures Valid() && contents == old(contents) - {p}
    {
      ghost var before := contents;
      var occupied := IsPresent(p);
      while occupied
        invariant Valid()
        invariant occupied <==> p in contents
        invariant contents - {p} == before - {p}
        decreases |ValuesIn(contents, p)|
      {
        Shape(p);
        RemoveStep(contents, types[p], p);
        var removed := Remove(p);
        Shape(p);
        occupied := IsPresent(p);
      }
      Shape(p);
      assert contents == contents - {p};
    }

    /** One turn of the loop below. */
    method CopyOne(p: Param, conf: RsvpConfiguration, t: nat)
      requires Separate(conf) && types[p].Table? && p in conf.contents && t < |conf.contents[p]|
      requires Shaped(conf.contents[p], types[p])
      modifies this, data, voidSize
      ensures Separate(conf) && conf.contents == old(conf.contents)
      ensures contents == AddTo(old(contents), types[p], p, conf.contents[p][t]).store
    {
      var v := conf.Read(p, t);
      var code := Add(p, v);
    }

    /** The loops of `copy_from` over a table. No size conflict is possible: emptying the target has reset its
        recorded size, and all blocks of the source have one size. */
    method CopyTable(p: Param, conf: RsvpConfiguration)
      requires Separate(conf) && types[p].Table?
      requires p !in contents && p in conf.contents
      modifies this, data, voidSize
      ensures Valid() && contents == old(contents)[p := conf.contents[p]]
    {
      ghost var before, source := contents, conf.contents[p];
      conf.Shape(p);
      var t := 0;
      var present := true;
      hide Updated, AddTo, Shaped, SlotsOk, StoreOf;
      while present
        invariant Separate(conf) && p in conf.contents && conf.contents[p] == source
        invariant t <= |source| && (present <==> t < |source|)
        invariant contents == Updated(before, p, source[..t])
        decreases |source| - t
      {
        CopyStep(before, source, types[p], p, t);
        CopyOne(p, conf, t);
        t := t + 1;
        present := conf.IsPresent(p, t);
      }
      assert source[..t] == source;
    }

    method CopyScalar(p: Param, conf: RsvpConfiguration)
      requires Separate(conf) && types[p].Scalar? && p !in contents
      requires p in conf.contents && Shaped(conf.contents[p], types[p])
      modifies this, data, voidSize
      ensures Valid() && contents == old(contents)[p := conf.contents[p]]
    {
      var v := conf.Read(p);
      var added := Add(p, v);
      assert conf.contents[p] == [v];
    }

    method CopyFrom(p: Param, conf: RsvpConfiguration) returns (code: int)
      requires Separate(conf)
      modifies this, data, voidSize
      ensures Valid()
      ensures p !in conf.contents ==> code == ERROR_VAL_NOT_PRES && contents == old(contents)
      ensures p in conf.contents ==> code == 0 && contents == old(contents)[p := conf.contents[p]]
    {
      conf.Shape(p);
      hide SlotsOk, StoreOf;
      var present := conf.IsPresent(p);
      if !present {
        return ERROR_VAL_NOT_PRES;
      }
      Clear(p);
      if !types[p].Table? {
        CopyScalar(p, conf);
      } else {
        CopyTable(p, conf);
      }
      code := 0;
    }

    /** `add_missing`: what is already there wins. */
    method AddMissing(conf: RsvpConfiguration) returns (code: int)
      requires Separate(conf)
      modifies this, data, voidSize
      ensures Valid() && code == 0 && contents == WithMissing(old(contents), conf.contents)
    {
      ghost var before, source := contents, conf.contents;
      assert Below(source, 0) + before == before;
      hide Below, SlotsOk, StoreOf;
      for t := 0 to 256
        invariant Separate(conf) && conf.contents == source
        invariant contents == Below(source, t) + before
      {
        conf.Shape(t);
        Shape(t);
        var here := IsPresent(t);
        var there := conf.IsPresent(t);
        if !here && there {
          var copied := CopyFrom(t, conf);
        }
        FillStep(before, source, t);
      }
      BelowAll(source);
      code := 0;
    }

    /** `update`: what is copied wins. */
    method Update(conf: RsvpConfiguration) returns (code: int)
      requires Separate(conf)
      modifies this, data, voidSize
      ensures Valid() && code == 0 && contents == UpdatedBy(old(contents), conf.contents)
    {
      ghost var before, source := contents, conf.contents;
      assert before + Below(source, 0) == before;
      hide Below, SlotsOk, StoreOf;
      for t := 0 to 256
        invariant Separate(conf) && conf.contents == source
        invariant contents == before + Below(source, t)
      {
        conf.Shape(t);
        var there := conf.IsPresent(t);
        if there {
          var copied := CopyFrom(t, conf);
        }
        OverwriteStep(before, source, t);
      }
      BelowAll(source);
      code := 0;
    }
  }

  ghost function Below(m: Store, t: nat): Store {
    map p | p in m && p < t :: m[p]
  }

  lemma BelowAll(m: Store)
    ensures Below(m, 256) == m && Below(m, 0) == map[]
  {
  }

  lemma FillStep(before: Store, source: Store, t: Param)
    ensures Below(source, t + 1) + before ==
            if t in before || t !in source then Below(source, t) + before
            else (Below(source, t) + before)[t := source[t]]
    ensures t in Below(source, t) + before <==> t in before
  {
  }

  lemma OverwriteStep(before: Store, source: Store, t: Param)
    ensures before + Below(source, t + 1) ==
            if t in source then (before + Below(source, t))[t := source[t]] else before + Below(source, t)
  {
  }

  // ---- What the operations promise each other

  /** `setadd` of a scalar takes effect exactly when the value has the declared type; a value of another type
      is dropped without a trace, as no caller looks at the result. */
  lemma SetAddTakesEffect(m: Store, ty: ParamType, p: Param, v: Value)
    requires !ty.Table? && (p in m ==> Shaped(m[p], ty))
    ensures SetAddTo(m, ty, p, v, 0) == m[p := [v]] <==> ty.Scalar? && ty.kind == KindOf(v)
    ensures !(ty.Scalar? && ty.kind == KindOf(v)) ==> SetAddTo(m, ty, p, v, 0) == m
  {
    if !(ty.Scalar? && ty.kind == KindOf(v)) {
      assert m[p := [v]][p][0] == v;
    }
  }

  /** Two of the defaults every connection sets are of this kind: the upstream label is declared an `unsigned int`
      but set as a block, and the ADMIN_STATUS flags are declared an `unsigned char` but set as an `unsigned int`. */
  lemma TwoDefaultsAreDropped(m: Store, bytes: seq<byte>)
    requires RC_UPSTREAM_LABEL in m ==> Shaped(m[RC_UPSTREAM_LABEL], TypeOf(RC_UPSTREAM_LABEL))
    requires RC_ADMIN_STATUS_RTAD_FLAGS in m
      ==> Shaped(m[RC_ADMIN_STATUS_RTAD_FLAGS], TypeOf(RC_ADMIN_STATUS_RTAD_FLAGS))
    ensures SetAddTo(m, TypeOf(RC_UPSTREAM_LABEL), RC_UPSTREAM_LABEL, Block(bytes), 0) == m
    ensures SetAddTo(m, TypeOf(RC_ADMIN_STATUS_RTAD_FLAGS), RC_ADMIN_STATUS_RTAD_FLAGS, Int(0), 0) == m
  {
    SetAddTakesEffect(m, TypeOf(RC_UPSTREAM_LABEL), RC_UPSTREAM_LABEL, Block(bytes));
    SetAddTakesEffect(m, TypeOf(RC_ADMIN_STATUS_RTAD_FLAGS), RC_ADMIN_STATUS_RTAD_FLAGS, Int(0));
  }

  /** A table addition is undone by removing the last element. */
  lemma RemoveUndoesAdd(m: Store, ty: ParamType, p: Param, v: Value)
    requires ty.Table? && (p in m ==> m[p] != []) && AddTo(m, ty, p, v).code == 0
    ensures RemoveFrom(AddTo(m, ty, p, v).store, ty, p, |ValuesIn(m, p)|) == Change(0, m)
  {
    var values := ValuesIn(m, p);
    var added := AddTo(m, ty, p, v).store;
    assert added[p][..|values|] + added[p][|values| + 1..] == values;
  }

  // ---- Merging

  /** `a.add_missing(b)`, as a map. */
  function WithMissing(a: Store, b: Store): Store {
    b + a
  }

  /** `a.update(b)`, as a map. */
  function UpdatedBy(a: Store, b: Store): Store {
    a + b
  }

  /** The two merges are one, seen from either side; each keeps what the winner has, and doing it again changes
      nothing. */
  lemma MergeLaws(a: Store, b: Store)
    ensures WithMissing(a, b) == UpdatedBy(b, a)
    ensures forall p :: p in a ==> WithMissing(a, b)[p] == a[p]
    ensures forall p :: p in b ==> UpdatedBy(a, b)[p] == b[p]
    ensures WithMissing(WithMissing(a, b), b) == WithMissing(a, b)
    ensures UpdatedBy(UpdatedBy(a, b), b) == UpdatedBy(a, b)
  {
    assert forall p :: p in WithMissing(a, b) <==> p in a || p in b;
  }
}
