/** Whether `add_object` lets in only what `get_data` can write. */
module ObjectSafety {
  import opened Bytes
  import opened Binary32
  import opened Parameters
  import opened Configuration
  import opened WireFormats
  import opened ObjectList
  import opened ObjectFormats
  import opened ObjectRoundTrips
  import opened ObjectRecovery

  /** Floats are zero, normal or infinite, and hops are of the size of `struct rc_ero`. */
  predicate Encodables(conf: Store) {
    && (forall p :: p in conf ==> forall i :: 0 <= i < |conf[p]| ==> Encodable(conf[p][i]))
    && (RC_ERO in conf ==> HopsStored(conf))
  }

  predicate PutTyped(w: Write) {
    w.Put? ==> TypeOf(w.p) == Scalar(KindFor(w.w))
  }

  lemma ReadableWhenPresent(w: Write, conf: Store)
    requires StoreTyped(conf) && Encodables(conf) && PutTyped(w)
    ensures Readable(w, conf) <==> (w.Put? ==> w.p in conf)
  {
    if w.Put? && w.p in conf { assert Shaped(conf[w.p], TypeOf(w.p)); }
  }

  predicate PutsTyped(writes: seq<Write>) {
    forall i :: 0 <= i < |writes| ==> PutTyped(writes[i])
  }

  predicate PutsPresent(writes: seq<Write>, conf: Store) {
    forall i :: 0 <= i < |writes| && writes[i].Put? ==> writes[i].p in conf
  }

  lemma AllReadableExactly(writes: seq<Write>, conf: Store)
    requires StoreTyped(conf) && Encodables(conf) && PutsTyped(writes)
    ensures AllReadable(writes, conf) <==> PutsPresent(writes, conf)
  {
    forall i | 0 <= i < |writes|
      ensures Readable(writes[i], conf) <==> (writes[i].Put? ==> writes[i].p in conf)
    {
      ReadableWhenPresent(writes[i], conf);
    }
  }

  lemma SessionInspectable(conf: Store)
    requires StoreTyped(conf) && RC_SESSION_NAME in conf && RC_LOCAL_PROTECTION_FLAG in conf
    requires RC_LABEL_RECORDING_FLAG in conf && RC_SE_STYLE_FLAG in conf
    ensures Inspectable(SessionAttribute, conf)
  {
    assert Shaped(conf[RC_SESSION_NAME], TypeOf(RC_SESSION_NAME));
    assert Shaped(conf[RC_LOCAL_PROTECTION_FLAG], TypeOf(RC_LOCAL_PROTECTION_FLAG));
    assert Shaped(conf[RC_LABEL_RECORDING_FLAG], TypeOf(RC_LABEL_RECORDING_FLAG));
    assert Shaped(conf[RC_SE_STYLE_FLAG], TypeOf(RC_SE_STYLE_FLAG));
  }

  lemma InspectableWhenAddable(c: ObjectClass, conf: Store)
    requires Addable(c, conf) && StoreTyped(conf) && Encodables(conf)
    ensures Inspectable(c, conf)
  {
    match c
    case GeneralizedLabel =>
      assert RC_LABEL in RequirementOf(c).params;
      assert Shaped(conf[RC_LABEL], TypeOf(RC_LABEL));
    case SessionAttribute =>
      SessionParameters(conf);
      SessionInspectable(conf);
    case Ero => assert RC_ERO in RequirementOf(c).params;
    case _ =>
  }

  lemma SessionParameters(conf: Store)
    requires Addable(SessionAttribute, conf)
    ensures RC_SESSION_NAME in conf && RC_LOCAL_PROTECTION_FLAG in conf && RC_LABEL_RECORDING_FLAG in conf
    ensures RC_SE_STYLE_FLAG in conf
  {
    var params := RequirementOf(SessionAttribute).params;
    assert params[0] in params && params[3] in params && params[4] in params && params[5] in params;
  }

  /** The three parameters ETHERNET_FLOWSPEC is written from that nothing requires of it: their requirements are
      registered under SONETSDH_FLOWSPEC. */
  predicate EthernetComplete(conf: Store) {
    RC_ETHERNET_SW_GRANUALITY in conf && RC_ETHERNET_INDEX in conf && RC_ETHERNET_PROFILE in conf
  }

  /** The parameters of a straight-line writer are among its requirements, or are tested for first. */
  predicate Covered(writes: seq<Write>, params: seq<Param>, conf: Store) {
    forall i :: 0 <= i < |writes| && writes[i].Put? ==> writes[i].p in params || writes[i].p in conf
  }

  lemma CoveredPresent(writes: seq<Write>, params: seq<Param>, conf: Store)
    requires Covered(writes, params, conf) && forall p :: p in params ==> p in conf
    ensures PutsPresent(writes, conf)
  {
  }

  lemma HeadingCovered(c: ObjectClass, conf: Store, list: seq<ObjectClass>)
    requires PartOf(c).Heading? && Straight(c) && !c.EthernetFlowspec? && Inspectable(c, conf)
    ensures Covered(WritesOf(c, conf, list), RequirementOf(c).params, conf)
  {
  }

  lemma HeadingPutsTyped(c: ObjectClass, conf: Store, list: seq<ObjectClass>)
    requires PartOf(c).Heading? && Straight(c) && Inspectable(c, conf)
    ensures PutsTyped(WritesOf(c, conf, list))
  {
  }

  lemma RequestCovered(c: ObjectClass, conf: Store, list: seq<ObjectClass>)
    requires PartOf(c).Request? && Straight(c) && !c.EthernetFlowspec? && Inspectable(c, conf)
    ensures Covered(WritesOf(c, conf, list), RequirementOf(c).params, conf)
  {
  }

  lemma RequestPutsTyped(c: ObjectClass, conf: Store, list: seq<ObjectClass>)
    requires PartOf(c).Request? && Straight(c) && Inspectable(c, conf)
    ensures PutsTyped(WritesOf(c, conf, list))
  {
  }

  lemma SenderCovered(c: ObjectClass, conf: Store, list: seq<ObjectClass>)
    requires PartOf(c).Sender? && Straight(c) && !c.EthernetFlowspec? && Inspectable(c, conf)
    ensures Covered(WritesOf(c, conf, list), RequirementOf(c).params, conf)
  {
  }

  lemma EthernetPutsTyped()
    ensures PutsTyped(ETHERNET_WRITES)
  {
  }

  lemma SonetsdhPutsTyped()
    ensures PutsTyped(SONETSDH_WRITES)
  {
  }

  lemma TokenPutsTyped(c: ObjectClass, conf: Store, list: seq<ObjectClass>)
    requires c.TokenSenderTspec? || c.TokenFlowspec?
    ensures PutsTyped(WritesOf(c, conf, list))
  {
  }

  lemma SenderPutsTyped(c: ObjectClass, conf: Store, list: seq<ObjectClass>)
    requires PartOf(c).Sender? && Straight(c) && Inspectable(c, conf)
    ensures PutsTyped(WritesOf(c, conf, list))
  {
    match c
    case EthernetSenderTspec => EthernetPutsTyped();
    case SonetsdhSenderTspec => SonetsdhPutsTyped();
    case TokenSenderTspec => TokenPutsTyped(c, conf, list);
    case _ =>
  }

  lemma ReservationCovered(c: ObjectClass, conf: Store, list: seq<ObjectClass>)
    requires PartOf(c).Reservation? && Straight(c) && !c.EthernetFlowspec? && Inspectable(c, conf)
    ensures Covered(WritesOf(c, conf, list), RequirementOf(c).params, conf)
  {
  }

  lemma ReservationPutsTyped(c: ObjectClass, conf: Store, list: seq<ObjectClass>)
    requires PartOf(c).Reservation? && Straight(c) && Inspectable(c, conf)
    ensures PutsTyped(WritesOf(c, conf, list))
  {
    match c
    case EthernetFlowspec => EthernetPutsTyped();
    case SonetsdhFlowspec => SonetsdhPutsTyped();
    case TokenFlowspec => TokenPutsTyped(c, conf, list);
    case _ =>
  }

  lemma StraightCovered(c: ObjectClass, conf: Store, list: seq<ObjectClass>)
    requires Straight(c) && !c.EthernetFlowspec? && Inspectable(c, conf)
    ensures Covered(WritesOf(c, conf, list), RequirementOf(c).params, conf)
  {
    if PartOf(c).Heading? {
      HeadingCovered(c, conf, list);
    } else if PartOf(c).Request? {
      RequestCovered(c, conf, list);
    } else if PartOf(c).Sender? {
      SenderCovered(c, conf, list);
    } else {
      ReservationCovered(c, conf, list);
    }
  }

  lemma StraightTyped(c: ObjectClass, conf: Store, list: seq<ObjectClass>)
    requires Straight(c) && Inspectable(c, conf)
    ensures PutsTyped(WritesOf(c, conf, list))
  {
    if PartOf(c).Heading? {
      HeadingPutsTyped(c, conf, list);
    } else if PartOf(c).Request? {
      RequestPutsTyped(c, conf, list);
    } else if PartOf(c).Sender? {
      SenderPutsTyped(c, conf, list);
    } else {
      ReservationPutsTyped(c, conf, list);
    }
  }

  lemma EthernetPresent(conf: Store)
    requires Addable(EthernetFlowspec, conf)
    ensures PutsPresent(ETHERNET_WRITES, conf) <==> EthernetComplete(conf)
  {
    var params := RequirementOf(EthernetFlowspec).params;
    assert params[0] in params && params[1] in params && params[2] in params && params[3] in params;
    assert ETHERNET_WRITES[0].Put? && ETHERNET_WRITES[2].Put? && ETHERNET_WRITES[3].Put?;
  }

  lemma StraightWritable(c: ObjectClass, conf: Store, list: seq<ObjectClass>)
    requires Straight(c) && Addable(c, conf) && StoreTyped(conf) && Encodables(conf)
    ensures Writable(c, conf, list) <==> (c.EthernetFlowspec? ==> EthernetComplete(conf))
  {
    InspectableWhenAddable(c, conf);
    StraightTyped(c, conf, list);
    AllReadableExactly(WritesOf(c, conf, list), conf);
    if c.EthernetFlowspec? {
      EthernetPresent(conf);
    } else if c.Style? {
    } else {
      StraightCovered(c, conf, list);
      NeedsAll(c);
      CoveredPresent(WritesOf(c, conf, list), RequirementOf(c).params, conf);
    }
  }

  lemma NeedsAll(c: ObjectClass)
    requires !c.Style? && !c.GeneralizedUni?
    ensures RequirementOf(c).All?
  {
  }

  lemma {:induction false} UniWritable(list: seq<ObjectClass>, conf: Store)
    requires StoreTyped(conf) && Encodables(conf) && forall i :: 0 <= i < |list| ==> Addable(list[i], conf)
    ensures AllReadable(UniWrites(list), conf)
  {
    if list != [] {
      UniWritable(list[1..], conf);
      SubWritable(list[0], conf);
    }
  }

  lemma SubWritable(c: ObjectClass, conf: Store)
    requires StoreTyped(conf) && Encodables(conf) && Addable(c, conf)
    ensures AllReadable(SubWrites(c), conf)
  {
    if SubWrites(c) != [] {
      var params := RequirementOf(c).params;
      assert params[0] in params;
      ReadableWhenPresent(SubWrites(c)[1], conf);
    }
  }

  /** Everything `add_object` accepts can be written, exactly when it is not a SCOPE, whose loop does not advance, and
      not an ETHERNET_FLOWSPEC without the three parameters nobody checks for it. */
  lemma AcceptedIsWritable(c: ObjectClass, conf: Store, list: seq<ObjectClass>)
    requires StoreTyped(conf) && Encodables(conf) && Addable(c, conf)
    requires forall i :: 0 <= i < |list| ==> Addable(list[i], conf)
    ensures Writable(c, conf, list) <==> !c.Scope? && (c.EthernetFlowspec? ==> EthernetComplete(conf))
  {
    if Straight(c) {
      StraightWritable(c, conf, list);
    } else if c.GeneralizedUni? {
      UniWritable(list, conf);
    } else {
      LiteralWritable(c, conf, list);
    }
  }

  lemma LiteralWritable(c: ObjectClass, conf: Store, list: seq<ObjectClass>)
    requires StoreTyped(conf) && Encodables(conf) && Addable(c, conf) && !Straight(c) && !c.GeneralizedUni?
    ensures Writable(c, conf, list) <==> !c.Scope?
  {
    hide StoreTyped, Encodables, Addable, Inspectable;
    InspectableWhenAddable(c, conf);
    LiteralReadable(c, conf, list);
  }

  lemma LiteralReadable(c: ObjectClass, conf: Store, list: seq<ObjectClass>)
    requires !Straight(c) && !c.GeneralizedUni? && Inspectable(c, conf)
    ensures AllReadable(WritesOf(c, conf, list), conf)
  {
  }

  // ---- The other way round

  predicate PutPresent(writes: seq<Write>, conf: Store, i: nat) {
    i < |writes| && writes[i].Put? ==> writes[i].p in conf
  }

  lemma NinePresent(writes: seq<Write>, conf: Store)
    requires AllReadable(writes, conf)
    ensures PutPresent(writes, conf, 0) && PutPresent(writes, conf, 1) && PutPresent(writes, conf, 2)
    ensures PutPresent(writes, conf, 3) && PutPresent(writes, conf, 4) && PutPresent(writes, conf, 5)
    ensures PutPresent(writes, conf, 6) && PutPresent(writes, conf, 7) && PutPresent(writes, conf, 8)
  {
    forall i: nat
      ensures PutPresent(writes, conf, i)
    {
      if i < |writes| { assert Readable(writes[i], conf); }
    }
  }

  /** What an object is asked for beyond what it is written from: a hop its control handle, a SONET/SDH flowspec the
      three parameters meant for the Ethernet one, and the objects that write nothing of their own their parameter. */
  predicate AskedFor(c: ObjectClass, conf: Store) {
    match c
    case Ipv4IfIdRsvpHop => RC_CONTROL_OUT_IF_HANDLE in conf && RC_DATA_OUT_IF_ADDR in conf
    case SonetsdhFlowspec => EthernetComplete(conf)
    case CallId0 => RC_CALL_ID in conf
    case MessageIdList => RC_SREFRESH_MESSAGE_ID in conf
    case GuSourceTnaAddress => RC_TNA_SRC_ADDR in conf
    case GuDestinationTnaAddress => RC_TNA_DST_ADDR in conf
    case GuServiceLevel => RC_SERVICE_LEVEL in conf
    case GeneralizedUni => RC_TNA_SRC_ADDR in conf || RC_TNA_DST_ADDR in conf || RC_SERVICE_LEVEL in conf
    case Style => RC_WILDCARD_FILTER in conf || RC_FIXED_FILTER in conf || RC_SHARED_EXPLICIT in conf
    case _ => true
  }

  lemma AnyOfThree(p: Param, q: Param, r: Param, conf: Store)
    ensures (exists x :: x in [p, q, r] && x in conf) <==> p in conf || q in conf || r in conf
  {
    assert p in [p, q, r] && q in [p, q, r] && r in [p, q, r];
  }

  /** Everything that can be written is accepted, exactly when what is asked for beyond it is there. */
  lemma WritableIsAccepted(c: ObjectClass, conf: Store, list: seq<ObjectClass>)
    requires Writable(c, conf, list)
    ensures Addable(c, conf) <==> AskedFor(c, conf)
  {
    NinePresent(WritesOf(c, conf, list), conf);
    match PartOf(c)
    case Heading => HeadingAccepted(c, conf, list);
    case Request => RequestAccepted(c, conf, list);
    case Sender => SenderAccepted(c, conf, list);
    case Reservation => ReservationAccepted(c, conf, list);
  }

  predicate AllPresent(writes: seq<Write>, conf: Store) {
    && PutPresent(writes, conf, 0) && PutPresent(writes, conf, 1) && PutPresent(writes, conf, 2)
    && PutPresent(writes, conf, 3) && PutPresent(writes, conf, 4) && PutPresent(writes, conf, 5)
    && PutPresent(writes, conf, 6) && PutPresent(writes, conf, 7) && PutPresent(writes, conf, 8)
  }

  lemma HeadingAccepted(c: ObjectClass, conf: Store, list: seq<ObjectClass>)
    requires PartOf(c) == Heading && Writable(c, conf, list) && AllPresent(WritesOf(c, conf, list), conf)
    ensures Addable(c, conf) <==> AskedFor(c, conf)
  {
  }

  lemma RequestAccepted(c: ObjectClass, conf: Store, list: seq<ObjectClass>)
    requires PartOf(c) == Request && Writable(c, conf, list) && AllPresent(WritesOf(c, conf, list), conf)
    ensures Addable(c, conf) <==> AskedFor(c, conf)
  {
  }

  lemma SenderAccepted(c: ObjectClass, conf: Store, list: seq<ObjectClass>)
    requires PartOf(c) == Sender && Writable(c, conf, list) && AllPresent(WritesOf(c, conf, list), conf)
    ensures Addable(c, conf) <==> AskedFor(c, conf)
  {
    AnyOfThree(RC_TNA_SRC_ADDR, RC_TNA_DST_ADDR, RC_SERVICE_LEVEL, conf);
  }

  lemma ReservationAccepted(c: ObjectClass, conf: Store, list: seq<ObjectClass>)
    requires PartOf(c) == Reservation && Writable(c, conf, list) && AllPresent(WritesOf(c, conf, list), conf)
    ensures Addable(c, conf) <==> AskedFor(c, conf)
  {
    AnyOfThree(RC_WILDCARD_FILTER, RC_FIXED_FILTER, RC_SHARED_EXPLICIT, conf);
  }
}
