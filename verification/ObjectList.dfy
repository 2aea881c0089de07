/** The object list of `rsvp_packet`: which objects a configuration allows, and the fixed-size array that
    `add_object` keeps sorted by the class-order table (the message order of section 3.1 of RFC 2205). */
module ObjectList {
  import opened Bytes
  import opened Parameters
  import opened Configuration
  import opened SortedInsertion

  const MAX_OBJECTS: nat := 100
  const NUM_OBJECTS: nat := 37
  const UINT_MAX: nat := 0xFFFF_FFFF
  const ERROR_CONF_INSUFF: int := -16
  const ERROR_2_MANY_OBJECTS: int := -17

  /** The `CLASS_` macros, in the order of the `add_order` calls. */
  datatype ObjectClass =
    | MessageIdAck
    | MessageIdNack
    | MessageId
    | MessageIdList
    | HelloRequest
    | HelloAck
    | RestartCap
    | SessionOif
    | SessionIetf
    | Ipv4IfIdRsvpHop
    | Ipv4RsvpHop
    | TimeValues
    | GeneralizedLabelRequest
    | SessionAttribute
    | ErrorSpec
    | NotifyRequest
    | CallId0
    | CallId1
    | CallId2
    | ResvConfirm
    | AdminStatus
    | GeneralizedUni
    | GuDestinationTnaAddress
    | GuSourceTnaAddress
    | GuServiceLevel
    | SenderTemplate
    | SonetsdhSenderTspec
    | TokenSenderTspec
    | EthernetSenderTspec
    | UpstreamLabel
    | Style
    | TokenFlowspec
    | SonetsdhFlowspec
    | EthernetFlowspec
    | FilterSpec
    | GeneralizedLabel
    | Scope
    | Ero

  /** Class-Num, C-Type and the two numbers of a subobject. */
  datatype Numbers = Numbers(cnum: byte, ctnum: byte, scnum: byte, sctnum: byte)

  function NumbersOf(c: ObjectClass): Numbers {
    match c
    case MessageIdAck => Numbers(24, 1, 0, 0)
    case MessageIdNack => Numbers(24, 2, 0, 0)
    case MessageId => Numbers(23, 1, 0, 0)
    case MessageIdList => Numbers(25, 1, 0, 0)
    case HelloRequest => Numbers(22, 1, 0, 0)
    case HelloAck => Numbers(22, 2, 0, 0)
    case RestartCap => Numbers(131, 1, 0, 0)
    case SessionOif => Numbers(1, 11, 0, 0)
    case SessionIetf => Numbers(1, 7, 0, 0)
    case Ipv4IfIdRsvpHop => Numbers(3, 3, 0, 0)
    case Ipv4RsvpHop => Numbers(3, 1, 0, 0)
    case TimeValues => Numbers(5, 1, 0, 0)
    case GeneralizedLabelRequest => Numbers(19, 4, 0, 0)
    case SessionAttribute => Numbers(207, 7, 0, 0)
    case ErrorSpec => Numbers(6, 1, 0, 0)
    case NotifyRequest => Numbers(195, 1, 0, 0)
    case CallId0 => Numbers(230, 0, 0, 0)
    case CallId1 => Numbers(230, 1, 0, 0)
    case CallId2 => Numbers(230, 2, 0, 0)
    case ResvConfirm => Numbers(15, 1, 0, 0)
    case AdminStatus => Numbers(196, 1, 0, 0)
    case GeneralizedUni => Numbers(229, 1, 0, 0)
    case GuDestinationTnaAddress => Numbers(229, 1, 2, 1)
    case GuSourceTnaAddress => Numbers(229, 1, 1, 1)
    case GuServiceLevel => Numbers(229, 1, 5, 1)
    case SenderTemplate => Numbers(11, 7, 0, 0)
    case SonetsdhSenderTspec => Numbers(12, 4, 0, 0)
    case TokenSenderTspec => Numbers(12, 2, 0, 0)
    case EthernetSenderTspec => Numbers(12, 6, 0, 0)
    case UpstreamLabel => Numbers(35, 2, 0, 0)
    case Style => Numbers(8, 1, 0, 0)
    case TokenFlowspec => Numbers(9, 2, 0, 0)
    case SonetsdhFlowspec => Numbers(9, 4, 0, 0)
    case EthernetFlowspec => Numbers(9, 6, 0, 0)
    case FilterSpec => Numbers(10, 7, 0, 0)
    case GeneralizedLabel => Numbers(16, 2, 0, 0)
    case Scope => Numbers(7, 1, 0, 0)
    case Ero => Numbers(20, 1, 0, 0)
  }

  /** The position of the class among the `add_order` calls. */
  function Rank(c: ObjectClass): nat {
    match c
    case MessageIdAck => 0
    case MessageIdNack => 1
    case MessageId => 2
    case MessageIdList => 3
    case HelloRequest => 4
    case HelloAck => 5
    case RestartCap => 6
    case SessionOif => 7
    case SessionIetf => 8
    case Ipv4IfIdRsvpHop => 9
    case Ipv4RsvpHop => 10
    case TimeValues => 11
    case GeneralizedLabelRequest => 12
    case SessionAttribute => 13
    case ErrorSpec => 14
    case NotifyRequest => 15
    case CallId0 => 16
    case CallId1 => 17
    case CallId2 => 18
    case ResvConfirm => 19
    case AdminStatus => 20
    case GeneralizedUni => 21
    case GuDestinationTnaAddress => 22
    case GuSourceTnaAddress => 23
    case GuServiceLevel => 24
    case SenderTemplate => 25
    case SonetsdhSenderTspec => 26
    case TokenSenderTspec => 27
    case EthernetSenderTspec => 28
    case UpstreamLabel => 29
    case Style => 30
    case TokenFlowspec => 31
    case SonetsdhFlowspec => 32
    case EthernetFlowspec => 33
    case FilterSpec => 34
    case GeneralizedLabel => 35
    case Scope => 36
    case Ero => 37
  }

  /** The parameters an object needs: all of them, or at least one. */
  datatype Requirement = All(params: seq<Param>) | Any(params: seq<Param>)

  function RequirementOf(c: ObjectClass): Requirement {
    match c
    case MessageIdAck => All([RC_MSG_ID_FLAGS, RC_MSG_ID_EPOCH, RC_MSG_ID_ID])
    case MessageIdNack => All([RC_MSG_ID_FLAGS, RC_MSG_ID_EPOCH, RC_MSG_ID_ID])
    case MessageId => All([RC_MSG_ID_FLAGS, RC_MSG_ID_EPOCH, RC_MSG_ID_ID])
    case MessageIdList => All([RC_SREFRESH_MESSAGE_ID])
    case HelloRequest => All([RC_HELLO_SRC_INSTANCE, RC_HELLO_DST_INSTANCE])
    case HelloAck => All([RC_HELLO_SRC_INSTANCE, RC_HELLO_DST_INSTANCE])
    case RestartCap => All([RC_RESTART_TIME, RC_RECOVERY_TIME])
    case SessionOif => All([RC_SESSION_DEST_ADDR, RC_TUNNEL_ID, RC_EXTENDED_IPV4_ADDR])
    case SessionIetf => All([RC_SESSION_DEST_ADDR, RC_TUNNEL_ID, RC_EXTENDED_IPV4_ADDR])
    case Ipv4IfIdRsvpHop => All([RC_DATA_OUT_IF_ADDR, RC_CONTROL_OUT_IF_ADDR, RC_CONTROL_OUT_IF_HANDLE])
    case Ipv4RsvpHop => All([RC_CONTROL_OUT_IF_ADDR, RC_CONTROL_OUT_IF_HANDLE])
    case TimeValues => All([RC_REFRESH_PERIOD])
    case GeneralizedLabelRequest => All([RC_LSP_ENC_TYPE, RC_LSP_SWITCHING_TYPE, RC_LSP_GPID])
    case SessionAttribute => All([RC_SESSION_NAME, RC_SETUP_PRIORITY, RC_HOLDING_PRIORITY,
      RC_LOCAL_PROTECTION_FLAG, RC_LABEL_RECORDING_FLAG, RC_SE_STYLE_FLAG])
    case ErrorSpec => All([RC_ERROR_NODE_ADDR, RC_ERROR_FLAGS, RC_ERROR_CODE, RC_ERROR_VALUE])
    case NotifyRequest => All([RC_NOTIFY_ADDRESS])
    case CallId0 => All([RC_CALL_ID])
    case CallId1 => All([RC_CALL_ID_ADDR_TYPE, RC_CALL_ID_SRC_TN_ADDR, RC_CALL_ID_LOCAL_ID1, RC_CALL_ID_LOCAL_ID2])
    case CallId2 => All([RC_CALL_ID_ADDR_TYPE, RC_CALL_ID_IS, RC_CALL_ID_ITU_CC1, RC_CALL_ID_ITU_CC2,
      RC_CALL_ID_UAPC1, RC_CALL_ID_UAPC2, RC_CALL_ID_SRC_TN_ADDR, RC_CALL_ID_LOCAL_ID1, RC_CALL_ID_LOCAL_ID2])
    case ResvConfirm => All([RC_RESV_CONFIRM_RECV_ADDR])
    case AdminStatus => All([RC_ADMIN_STATUS_RTAD_FLAGS])
    case GeneralizedUni => Any([RC_TNA_SRC_ADDR, RC_TNA_DST_ADDR, RC_SERVICE_LEVEL])
    case GuDestinationTnaAddress => All([RC_TNA_DST_ADDR])
    case GuSourceTnaAddress => All([RC_TNA_SRC_ADDR])
    case GuServiceLevel => All([RC_SERVICE_LEVEL])
    case SenderTemplate => All([RC_SENDER_SRC_ADDR, RC_SENDER_SRC_ID])
    case SonetsdhSenderTspec => All([RC_SSDH_SIGNAL_TYPE, RC_SSDH_RCC, RC_SSDH_NCC,
      RC_SSDH_NVC, RC_SSDH_MULTIPLIER, RC_SSDH_TRANSPARENCY, RC_SSDH_PROFILE])
    case TokenSenderTspec => All([RC_TOKEN_BUCKET_RATE, RC_TOKEN_BUCKET_SIZE,
      RC_PEAK_DATA_RATE, RC_MINIMUM_POLICED_UNIT, RC_MAXIMUM_PACKET_SIZE])
    case EthernetSenderTspec => All([RC_ETHERNET_CIR, RC_ETHERNET_CBS, RC_ETHERNET_EIR,
      RC_ETHERNET_EBS, RC_ETHERNET_SW_GRANUALITY, RC_ETHERNET_INDEX, RC_ETHERNET_PROFILE])
    case UpstreamLabel => All([RC_UPSTREAM_LABEL])
    case Style => Any([RC_WILDCARD_FILTER, RC_FIXED_FILTER, RC_SHARED_EXPLICIT])
    case TokenFlowspec => All([RC_TOKEN_BUCKET_RATE, RC_TOKEN_BUCKET_SIZE,
      RC_PEAK_DATA_RATE, RC_MINIMUM_POLICED_UNIT, RC_MAXIMUM_PACKET_SIZE])
    case SonetsdhFlowspec => All([RC_SSDH_SIGNAL_TYPE, RC_SSDH_RCC, RC_SSDH_NCC, RC_SSDH_NVC, RC_SSDH_MULTIPLIER,
      RC_SSDH_TRANSPARENCY, RC_SSDH_PROFILE, RC_ETHERNET_SW_GRANUALITY, RC_ETHERNET_INDEX, RC_ETHERNET_PROFILE])
    case EthernetFlowspec => All([RC_ETHERNET_CIR, RC_ETHERNET_CBS, RC_ETHERNET_EIR, RC_ETHERNET_EBS])
    case FilterSpec => All([RC_FILTER_SRC_ADDR, RC_FILTER_SRC_PORT])
    case GeneralizedLabel => All([RC_LABEL])
    case Scope => All([RC_SCOPE_ADDR])
    case Ero => All([RC_ERO])
  }

  predicate Addable(c: ObjectClass, conf: Store) {
    match RequirementOf(c)
    case All(params) => forall p :: p in params ==> p in conf
    case Any(params) => exists p :: p in params && p in conf
  }

  // ---- The order table

  lemma RankInjective(c: ObjectClass, d: ObjectClass)
    ensures Rank(c) == Rank(d) ==> c == d
    ensures Rank(c) <= NUM_OBJECTS
  {
  }

  /** `get_object_order` as `add_object` sees it, in an `unsigned int`: the table has room for 37 of the 38
      `add_order` calls, so the last class is not found and its -1 compares above every position. */
  function Order(c: ObjectClass): nat {
    if Rank(c) < NUM_OBJECTS then Rank(c) else UINT_MAX
  }

  lemma OrderInjective(c: ObjectClass, d: ObjectClass)
    ensures Order(c) == Order(d) ==> c == d
  {
    RankInjective(c, d);
  }

  /** `get_object_order`: the search through the table that the constructor has filled. */
  method GetObjectOrder(objectsOrder: seq<ObjectClass>, c: ObjectClass) returns (order: int)
    requires |objectsOrder| == NUM_OBJECTS && forall t :: 0 <= t < NUM_OBJECTS ==> Rank(objectsOrder[t]) == t
    ensures order == if Rank(c) < NUM_OBJECTS then Rank(c) else -1
  {
    for t := 0 to NUM_OBJECTS
      invariant Rank(c) >= t
    {
      RankInjective(objectsOrder[t], c);
      if objectsOrder[t] == c {
        return t;
      }
    }
    order := -1;
  }

  // ---- The sorted list

  /** The last entry of the array is never filled. */
  const CAPACITY: nat := MAX_OBJECTS - 1

  /** What one call of `add_object` makes of the list. */
  function AddOne(conf: Store, list: seq<ObjectClass>, c: ObjectClass): seq<ObjectClass> {
    if |list| == MAX_OBJECTS || !Addable(c, conf) then list else Take(CAPACITY, Insert(Order, list, c))
  }

  /** The list after a run of calls on an empty packet. */
  function AddAll(conf: Store, calls: seq<ObjectClass>): seq<ObjectClass> {
    if calls == [] then [] else AddOne(conf, AddAll(conf, calls[..|calls| - 1]), calls[|calls| - 1])
  }

  function Accepted(conf: Store, calls: seq<ObjectClass>): seq<ObjectClass> {
    if calls == [] then []
    else
      var rest, c := Accepted(conf, calls[..|calls| - 1]), calls[|calls| - 1];
      if Addable(c, conf) then rest + [c] else rest
  }

  /** The objects sorted in an array without end. */
  function SortedBy(objects: seq<ObjectClass>): seq<ObjectClass> {
    if objects == [] then [] else Insert(Order, SortedBy(objects[..|objects| - 1]), objects[|objects| - 1])
  }

  lemma {:induction false} SortedByHolds(objects: seq<ObjectClass>)
    ensures Sorted(Order, SortedBy(objects)) && multiset(SortedBy(objects)) == multiset(objects)
    ensures |SortedBy(objects)| == |objects|
  {
    if objects != [] {
      var init, last := objects[..|objects| - 1], objects[|objects| - 1];
      SortedByHolds(init);
      InsertSorts(Order, SortedBy(init), last);
      InsertHolds(Order, SortedBy(init), last);
      assert objects == init + [last];
    }
  }

  lemma AcceptedLast(conf: Store, calls: seq<ObjectClass>)
    requires calls != []
    ensures var init, last := calls[..|calls| - 1], calls[|calls| - 1];
      SortedBy(Accepted(conf, calls)) ==
      if Addable(last, conf) then Insert(Order, SortedBy(Accepted(conf, init)), last)
        else SortedBy(Accepted(conf, init))
  {
    var accepted, init := Accepted(conf, calls), calls[..|calls| - 1];
    if Addable(calls[|calls| - 1], conf) { assert accepted[..|accepted| - 1] == Accepted(conf, init); }
  }

  lemma {:induction false} AddAllTakes(conf: Store, calls: seq<ObjectClass>)
    ensures AddAll(conf, calls) == Take(CAPACITY, SortedBy(Accepted(conf, calls)))
  {
    if calls != [] {
      var init, last := calls[..|calls| - 1], calls[|calls| - 1];
      AddAllTakes(conf, init);
      AcceptedLast(conf, calls);
      InsertTaken(Order, CAPACITY, SortedBy(Accepted(conf, init)), last);
    }
  }

  lemma TakenWhole(list: seq<ObjectClass>, objects: seq<ObjectClass>)
    requires Sorted(Order, objects) && multiset(objects) == multiset(list)
    ensures Sorted(Order, Take(CAPACITY, objects)) && |Take(CAPACITY, objects)| <= CAPACITY
    ensures multiset(Take(CAPACITY, objects)) == multiset(list) <==> |list| <= CAPACITY
  {
    SameLength(objects, list);
    if |list| > CAPACITY && multiset(Take(CAPACITY, objects)) == multiset(list) {
      SameLength(Take(CAPACITY, objects), list);
    }
  }

  /** After any calls the list is made of the accepted objects, sorted, up to the 99th. */
  lemma AddAllSorts(conf: Store, calls: seq<ObjectClass>)
    ensures AddAll(conf, calls) == Take(CAPACITY, SortedBy(Accepted(conf, calls)))
    ensures Sorted(Order, AddAll(conf, calls)) && |AddAll(conf, calls)| <= CAPACITY
    ensures multiset(AddAll(conf, calls)) == multiset(Accepted(conf, calls)) <==> |Accepted(conf, calls)| <= CAPACITY
  {
    AddAllTakes(conf, calls);
    SortedByHolds(Accepted(conf, calls));
    TakenWhole(Accepted(conf, calls), SortedBy(Accepted(conf, calls)));
  }

  lemma SameSorted(a: seq<ObjectClass>, b: seq<ObjectClass>)
    ensures multiset(a) == multiset(b) <==> SortedBy(a) == SortedBy(b)
  {
    SortedByHolds(a);
    SortedByHolds(b);
    if multiset(a) == multiset(b) {
      forall x, y | x in SortedBy(a) && y in SortedBy(a) && Order(x) == Order(y)
        ensures x == y
      {
        OrderInjective(x, y);
      }
      SortedUnique(Order, SortedBy(a), SortedBy(b));
    }
  }

  /** The list, and so the message, depends only on which objects were accepted, not on when; and, of up to 99, it tells
      which they were. */
  lemma {:induction false} CanonicalOrder(conf: Store, calls: seq<ObjectClass>, calls': seq<ObjectClass>)
    ensures multiset(Accepted(conf, calls)) == multiset(Accepted(conf, calls'))
      ==> AddAll(conf, calls) == AddAll(conf, calls')
    ensures |Accepted(conf, calls)| <= CAPACITY && |Accepted(conf, calls')| <= CAPACITY ==>
      (multiset(Accepted(conf, calls)) == multiset(Accepted(conf, calls')) <==>
       AddAll(conf, calls) == AddAll(conf, calls'))
  {
    AddAllSorts(conf, calls);
    AddAllSorts(conf, calls');
    SameSorted(Accepted(conf, calls), Accepted(conf, calls'));
  }

  lemma EroIsLast(list: seq<ObjectClass>, i: nat, j: nat)
    requires Sorted(Order, list) && i < j < |list| && list[i] == Ero
    ensures list[j] == Ero
  {
    RankInjective(list[j], Ero);
  }

  // ---- The array

  datatype Entry = Empty | Stored(cls: ObjectClass)

  /** Objects fill the array from the start; a zero Class-Num ends them. */
  predicate Packed(entries: seq<Entry>, n: nat) {
    && n <= |entries|
    && (forall i :: 0 <= i < n ==> entries[i].Stored?)
    && (forall i :: n <= i < |entries| ==> entries[i].Empty?)
  }

  class ObjectArray {
    const objects: array<Entry>
    ghost var list: seq<ObjectClass>

    ghost predicate Valid()
      reads this, objects
    {
      && objects.Length == MAX_OBJECTS
      && Packed(objects[..], |list|)
      && forall i :: 0 <= i < |list| ==> objects[i].cls == list[i]
    }

    constructor ()
      ensures Valid() && fresh(objects) && list == []
    {
      objects := new Entry[MAX_OBJECTS](i => Empty);
      list := [];
    }

    /** `add_object`. The shifting loop stops one entry short of the end, so the last entry is never filled: at 99
        objects the call still reports success, but the object sorted last falls off. */
    method AddObject(c: ObjectClass, conf: Store) returns (code: int)
      requires Valid()
      modifies this, objects
      ensures Valid()
      ensures code == if |old(list)| == MAX_OBJECTS then ERROR_2_MANY_OBJECTS
        else if !Addable(c, conf) then ERROR_CONF_INSUFF else 0
      ensures list == AddOne(conf, old(list), c)
      ensures code != 0 ==> list == old(list)
    {
      if objects[MAX_OBJECTS - 1] != Empty {
        return ERROR_2_MANY_OBJECTS;
      }
      if !Addable(c, conf) {
        return ERROR_CONF_INSUFF;
      }
      var t := Position(c);
      ghost var before := objects[..];
      ShiftIn(t, c);
      list := Shifted(before, list, objects[..], t, c);
      code := 0;
    }

    /** The search loop. */
    method Position(c: ObjectClass) returns (t: nat)
      requires Valid() && |list| < MAX_OBJECTS
      ensures t <= |list|
      ensures Insert(Order, list, c) == list[..t] + ([c] + list[t..])
    {
      t := 0;
      while objects[t].Stored? && Order(c) > Order(objects[t].cls)
        invariant t <= |list|
        invariant forall i :: 0 <= i < t ==> Order(c) > Order(list[i])
        decreases MAX_OBJECTS - t
      {
        t := t + 1;
      }
      InsertBetween(Order, list[..t], c, list[t..]);
      assert list[..t] + list[t..] == list;
    }

    /** The shifting loop. */
    method ShiftIn(t: nat, c: ObjectClass)
      requires objects.Length == MAX_OBJECTS && t < MAX_OBJECTS
      modifies objects
      ensures forall i :: 0 <= i < MAX_OBJECTS ==> objects[i] == ShiftedEntry(old(objects[..]), t, c, i)
    {
      ghost var before := objects[..];
      var e := Stored(c);
      var n := t;
      while n < MAX_OBJECTS - 1
        invariant t <= n <= MAX_OBJECTS - 1
        invariant forall i :: 0 <= i < MAX_OBJECTS && !(t <= i < n) ==> objects[i] == before[i]
        invariant forall i :: t <= i < n ==> objects[i] == if i == t then Stored(c) else before[i - 1]
        invariant e == if n == t then Stored(c) else before[n - 1]
      {
        var a := objects[n];
        objects[n] := e;
        e := a;
        n := n + 1;
      }
    }
  }

  /** Entry i after the new object went in at t and the ones after it moved up, up to the last but one. */
  function ShiftedEntry(before: seq<Entry>, t: nat, c: ObjectClass, i: nat): Entry
    requires |before| == MAX_OBJECTS && i < MAX_OBJECTS
  {
    if i < t || i == MAX_OBJECTS - 1 then before[i] else if i == t then Stored(c) else before[i - 1]
  }

  /** What the shifted array holds: the old list with the new object at `t`, cut to 99. */
  lemma Shifted(before: seq<Entry>, list: seq<ObjectClass>, after: seq<Entry>, t: nat, c: ObjectClass)
      returns (list': seq<ObjectClass>)
    requires |before| == |after| == MAX_OBJECTS && Packed(before, |list|) && t <= |list| <= MAX_OBJECTS - 1
    requires forall i :: 0 <= i < |list| ==> before[i].cls == list[i]
    requires forall i :: 0 <= i < MAX_OBJECTS ==> after[i] == ShiftedEntry(before, t, c, i)
    ensures var all := list[..t] + ([c] + list[t..]);
      list' == Take(CAPACITY, all)
    ensures Packed(after, |list'|)
    ensures forall i :: 0 <= i < |list'| ==> after[i].cls == list'[i]
  {
    var all := list[..t] + ([c] + list[t..]);
    list' := Take(CAPACITY, all);
    forall i | 0 <= i < |list'|
      ensures after[i].Stored? && after[i].cls == list'[i]
    {
      assert list'[i] == all[i] == if i < t then list[i] else if i == t then c else list[i - 1];
      assert after[i] == ShiftedEntry(before, t, c, i);
    }
    forall i | |list'| <= i < MAX_OBJECTS
      ensures after[i].Empty?
    {
      assert after[i] == ShiftedEntry(before, t, c, i);
    }
  }

  lemma OneFallsOff(all: seq<ObjectClass>)
    requires Sorted(Order, all) && |all| == CAPACITY + 1
    ensures Sorted(Order, Take(CAPACITY, all))
    ensures multiset(all) == multiset(Take(CAPACITY, all)) + multiset{all[CAPACITY]}
  {
    assert all == all[..CAPACITY] + [all[CAPACITY]];
  }

  /** With 99 objects stored, the call that adds one more loses one. */
  lemma LosesOne(list: seq<ObjectClass>, c: ObjectClass)
    requires Sorted(Order, list) && |list| == CAPACITY
    ensures var kept := Take(CAPACITY, Insert(Order, list, c));
      multiset(kept) < multiset(list) + multiset{c} && Sorted(Order, kept)
  {
    InsertSorts(Order, list, c);
    InsertHolds(Order, list, c);
    OneFallsOff(Insert(Order, list, c));
  }
}
