/** The order table of `rsvp_packet`: how its constructor fills it, and how the order of the objects compares with the
    message formats of section 3.1 of RFC 2205, section 3.1 of RFC 3209 and section 10 of RFC 3473. */
module MessageOrder {
  import opened Bytes
  import opened Options
  import opened Parameters
  import opened Configuration
  import opened SortedInsertion
  import opened ObjectList

  const NUM_CALLS: nat := 38

  /** The `add_order` calls, one by one. */
  function Call(t: nat): ObjectClass
    requires t < NUM_CALLS
  {
    match t
    case 0 => MessageIdAck case 1 => MessageIdNack case 2 => MessageId case 3 => MessageIdList
    case 4 => HelloRequest case 5 => HelloAck case 6 => RestartCap case 7 => SessionOif case 8 => SessionIetf
    case 9 => Ipv4IfIdRsvpHop case 10 => Ipv4RsvpHop case 11 => TimeValues case 12 => GeneralizedLabelRequest
    case 13 => SessionAttribute case 14 => ErrorSpec case 15 => NotifyRequest case 16 => CallId0
    case 17 => CallId1 case 18 => CallId2 case 19 => ResvConfirm case 20 => AdminStatus
    case 21 => GeneralizedUni case 22 => GuDestinationTnaAddress case 23 => GuSourceTnaAddress
    case 24 => GuServiceLevel case 25 => SenderTemplate case 26 => SonetsdhSenderTspec
    case 27 => TokenSenderTspec case 28 => EthernetSenderTspec case 29 => UpstreamLabel case 30 => Style
    case 31 => TokenFlowspec case 32 => SonetsdhFlowspec case 33 => EthernetFlowspec case 34 => FilterSpec
    case 35 => GeneralizedLabel case 36 => Scope
    case _ => Ero
  }

  /** `add_order`: the first slot that is free, if one is. */
  method AddOrder(table: seq<Entry>, used: nat, c: ObjectClass) returns (r: seq<Entry>)
    requires Packed(table, used)
    ensures |r| == |table|
    ensures if used < |table| then r == table[used := Stored(c)] && Packed(r, used + 1) else r == table
  {
    var t := 0;
    while t < |table| && table[t].Stored?
      invariant t <= used
    {
      t := t + 1;
    }
    r := if t < |table| then table[t := Stored(c)] else table;
  }

  /** The calls of the constructor: the last of them finds no room, so the table ends up with the first 37 classes. */
  method FillOrder() returns (objectsOrder: seq<ObjectClass>)
    ensures |objectsOrder| == NUM_OBJECTS && forall t :: 0 <= t < NUM_OBJECTS ==> objectsOrder[t] == Call(t)
    ensures forall t :: 0 <= t < NUM_OBJECTS ==> Rank(objectsOrder[t]) == t
  {
    var table := seq(NUM_OBJECTS, _ => Empty);
    for t := 0 to NUM_CALLS
      invariant |table| == NUM_OBJECTS && Packed(table, if t < NUM_OBJECTS then t else NUM_OBJECTS)
      invariant forall i :: 0 <= i < t && i < NUM_OBJECTS ==> table[i] == Stored(Call(i))
    {
      table := AddOrder(table, if t < NUM_OBJECTS then t else NUM_OBJECTS, Call(t));
    }
    objectsOrder := seq(NUM_OBJECTS, t requires 0 <= t < NUM_OBJECTS => table[t].cls);
    forall t | 0 <= t < NUM_OBJECTS ensures Rank(objectsOrder[t]) == t { RankIsPosition(t); }
  }

  /** A class ranks where the constructor put it. */
  lemma RankIsPosition(t: nat)
    requires t < NUM_CALLS
    ensures Rank(Call(t)) == t
  {
  }

  // ---- The message formats

  datatype Format = PathFormat | ResvFormat | PathErrFormat | ResvErrFormat | ResvConfFormat | HelloFormat

  /** The place of an object in a message of the kind, counted from its start; objects of one place are alternatives.
      The explicit route of a PATH, the scope and the notification request of a RESV are left out: see
      `RouteOutOfPlace`. */
  function Place(f: Format, c: ObjectClass): Option<nat> {
    match f
    case PathFormat => PathPlace(c)
    case ResvFormat => if c.TimeValues? then Some(5) else FlowPlace(c)
    case PathErrFormat => if c.ErrorSpec? then Some(7) else if PathOnly(c) then None else PathPlace(c)
    case ResvErrFormat => if c.ErrorSpec? then Some(6) else FlowPlace(c)
    case ResvConfFormat => if c.ErrorSpec? then Some(6) else FlowPlace(c)
    case HelloFormat => if c.HelloRequest? || c.HelloAck? then Some(0) else if c.RestartCap? then Some(1) else None
  }

  /** Acknowledgements, the message id, the session and the hop come first in every message that has them. */
  function PathPlace(c: ObjectClass): Option<nat> {
    match c
    case MessageIdAck => Some(0) case MessageIdNack => Some(0)
    case MessageId => Some(1)
    case SessionOif => Some(2) case SessionIetf => Some(2)
    case Ipv4IfIdRsvpHop => Some(3) case Ipv4RsvpHop => Some(3)
    case TimeValues => Some(5)
    case GeneralizedLabelRequest => Some(6)
    case SessionAttribute => Some(7)
    case NotifyRequest => Some(8)
    case AdminStatus => Some(9)
    case SenderTemplate => Some(10)
    case SonetsdhSenderTspec => Some(11) case TokenSenderTspec => Some(11) case EthernetSenderTspec => Some(11)
    case UpstreamLabel => Some(12)
    case _ => None
  }

  predicate PathOnly(c: ObjectClass) {
    c.TimeValues? || c.GeneralizedLabelRequest? || c.SessionAttribute? || c.NotifyRequest?
  }

  /** A reservation: the style, and then the flow descriptor. */
  function FlowPlace(c: ObjectClass): Option<nat> {
    match c
    case MessageIdAck => Some(0) case MessageIdNack => Some(0)
    case MessageId => Some(1)
    case SessionOif => Some(2) case SessionIetf => Some(2)
    case Ipv4IfIdRsvpHop => Some(3) case Ipv4RsvpHop => Some(3)
    case ResvConfirm => Some(7)
    case AdminStatus => Some(8)
    case Style => Some(9)
    case TokenFlowspec => Some(10) case SonetsdhFlowspec => Some(10) case EthernetFlowspec => Some(10)
    case FilterSpec => Some(11)
    case GeneralizedLabel => Some(12)
    case _ => None
  }

  lemma PathFollows(c: ObjectClass, d: ObjectClass)
    requires PathPlace(c).Some? && PathPlace(d).Some? && PathPlace(c).value < PathPlace(d).value
    ensures Rank(c) < Rank(d) < NUM_OBJECTS
  {
  }

  lemma FlowFollows(c: ObjectClass, d: ObjectClass)
    requires FlowPlace(c).Some? && FlowPlace(d).Some? && FlowPlace(c).value < FlowPlace(d).value
    ensures Rank(c) < Rank(d) < NUM_OBJECTS
  {
  }

  /** Where TIME_VALUES and ERROR_SPEC come among the others. */
  lemma AmongFlow(c: ObjectClass)
    requires FlowPlace(c).Some?
    ensures Rank(c) < NUM_OBJECTS && FlowPlace(c).value !in {5, 6}
    ensures if FlowPlace(c).value < 5 then Rank(c) < Rank(TimeValues) < Rank(ErrorSpec)
      else Rank(TimeValues) < Rank(ErrorSpec) < Rank(c)
  {
  }

  lemma AmongSender(c: ObjectClass)
    requires PathPlace(c).Some? && !PathOnly(c)
    ensures Rank(c) < NUM_OBJECTS && PathPlace(c).value != 7
    ensures if PathPlace(c).value < 7 then Rank(c) < Rank(ErrorSpec) else Rank(ErrorSpec) < Rank(c)
  {
  }

  lemma ResvFollows(c: ObjectClass, d: ObjectClass)
    requires Place(ResvFormat, c).Some? && Place(ResvFormat, d).Some?
    requires Place(ResvFormat, c).value < Place(ResvFormat, d).value
    ensures Rank(c) < Rank(d) < NUM_OBJECTS
  {
    assert FlowPlace(TimeValues).None? && Rank(TimeValues) < NUM_OBJECTS;
    hide Rank, FlowPlace;
    if !c.TimeValues? { AmongFlow(c); }
    if !d.TimeValues? { AmongFlow(d); }
    if !c.TimeValues? && !d.TimeValues? { FlowFollows(c, d); }
  }

  lemma ConfirmationFollows(f: Format, c: ObjectClass, d: ObjectClass)
    requires f.ResvErrFormat? || f.ResvConfFormat?
    requires Place(f, c).Some? && Place(f, d).Some? && Place(f, c).value < Place(f, d).value
    ensures Rank(c) < Rank(d) < NUM_OBJECTS
  {
    assert FlowPlace(ErrorSpec).None? && Rank(ErrorSpec) < NUM_OBJECTS;
    hide Rank, FlowPlace;
    if !c.ErrorSpec? { AmongFlow(c); }
    if !d.ErrorSpec? { AmongFlow(d); }
    if !c.ErrorSpec? && !d.ErrorSpec? { FlowFollows(c, d); }
  }

  lemma ErrorFollows(c: ObjectClass, d: ObjectClass)
    requires Place(PathErrFormat, c).Some? && Place(PathErrFormat, d).Some?
    requires Place(PathErrFormat, c).value < Place(PathErrFormat, d).value
    ensures Rank(c) < Rank(d) < NUM_OBJECTS
  {
    assert PathPlace(ErrorSpec).None? && Rank(ErrorSpec) < NUM_OBJECTS;
    hide Rank, PathPlace, PathOnly;
    if !c.ErrorSpec? { AmongSender(c); }
    if !d.ErrorSpec? { AmongSender(d); }
    if !c.ErrorSpec? && !d.ErrorSpec? { PathFollows(c, d); }
  }

  lemma HelloFollows(c: ObjectClass, d: ObjectClass)
    requires Place(HelloFormat, c).Some? && Place(HelloFormat, d).Some?
    requires Place(HelloFormat, c).value < Place(HelloFormat, d).value
    ensures Order(c) < Order(d)
  {
  }

  lemma RanksFollow(f: Format, c: ObjectClass, d: ObjectClass)
    requires Place(f, c).Some? && Place(f, d).Some? && Place(f, c).value < Place(f, d).value
    ensures Order(c) < Order(d)
  {
    if f.HelloFormat? { HelloFollows(c, d); }
    hide Rank, PathPlace, FlowPlace, PathOnly;
    match f
    case PathFormat => PathFollows(c, d);
    case ResvFormat => ResvFollows(c, d);
    case PathErrFormat => ErrorFollows(c, d);
    case HelloFormat =>
    case _ => ConfirmationFollows(f, c, d);
  }

  predicate InPlace(f: Format, list: seq<ObjectClass>) {
    forall i, j :: 0 <= i < j < |list| && Place(f, list[i]).Some? && Place(f, list[j]).Some? ==>
      Place(f, list[i]).value <= Place(f, list[j]).value
  }

  /** In whatever order objects are added, they stand in the message as the formats have them. */
  lemma FollowsFormat(f: Format, conf: Store, calls: seq<ObjectClass>)
    ensures InPlace(f, AddAll(conf, calls))
  {
    var list := AddAll(conf, calls);
    AddAllSorts(conf, calls);
    forall i, j | 0 <= i < j < |list| && Place(f, list[i]).Some? && Place(f, list[j]).Some?
      ensures Place(f, list[i]).value <= Place(f, list[j]).value
    {
      if Place(f, list[j]).value < Place(f, list[i]).value { RanksFollow(f, list[j], list[i]); }
    }
  }

  /** The format of a PATH has the explicit route right after TIME_VALUES. */
  predicate RouteInPlace(list: seq<ObjectClass>) {
    forall i, j :: 0 <= i < j < |list| ==>
      && (list[j].Ero? && PathPlace(list[i]).Some? ==> PathPlace(list[i]).value <= 5)
      && (list[i].Ero? && Place(PathFormat, list[j]).Some? ==> Place(PathFormat, list[j]).value > 5)
  }

  /** The route stands in its place if and only if nothing is in the message that has to follow it, such as a label
      request, because it is put last. */
  lemma RouteOutOfPlace(conf: Store, calls: seq<ObjectClass>)
    requires Ero in AddAll(conf, calls)
    ensures RouteInPlace(AddAll(conf, calls))
      <==> forall c :: c in AddAll(conf, calls) && PathPlace(c).Some? ==> PathPlace(c).value <= 5
  {
    var list := AddAll(conf, calls);
    AddAllSorts(conf, calls);
    hide AddAll, Rank, PathPlace;
    var k :| 0 <= k < |list| && list[k].Ero?;
    EroBehind(list, k);
    if RouteInPlace(list) {
      forall c | c in list && PathPlace(c).Some?
        ensures PathPlace(c).value <= 5
      {
        var i :| 0 <= i < |list| && list[i] == c;
        assert i < k;
      }
    }
  }

  /** Behind a route there is nothing but another route. */
  lemma EroBehind(list: seq<ObjectClass>, k: nat)
    requires Sorted(Order, list) && k < |list| && list[k].Ero?
    ensures PathPlace(Ero).None?
    ensures forall i, j :: 0 <= i < j < |list| && list[i].Ero? ==> list[j].Ero?
    ensures forall i :: 0 <= i < |list| && PathPlace(list[i]).Some? ==> i < k
  {
    forall i, j | 0 <= i < j < |list| && list[i].Ero?
      ensures list[j].Ero?
    {
      EroIsLast(list, i, j);
    }
  }
}
