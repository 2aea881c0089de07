/** The table of questions waiting for the manager (`mgmt_interface.cpp`): which PATH an answer is matched with. */
module MgmtInterface {
  import opened Bytes
  import opened Options
  import opened Connections

  const MAX_PENDING: nat := 100
  const ERROR_BUF_2_SMALL: int := -14

  /** A slot: the connection id, or -1 when free; the message the question is about, by its kind, whether it carries the
      deletion flags, and a serial number that stands for its contents; and the id of the request it was put in, or -1
      when the slot has never carried one. */
  datatype Slot = Slot(cid: int, kind: Kind, deletes: bool, serial: nat, mmid: int, waiting: bool)

  datatype Table = Table(slots: seq<Slot>, nextId: u16)

  /** What the listener writes to the manager about a PATH. */
  datatype Request = CreateReq(id: u16, serial: nat) | DeleteReq(serial: nat)

  predicate Sized(t: Table) {
    |t.slots| == MAX_PENDING
  }

  // ---- The operations

  function FirstFree(slots: seq<Slot>, i: nat): (r: nat)
    requires i <= |slots|
    ensures i <= r <= |slots| && (r < |slots| ==> slots[r].cid == -1)
    ensures forall k :: i <= k < r ==> slots[k].cid != -1
    decreases |slots| - i
  {
    if i == |slots| || slots[i].cid == -1 then i else FirstFree(slots, i + 1)
  }

  /** `ask_gui`: the slot keeps the request id it last carried. */
  function Queued(t: Table, cid: u16, kind: Kind, deletes: bool, serial: nat): Table {
    var i := FirstFree(t.slots, 0);
    if i == |t.slots| then t
    else t.(slots := t.slots[i := Slot(cid, kind, deletes, serial, t.slots[i].mmid, false)])
  }

  /** The PATH in the slot has still to be put to the manager. */
  predicate Unasked(s: Slot) {
    s.cid >= 0 && s.kind.Path? && !s.waiting
  }

  predicate MakesRequest(s: Slot) {
    Unasked(s) && !s.deletes
  }

  /** `check_pending_rsvp_packet`: a PATH is put to the manager and waits, anything else is only reported. */
  function Check(t: Table, i: nat): Table
    requires i < |t.slots|
  {
    var s := t.slots[i];
    if s.cid < 0 || (s.kind.Path? && s.waiting) then t
    else if MakesRequest(s) then
      Table(t.slots[i := s.(mmid := t.nextId, waiting := true)], (t.nextId + 1) % 0x1_0000)
    else if s.kind.Path? then t.(slots := t.slots[i := s.(waiting := true)])
    else t.(slots := t.slots[i := s.(cid := -1)])
  }

  function Requests(t: Table, i: nat): seq<Request>
    requires i < |t.slots|
  {
    var s := t.slots[i];
    if MakesRequest(s) then [CreateReq(t.nextId, s.serial)]
    else if Unasked(s) then [DeleteReq(s.serial)]
    else []
  }

  /** The slot waits for the answer to the request: a CREATE REQ goes out under the id that the slot then remembers, and
      either kind says what the PATH in the slot is. */
  predicate AwaitsAnswer(slot: Slot, r: Request) {
    && slot.cid >= 0 && slot.kind.Path? && slot.waiting && slot.serial == r.serial
    && (r.CreateReq? <==> !slot.deletes) && (r.CreateReq? ==> slot.mmid == r.id)
  }

  /** A check writes at most one request, and exactly for a PATH that has not been asked about; the slot then waits
      for the answer to just that request. No two writes in a row carry the same id. */
  lemma ChecksWrite(t: Table, i: nat)
    requires i < |t.slots|
    ensures Requests(t, i) == [] <==> !Unasked(t.slots[i])
    ensures Requests(t, i) != [] ==> |Requests(t, i)| == 1 && AwaitsAnswer(Check(t, i).slots[i], Requests(t, i)[0])
    ensures t.slots[i].cid >= 0 && !t.slots[i].kind.Path? ==> Check(t, i).slots[i].cid == -1
    ensures forall j :: 0 <= j < |t.slots| && j != i ==> Check(t, i).slots[j] == t.slots[j]
    ensures Requests(t, i) != [] && Requests(t, i)[0].CreateReq? <==> Check(t, i).nextId != t.nextId
  {
  }

  /** `find_pending_rsvp_packet`: it gives up at a slot that has never carried a request. */
  function Find(slots: seq<Slot>, i: nat, tunnel: u16, id: u16): (r: int)
    requires i <= |slots|
    ensures r == -1 || (i <= r < |slots| && slots[r].cid == tunnel && slots[r].mmid == id)
    decreases |slots| - i
  {
    if i == |slots| || slots[i].mmid == -1 then -1
    else if slots[i].cid == tunnel && slots[i].mmid == id then i
    else Find(slots, i + 1, tunnel, id)
  }

  /** CREATE ACK and CREATE NACK: the slot found is delivered and freed. */
  function Answered(t: Table, tunnel: u16, id: u16): Table {
    var i := Find(t.slots, 0, tunnel, id);
    if i < 0 then t else t.(slots := t.slots[i := t.slots[i].(cid := -1)])
  }

  // ---- Runs, with their history

  /** What each CREATE REQ was about. */
  datatype Issue = Issue(serial: nat, cid: u16)

  /** The table; how many questions there have been; what has been written to the manager, oldest first; what each
      CREATE REQ was about, in the order of issue; the number of the request each slot last carried, or -1; which
      requests the manager has answered; and what has been delivered. */
  datatype State = State(table: Table, asks: nat, requests: seq<Request>, issued: seq<Issue>, carried: seq<int>,
      answered: set<nat>, delivered: seq<nat>)

  predicate Shaped(s: State) {
    Sized(s.table) && |s.carried| == MAX_PENDING
  }

  const NEVER_USED: Slot := Slot(-1, Path, false, 0, -1, false)

  /** Nothing asked yet. */
  function NewDesk(): State {
    State(Table(seq(MAX_PENDING, _ => NEVER_USED), 0), 0, [], [], seq(MAX_PENDING, _ => -1), {}, [])
  }

  type Desk = s: State | Shaped(s) witness NewDesk()

  datatype Event =
    | Asks(cid: u16, kind: Kind, deletes: bool)
    | Checks(i: nat)
    | Answers(request: nat, tunnel: u16)

  function CreateReqs(requests: seq<Request>): seq<Request> {
    if requests == [] then []
    else
      var last := requests[|requests| - 1];
      CreateReqs(requests[..|requests| - 1]) + if last.CreateReq? then [last] else []
  }

  /** The id that the manager read in the request with this number, and repeats in its answer. */
  function IdWritten(s: Desk, request: nat): u16 {
    var written := CreateReqs(s.requests);
    if request < |written| && written[request].CreateReq? then written[request].id else 0
  }

  /** The manager answers only what it was asked, and nothing twice. */
  predicate Enabled(s: Desk, e: Event) {
    match e
    case Asks(_, _, _) => true
    case Checks(i) => i < MAX_PENDING
    case Answers(request, _) => request < |s.issued| && request !in s.answered
  }

  /** The slot an answer finds. */
  function Found(s: Desk, request: nat, tunnel: u16): int {
    Find(s.table.slots, 0, tunnel, IdWritten(s, request))
  }

  function Next(s: Desk, e: Event): Desk
    requires Enabled(s, e)
  {
    match e
    case Asks(cid, kind, deletes) => s.(table := Queued(s.table, cid, kind, deletes, s.asks), asks := s.asks + 1)
    case Checks(i) =>
      var slot := s.table.slots[i];
      if MakesRequest(slot) then
        s.(table := Check(s.table, i), requests := s.requests + Requests(s.table, i),
          issued := s.issued + [Issue(slot.serial, slot.cid % 0x1_0000)],
          carried := s.carried[i := |s.issued|])
      else s.(table := Check(s.table, i), requests := s.requests + Requests(s.table, i))
    case Answers(request, tunnel) =>
      var i := Found(s, request, tunnel);
      s.(table := Answered(s.table, tunnel, IdWritten(s, request)), answered := s.answered + {request},
         delivered := if i < 0 then s.delivered else s.delivered + [s.table.slots[i].serial])
  }

  // ---- What is kept

  predicate Occupied(slot: Slot) {
    slot.cid >= 0
  }

  /** The k-th CREATE REQ that was written carries the low sixteen bits of k, and the PATH it was issued for. */
  predicate WrittenInOrder(s: Desk) {
    && |CreateReqs(s.requests)| == |s.issued|
    && forall k :: 0 <= k < |s.issued| ==> CreateReqs(s.requests)[k] == CreateReq(k % 0x1_0000, s.issued[k].serial)
  }

  /** Ids are the low sixteen bits of request numbers. */
  predicate Numbered(s: Desk) {
    WrittenInOrder(s) && s.table.nextId == |s.issued| % 0x1_0000 && SlotsNumbered(s)
  }

  predicate SlotsNumbered(s: Desk) {
    forall i :: 0 <= i < MAX_PENDING ==>
        -1 <= s.carried[i] < |s.issued|
          && s.table.slots[i].mmid == (if s.carried[i] < 0 then -1 else s.carried[i] % 0x1_0000)
        && -1 <= s.table.slots[i].cid < 0x1_0000
  }

  /** A request that is still open sits in a slot of its own, with the PATH it was made for. */
  predicate Open(s: Desk)
    requires Numbered(s)
  {
    && (forall i :: 0 <= i < MAX_PENDING && s.carried[i] >= 0 && s.carried[i] !in s.answered ==>
          Occupied(s.table.slots[i]) && s.table.slots[i].kind.Path? && s.table.slots[i].waiting
            && !s.table.slots[i].deletes
          && s.issued[s.carried[i]] == Issue(s.table.slots[i].serial, s.table.slots[i].cid))
    && (forall i, j :: 0 <= i < j < MAX_PENDING && s.carried[i] >= 0 ==> s.carried[i] != s.carried[j])
  }

  /** Serial numbers tell questions apart, and each is put in at most one request. */
  predicate Serials(s: Desk)
    requires Numbered(s)
  {
    && (forall i :: 0 <= i < MAX_PENDING && Occupied(s.table.slots[i]) ==> s.table.slots[i].serial < s.asks)
    && (forall i, j :: 0 <= i < j < MAX_PENDING && Occupied(s.table.slots[i]) && Occupied(s.table.slots[j]) ==>
          s.table.slots[i].serial != s.table.slots[j].serial)
    && (forall r :: 0 <= r < |s.issued| ==> s.issued[r].serial < s.asks)
    && (forall r, i :: 0 <= r < |s.issued| && 0 <= i < MAX_PENDING && Unasked(s.table.slots[i]) ==>
          s.issued[r].serial != s.table.slots[i].serial)
    && (forall q, r :: 0 <= q < r < |s.issued| ==> s.issued[q].serial != s.issued[r].serial)
  }

  /** Everything delivered answers a request, and nothing is delivered twice. */
  ghost predicate Accounted(s: Desk) {
    && (forall q :: q in s.answered ==> q < |s.issued|)
    && (forall k :: 0 <= k < |s.delivered| ==> AnswersOne(s, s.delivered[k]))
    && (forall j, k :: 0 <= j < k < |s.delivered| ==> s.delivered[j] != s.delivered[k])
  }

  ghost predicate AnswersOne(s: Desk, serial: nat) {
    exists q :: q in s.answered && q < |s.issued| && s.issued[q].serial == serial
  }

  /** Fewer than 65536 requests have been issued since this one, and since any that an occupied slot remembers. */
  predicate Recent(s: Desk, request: nat) {
    && |s.issued| - request <= 0x1_0000
    && forall i :: 0 <= i < MAX_PENDING && Occupied(s.table.slots[i]) && s.carried[i] >= 0 ==>
         |s.issued| - s.carried[i] <= 0x1_0000
  }

  predicate Timely(s: Desk, e: Event) {
    e.Answers? ==> Recent(s, e.request)
  }

  lemma SameLowBits(a: nat, b: nat, top: nat)
    requires a < top && b < top && top - a <= 0x1_0000 && top - b <= 0x1_0000
    requires a % 0x1_0000 == b % 0x1_0000
    ensures a == b
  {
  }

  /** An answer finds the slot of its own request, or none. */
  lemma FindsItsOwn(s: Desk, request: nat, tunnel: u16)
    requires Numbered(s) && request < |s.issued| && Recent(s, request)
    ensures var i := Found(s, request, tunnel); i >= 0 ==> s.carried[i] == request && s.table.slots[i].cid == tunnel
  {
    var i := Found(s, request, tunnel);
    if i >= 0 { SameLowBits(s.carried[i], request, |s.issued|); }
  }

  // ---- One step

  lemma NumberedAsks(s: Desk, e: Event)
    requires e.Asks? && Numbered(s)
    ensures Numbered(Next(s, e))
  {
  }

  lemma WrittenChecks(s: Desk, e: Event)
    requires e.Checks? && e.i < MAX_PENDING && WrittenInOrder(s) && s.table.nextId == |s.issued| % 0x1_0000
    ensures WrittenInOrder(Next(s, e))
  {
    var more := Requests(s.table, e.i);
    if more == [] {
      assert s.requests + more == s.requests;
    } else {
      assert (s.requests + more)[..|s.requests|] == s.requests;
    }
  }

  lemma NumberedChecks(s: Desk, e: Event)
    requires e.Checks? && e.i < MAX_PENDING && Numbered(s)
    ensures Numbered(Next(s, e))
  {
    WrittenChecks(s, e);
    SlotsChecks(s, e);
    hide WrittenInOrder, SlotsNumbered, CreateReqs;
  }

  lemma SlotsChecks(s: Desk, e: Event)
    requires e.Checks? && e.i < MAX_PENDING && SlotsNumbered(s) && s.table.nextId == |s.issued| % 0x1_0000
    ensures SlotsNumbered(Next(s, e))
  {
    hide CreateReqs;
  }

  lemma NumberedAnswers(s: Desk, e: Event)
    requires e.Answers? && Enabled(s, e) && Numbered(s)
    ensures Numbered(Next(s, e))
  {
  }

  lemma OpenAsks(s: Desk, e: Event)
    requires e.Asks? && Numbered(s) && Open(s)
    ensures Numbered(Next(s, e)) && Open(Next(s, e))
  {
    NumberedAsks(s, e);
  }

  lemma OpenChecks(s: Desk, e: Event)
    requires e.Checks? && e.i < MAX_PENDING && Numbered(s) && Open(s)
    requires forall q :: q in s.answered ==> q < |s.issued|
    ensures Numbered(Next(s, e)) && Open(Next(s, e))
  {
    NumberedChecks(s, e);
  }

  lemma OpenAnswers(s: Desk, e: Event)
    requires e.Answers? && Enabled(s, e) && Numbered(s) && Open(s) && Recent(s, e.request)
    ensures Numbered(Next(s, e)) && Open(Next(s, e))
  {
    NumberedAnswers(s, e);
    FindsItsOwn(s, e.request, e.tunnel);
  }

  lemma SerialsAsks(s: Desk, e: Event)
    requires e.Asks? && Numbered(s) && Serials(s)
    ensures Numbered(Next(s, e)) && Serials(Next(s, e))
  {
    NumberedAsks(s, e);
  }

  lemma SerialsChecks(s: Desk, e: Event)
    requires e.Checks? && e.i < MAX_PENDING && Numbered(s) && Serials(s)
    ensures Numbered(Next(s, e)) && Serials(Next(s, e))
  {
    NumberedChecks(s, e);
  }

  lemma SerialsAnswers(s: Desk, e: Event)
    requires e.Answers? && Enabled(s, e) && Numbered(s) && Serials(s)
    ensures Numbered(Next(s, e)) && Serials(Next(s, e))
  {
    NumberedAnswers(s, e);
  }

  lemma AccountedAnswers(s: Desk, e: Event)
    requires e.Answers? && Enabled(s, e) && Numbered(s) && Open(s) && Serials(s) && Accounted(s) && Recent(s, e.request)
    ensures Accounted(Next(s, e))
  {
    var t := Next(s, e);
    FindsItsOwn(s, e.request, e.tunnel);
    forall k | 0 <= k < |s.delivered|
      ensures AnswersOne(t, s.delivered[k])
      ensures s.delivered[k] != s.issued[e.request].serial
    {
      assert AnswersOne(s, s.delivered[k]);
      var q :| q in s.answered && q < |s.issued| && s.issued[q].serial == s.delivered[k];
      assert q in t.answered;
      if q < e.request { assert s.issued[q].serial != s.issued[e.request].serial; }
      if q > e.request { assert s.issued[e.request].serial != s.issued[q].serial; }
    }
    assert e.request in t.answered;
    if Found(s, e.request, e.tunnel) >= 0 {
      assert AnswersOne(t, s.issued[e.request].serial);
    }
  }

  lemma AccountedOther(s: Desk, e: Event)
    requires !e.Answers? && Enabled(s, e) && Numbered(s) && Accounted(s)
    ensures Accounted(Next(s, e))
  {
    var t := Next(s, e);
    forall k | 0 <= k < |s.delivered|
      ensures AnswersOne(t, s.delivered[k])
    {
      assert AnswersOne(s, s.delivered[k]);
      var q :| q in s.answered && q < |s.issued| && s.issued[q].serial == s.delivered[k];
      assert t.issued[q] == s.issued[q];
    }
  }

  ghost predicate Sound(s: Desk) {
    Numbered(s) && Open(s) && Serials(s) && Accounted(s)
  }

  lemma SoundStep(s: Desk, e: Event)
    requires Enabled(s, e) && Sound(s) && Timely(s, e)
    ensures Sound(Next(s, e))
  {
    match e
    case Asks(_, _, _) =>
      OpenAsks(s, e);
      SerialsAsks(s, e);
      AccountedOther(s, e);
    case Checks(_) =>
      OpenChecks(s, e);
      SerialsChecks(s, e);
      AccountedOther(s, e);
    case Answers(_, _) =>
      OpenAnswers(s, e);
      SerialsAnswers(s, e);
      AccountedAnswers(s, e);
  }

  // ---- Every run

  /** Questions, checks of any slot, and answers, in any order, none of the answers too late. */
  ghost predicate Behaviour(run: seq<Desk>) {
    run != [] && run[0] == NewDesk() && forall i :: 0 <= i < |run| - 1 ==> Follows(run[i], run[i + 1])
  }

  ghost predicate Follows(s: Desk, t: Desk) {
    exists e :: StepBy(s, e, t)
  }

  predicate StepBy(s: Desk, e: Event, t: Desk) {
    Enabled(s, e) && Timely(s, e) && t == Next(s, e)
  }

  lemma {:induction false} SoundThroughout(run: seq<Desk>, i: nat)
    requires Behaviour(run) && i < |run|
    ensures Sound(run[i])
  {
    if i > 0 {
      SoundThroughout(run, i - 1);
      assert Follows(run[i - 1], run[i - 1 + 1]);
      var e :| StepBy(run[i - 1], e, run[i]);
      SoundStep(run[i - 1], e);
    }
  }

  /** In every run the k-th CREATE REQ that is written carries the id k, modulo 65536, and the question it was issued
      for; a slot that carries it remembers that id. */
  lemma IdsInOrder(run: seq<Desk>, n: nat, k: nat)
    requires Behaviour(run) && n < |run| && k < |run[n].issued|
    ensures |CreateReqs(run[n].requests)| == |run[n].issued|
    ensures CreateReqs(run[n].requests)[k] == CreateReq(k % 0x1_0000, run[n].issued[k].serial)
    ensures forall i :: 0 <= i < MAX_PENDING && run[n].carried[i] == k
                        ==> run[n].table.slots[i].mmid == CreateReqs(run[n].requests)[k].id
  {
    SoundThroughout(run, n);
  }

  /** The requests that wait for an answer have different ids, as long as each is among the last 65536. */
  lemma {:induction false} WaitingIdsDiffer(run: seq<Desk>, n: nat, i: nat, j: nat)
    requires Behaviour(run) && n < |run| && i < j < MAX_PENDING
    requires run[n].carried[i] >= 0 && run[n].carried[j] >= 0
    requires |run[n].issued| - run[n].carried[i] <= 0x1_0000 && |run[n].issued| - run[n].carried[j] <= 0x1_0000
    ensures run[n].table.slots[i].mmid != run[n].table.slots[j].mmid
  {
    SoundThroughout(run, n);
    var s := run[n];
    if s.carried[i] % 0x1_0000 == s.carried[j] % 0x1_0000 {
      SameLowBits(s.carried[i], s.carried[j], |s.issued|);
      assert false;
    }
  }

  /** Whatever an answer delivers is the PATH that its request was about, of the tunnel it names, and it has not been
      delivered before. */
  lemma Correlated(run: seq<Desk>, n: nat, request: nat, tunnel: u16)
    requires Behaviour(run) && n < |run|
    requires Enabled(run[n], Answers(request, tunnel)) && Recent(run[n], request)
    requires Found(run[n], request, tunnel) >= 0
    ensures var s := run[n]; var slot := s.table.slots[Found(s, request, tunnel)];
      && request < |CreateReqs(s.requests)| && 0 <= slot.mmid < 0x1_0000
      && slot.kind.Path? && !slot.deletes && slot.cid == tunnel && s.issued[request] == Issue(slot.serial, tunnel)
      && slot.serial !in s.delivered && CreateReqs(s.requests)[request] == CreateReq(slot.mmid, slot.serial)
  {
    SoundThroughout(run, n);
    FindsItsOwn(run[n], request, tunnel);
    AccountedAnswers(run[n], Answers(request, tunnel));
    var s, t := run[n], Next(run[n], Answers(request, tunnel));
    assert t.delivered == s.delivered + [s.table.slots[Found(s, request, tunnel)].serial];
    forall k | 0 <= k < |s.delivered|
      ensures s.delivered[k] != t.delivered[|s.delivered|]
    {
      assert t.delivered[k] == s.delivered[k];
    }
  }

  lemma {:induction false} FindReaches(slots: seq<Slot>, i: nat, j: nat, tunnel: u16, id: u16)
    requires i <= j < |slots| && slots[j].cid == tunnel && slots[j].mmid == id
    requires forall k :: i <= k < j ==> !(slots[k].cid == tunnel && slots[k].mmid == id)
    ensures Find(slots, i, tunnel, id) == j <==> forall k :: i <= k < j ==> slots[k].mmid != -1
    decreases j - i
  {
    if i < j { FindReaches(slots, i + 1, j, tunnel, id); }
  }

  /** An answer to an open request, with its tunnel, is delivered exactly when no slot before the one it waits in has
      never carried a request: the search stops at such a slot. */
  lemma DeliveredExactly(s: Desk, j: nat)
    requires Sound(s) && j < MAX_PENDING && s.carried[j] >= 0 && s.carried[j] !in s.answered && Recent(s, s.carried[j])
    ensures Found(s, s.carried[j], s.table.slots[j].cid) == j <==> forall k :: 0 <= k < j ==> s.carried[k] >= 0
  {
    var request, tunnel: u16 := s.carried[j], s.table.slots[j].cid;
    forall k | 0 <= k < j
      ensures !(s.table.slots[k].cid == tunnel && s.table.slots[k].mmid == request % 0x1_0000)
    {
      if s.table.slots[k].cid == tunnel && s.table.slots[k].mmid == request % 0x1_0000 {
        SameLowBits(s.carried[k], request, |s.issued|);
      }
    }
    FindReaches(s.table.slots, 0, j, tunnel, request % 0x1_0000);
  }

  /** Which does happen: a RESV reported before the first PATH leaves such a slot behind, and the answer is lost. */
  lemma AnswerLost()
    ensures var a := Next(NewDesk(), Asks(7, Resv, false)); var b := Next(a, Asks(8, Path, false));
      var c := Next(b, Checks(0)); var d := Next(c, Checks(1));
      && d.requests == [CreateReq(0, 1)] && d.issued == [Issue(1, 8)] && d.table.slots[1].waiting
      && Enabled(d, Answers(0, 8)) && Found(d, 0, 8) == -1
  {
    var a := Next(NewDesk(), Asks(7, Resv, false));
    assert FirstFree(NewDesk().table.slots, 0) == 0;
    assert FirstFree(a.table.slots, 0) == FirstFree(a.table.slots, 1) == 1;
  }

  // ---- The object

  class Interface {
    const pending: array<Slot>
    var nextId: u16
    /** What has been written to the manager about PATHs, oldest first. */
    var requests: seq<Request>

    ghost predicate Valid()
      reads this
    {
      pending.Length == MAX_PENDING
    }

    ghost function View(): Table
      reads this, pending
    {
      Table(pending[..], nextId)
    }

    constructor ()
      ensures Valid() && fresh(pending) && nextId == 0 && requests == []
      ensures forall i :: 0 <= i < MAX_PENDING ==> pending[i] == NEVER_USED
    {
      pending := new Slot[MAX_PENDING](_ => NEVER_USED);
      nextId := 0;
      requests := [];
    }

    /** `ask_gui`, while the manager is connected. */
    method AskGui(cid: u16, kind: Kind, deletes: bool, serial: nat) returns (code: int)
      requires Valid()
      modifies this, pending
      ensures Valid() && requests == old(requests)
      ensures View() == Queued(old(View()), cid, kind, deletes, serial)
      ensures code == if forall i :: 0 <= i < MAX_PENDING ==> old(pending[i].cid) != -1 then ERROR_BUF_2_SMALL else 0
    {
      var t := 0;
      while t < MAX_PENDING && pending[t].cid != -1
        invariant t <= MAX_PENDING
        invariant forall i :: 0 <= i < t ==> pending[i].cid != -1
        invariant FirstFree(pending[..], 0) == FirstFree(pending[..], t)
      {
        t := t + 1;
      }
      if t == MAX_PENDING {
        return ERROR_BUF_2_SMALL;
      }
      pending[t] := Slot(cid, kind, deletes, serial, pending[t].mmid, false);
      assert pending[..] == old(pending[..])[t := pending[t]];
      code := 0;
    }

    /** `check_pending_rsvp_packet`. */
    method CheckSlot(i: nat)
      requires Valid() && i < MAX_PENDING
      modifies this, pending
      ensures Valid()
      ensures View() == Check(old(View()), i)
      ensures requests == old(requests) + Requests(old(View()), i)
    {
      var s := pending[i];
      if s.cid < 0 {
        return;
      }
      if s.kind == Path {
        if s.waiting {
          return;
        }
        if s.deletes {
          requests := requests + [DeleteReq(s.serial)];
          pending[i] := s.(waiting := true);
        } else {
          requests := requests + [CreateReq(nextId, s.serial)];
          pending[i] := s.(mmid := nextId, waiting := true);
          nextId := (nextId + 1) % 0x1_0000;
        }
      } else {
        pending[i] := s.(cid := -1);
      }
      assert pending[..] == old(pending[..])[i := pending[i]];
    }

    /** `find_pending_rsvp_packet`. */
    method FindPending(tunnel: u16, id: u16) returns (r: int)
      requires Valid()
      ensures r == Find(pending[..], 0, tunnel, id)
    {
      for i := 0 to MAX_PENDING
        invariant Find(pending[..], 0, tunnel, id) == Find(pending[..], i, tunnel, id)
      {
        if pending[i].mmid == -1 {
          return -1;
        }
        if pending[i].cid == tunnel && pending[i].mmid == id {
          return i;
        }
      }
      r := -1;
    }

    /** The ACK and NACK branches of `check_pending_mgnt_packet`: the PATH to deliver, if one is found. */
    method TakeAnswered(tunnel: u16, id: u16) returns (found: bool, slot: Slot)
      requires Valid()
      modifies pending
      ensures Valid() && View() == Answered(old(View()), tunnel, id)
      ensures var i := Find(old(pending[..]), 0, tunnel, id);
        (found <==> i >= 0) && (found ==> slot == old(pending[..])[i])
    {
      var i := FindPending(tunnel, id);
      found := i >= 0;
      slot := pending[if found then i else 0];
      if found {
        pending[i] := pending[i].(cid := -1);
        assert pending[..] == old(pending[..])[i := pending[i]];
      }
    }
  }
}
