/** The semaphores of the agent: the table of connections, one per connection, and the message id counter. Every
    thread takes them in that order, so some thread can always go on; and how many may be inside a connection at once
    depends on the releases made too early. */
module Locks {

  /** Number 0 is `registered_conns_access`, 1 to n are the `access` semaphores of the connections, and n + 1 is
      `message_id_sem`. */
  type Lock = nat

  const REGISTERED: Lock := 0

  function Access(c: nat): Lock {
    c + 1
  }

  function MessageId(n: nat): Lock {
    n + 1
  }

  function Rank(l: Lock, n: nat): nat {
    if l == REGISTERED then 0 else if l <= n then 1 else 2
  }

  /** `Early` is a release by a thread that stays inside and will release again. */
  datatype Op = Wait(l: Lock) | Signal(l: Lock) | Early(l: Lock)

  // ---- What the code does

  /** Any number of message ids. */
  function Ids(k: nat, n: nat): seq<Op> {
    if k == 0 then [] else [Wait(MessageId(n)), Signal(MessageId(n))] + Ids(k - 1, n)
  }

  /** `get_packet`, `create_path`, `destroy_path`, and the ticks of `refresh_path`: one section under `access`, with any
      number of message ids. A RESV with the D flag releases the semaphore in the middle as well. */
  function Section(c: nat, k: nat, early: bool, n: nat): seq<Op> {
    [Wait(Access(c))] + (Ids(k, n) + ((if early then [Early(Access(c))] else []) + [Signal(Access(c))]))
  }

  /** Registering, unregistering and looking up a connection. */
  const LOOKUP: seq<Op> := [Wait(REGISTERED), Signal(REGISTERED)]

  datatype Activity =
    | Delivery(c: nat, k: nat, early: bool)       // deliver, and receiver_thread for a known tunnel
    | Arrival(c: nat, j: nat, k: nat, early: bool) // receiver_thread for a new tunnel
    | Creation(c: nat, j: nat, k: nat)            // CREATE REQ
    | Destruction(c: nat, k: nat)                 // DELETE REQ
    | Refresh(c: nat, k: nat)                     // refresh_path
    | Lookup                                      // get_connection_state, get_connection_configuration
    | Report(cs: seq<nat>)                        // report_paths, which asks each connection for its state

  function Program(a: Activity, n: nat): seq<Op> {
    match a
    case Delivery(c, k, early) => [Wait(REGISTERED)] + (Section(c, k, early, n) + [Signal(REGISTERED)])
    case Arrival(c, j, k, early) => LOOKUP + (Ids(j, n) + (LOOKUP + Section(c, k, early, n)))
    case Creation(c, j, k) => Ids(j, n) + (LOOKUP + Section(c, k, false, n))
    case Destruction(c, k) => LOOKUP + Section(c, k, false, n)
    case Refresh(c, k) => Section(c, k, false, n)
    case Lookup => LOOKUP
    case Report(cs) => [Wait(REGISTERED)] + (Visits(cs, n) + [Signal(REGISTERED)])
  }

  function Visits(cs: seq<nat>, n: nat): seq<Op> {
    if cs == [] then [] else Section(cs[0], 0, false, n) + Visits(cs[1..], n)
  }

  predicate InRange(a: Activity, n: nat) {
    match a
    case Lookup => true
    case Report(cs) => forall i :: 0 <= i < |cs| ==> cs[i] < n
    case _ => a.c < n
  }

  /** One activity after another. */
  function Thread(activities: seq<Activity>, n: nat): seq<Op> {
    if activities == [] then [] else Program(activities[0], n) + Thread(activities[1..], n)
  }

  // ---- Order

  /** A thread that holds `held` waits only for locks above them, releases only what it holds, and ends with nothing. */
  predicate Ordered(held: set<Lock>, ops: seq<Op>, n: nat)
    decreases |ops|
  {
    if ops == [] then held == {}
    else
      match ops[0]
      case Wait(l) => l <= n + 1 && (forall h :: h in held ==> Rank(h, n) < Rank(l, n))
        && Ordered(held + {l}, ops[1..], n)
      case Signal(l) => l in held && Ordered(held - {l}, ops[1..], n)
      case Early(l) => l in held && Ordered(held, ops[1..], n)
  }

  /** What is left after a stretch that starts with `held` and ends with `left`. */
  predicate Leads(held: set<Lock>, ops: seq<Op>, left: set<Lock>, n: nat)
    decreases |ops|
  {
    if ops == [] then held == left
    else
      match ops[0]
      case Wait(l) => l <= n + 1 && (forall h :: h in held ==> Rank(h, n) < Rank(l, n))
        && Leads(held + {l}, ops[1..], left, n)
      case Signal(l) => l in held && Leads(held - {l}, ops[1..], left, n)
      case Early(l) => l in held && Leads(held, ops[1..], left, n)
  }

  lemma {:induction false} Chain(held: set<Lock>, a: seq<Op>, mid: set<Lock>, b: seq<Op>, left: set<Lock>, n: nat)
    requires Leads(held, a, mid, n) && Leads(mid, b, left, n)
    ensures Leads(held, a + b, left, n)
    decreases |a|
  {
    if a == [] {
      assert a + b == b;
    } else {
      assert (a + b)[1..] == a[1..] + b;
      match a[0]
      case Wait(l) => Chain(held + {l}, a[1..], mid, b, left, n);
      case Signal(l) => Chain(held - {l}, a[1..], mid, b, left, n);
      case Early(l) => Chain(held, a[1..], mid, b, left, n);
    }
  }

  lemma One(held: set<Lock>, op: Op, left: set<Lock>, n: nat)
    requires match op
      case Wait(l) => l <= n + 1 && (forall h :: h in held ==> Rank(h, n) < Rank(l, n)) && left == held + {l}
      case Signal(l) => l in held && left == held - {l}
      case Early(l) => l in held && left == held
    ensures Leads(held, [op], left, n)
  {
    assert [op][1..] == [];
    assert Leads(left, [], left, n);
  }

  lemma {:induction false} Two(held: set<Lock>, l: Lock, n: nat)
    requires l <= n + 1 && l !in held && forall h :: h in held ==> Rank(h, n) < Rank(l, n)
    ensures Leads(held, [Wait(l), Signal(l)], held, n)
  {
    One(held, Wait(l), held + {l}, n);
    assert held + {l} - {l} == held;
    One(held + {l}, Signal(l), held, n);
    Chain(held, [Wait(l)], held + {l}, [Signal(l)], held, n);
    assert [Wait(l)] + [Signal(l)] == [Wait(l), Signal(l)];
  }

  lemma {:induction false} IdsLead(held: set<Lock>, k: nat, n: nat)
    requires forall h :: h in held ==> h <= n
    ensures Leads(held, Ids(k, n), held, n)
  {
    if k > 0 {
      Two(held, MessageId(n), n);
      IdsLead(held, k - 1, n);
      Chain(held, [Wait(MessageId(n)), Signal(MessageId(n))], held, Ids(k - 1, n), held, n);
    }
  }

  lemma {:induction false} SectionLeads(held: set<Lock>, c: nat, k: nat, early: bool, n: nat)
    requires c < n && held <= {REGISTERED}
    ensures Leads(held, Section(c, k, early, n), held, n)
  {
    var inside := held + {Access(c)};
    var tail := (if early then [Early(Access(c))] else []) + [Signal(Access(c))];
    One(held, Wait(Access(c)), inside, n);
    IdsLead(inside, k, n);
    assert inside - {Access(c)} == held;
    One(inside, Signal(Access(c)), held, n);
    if early {
      One(inside, Early(Access(c)), inside, n);
      Chain(inside, [Early(Access(c))], inside, [Signal(Access(c))], held, n);
    } else {
      assert tail == [Signal(Access(c))];
    }
    Chain(inside, Ids(k, n), inside, tail, held, n);
    Chain(held, [Wait(Access(c))], inside, Ids(k, n) + tail, held, n);
  }

  lemma {:induction false} LookupLeads(n: nat)
    ensures Leads({}, LOOKUP, {}, n)
  {
    Two({}, REGISTERED, n);
  }

  /** Everything the agent does takes its locks in order and gives them all back. */
  lemma {:induction false} ProgramLeads(a: Activity, n: nat)
    requires InRange(a, n)
    ensures Leads({}, Program(a, n), {}, n)
  {
    LookupLeads(n);
    match a
    case Delivery(c, k, early) =>
      One({}, Wait(REGISTERED), {REGISTERED}, n);
      SectionLeads({REGISTERED}, c, k, early, n);
      One({REGISTERED}, Signal(REGISTERED), {}, n);
      Chain({REGISTERED}, Section(c, k, early, n), {REGISTERED}, [Signal(REGISTERED)], {}, n);
      Chain({}, [Wait(REGISTERED)], {REGISTERED}, Section(c, k, early, n) + [Signal(REGISTERED)], {}, n);
    case Arrival(c, j, k, early) =>
      SectionLeads({}, c, k, early, n);
      IdsLead({}, j, n);
      Chain({}, LOOKUP, {}, Section(c, k, early, n), {}, n);
      Chain({}, Ids(j, n), {}, LOOKUP + Section(c, k, early, n), {}, n);
      Chain({}, LOOKUP, {}, Ids(j, n) + (LOOKUP + Section(c, k, early, n)), {}, n);
    case Creation(c, j, k) =>
      SectionLeads({}, c, k, false, n);
      IdsLead({}, j, n);
      Chain({}, LOOKUP, {}, Section(c, k, false, n), {}, n);
      Chain({}, Ids(j, n), {}, LOOKUP + Section(c, k, false, n), {}, n);
    case Destruction(c, k) =>
      SectionLeads({}, c, k, false, n);
      Chain({}, LOOKUP, {}, Section(c, k, false, n), {}, n);
    case Refresh(c, k) => SectionLeads({}, c, k, false, n);
    case Lookup =>
    case Report(cs) =>
      One({}, Wait(REGISTERED), {REGISTERED}, n);
      VisitsLead(cs, n);
      One({REGISTERED}, Signal(REGISTERED), {}, n);
      Chain({REGISTERED}, Visits(cs, n), {REGISTERED}, [Signal(REGISTERED)], {}, n);
      Chain({}, [Wait(REGISTERED)], {REGISTERED}, Visits(cs, n) + [Signal(REGISTERED)], {}, n);
  }

  lemma {:induction false} VisitsLead(cs: seq<nat>, n: nat)
    requires forall i :: 0 <= i < |cs| ==> cs[i] < n
    ensures Leads({REGISTERED}, Visits(cs, n), {REGISTERED}, n)
  {
    if cs != [] {
      SectionLeads({REGISTERED}, cs[0], 0, false, n);
      VisitsLead(cs[1..], n);
      Chain({REGISTERED}, Section(cs[0], 0, false, n), {REGISTERED}, Visits(cs[1..], n), {REGISTERED}, n);
    }
  }

  lemma {:induction false} LeadsOrdered(held: set<Lock>, ops: seq<Op>, n: nat)
    requires Leads(held, ops, {}, n)
    ensures Ordered(held, ops, n)
    decreases |ops|
  {
    if ops != [] {
      match ops[0]
      case Wait(l) => LeadsOrdered(held + {l}, ops[1..], n);
      case Signal(l) => LeadsOrdered(held - {l}, ops[1..], n);
      case Early(l) => LeadsOrdered(held, ops[1..], n);
    }
  }

  lemma {:induction false} ThreadOrdered(activities: seq<Activity>, n: nat)
    requires forall i :: 0 <= i < |activities| ==> InRange(activities[i], n)
    ensures Leads({}, Thread(activities, n), {}, n) && Ordered({}, Thread(activities, n), n)
  {
    if activities != [] {
      ThreadOrdered(activities[1..], n);
      ProgramLeads(activities[0], n);
      Chain({}, Program(activities[0], n), {}, Thread(activities[1..], n), {}, n);
    }
    LeadsOrdered({}, Thread(activities, n), n);
  }

  // ---- What each activity takes

  function Count(ops: seq<Op>, op: Op): nat {
    if ops == [] then 0 else (if ops[0] == op then 1 else 0) + Count(ops[1..], op)
  }

  lemma {:induction false} CountJoin(a: seq<Op>, b: seq<Op>, op: Op)
    ensures Count(a + b, op) == Count(a, op) + Count(b, op)
  {
    if a == [] {
      assert a + b == b;
    } else {
      assert (a + b)[1..] == a[1..] + b;
      CountJoin(a[1..], b, op);
    }
  }

  lemma CountTwo(a: Op, b: Op, op: Op)
    ensures Count([a], op) == if a == op then 1 else 0
    ensures Count([a, b], op) == (if a == op then 1 else 0) + if b == op then 1 else 0
  {
    assert [a][1..] == [] && [a, b][1..] == [b] && [b][1..] == [];
  }

  lemma {:induction false} CountIds(k: nat, n: nat, op: Op)
    requires op.Wait? || op.Early?
    ensures Count(Ids(k, n), op) == if op == Wait(MessageId(n)) then k else 0
  {
    if k > 0 {
      CountIds(k - 1, n, op);
      CountTwo(Wait(MessageId(n)), Signal(MessageId(n)), op);
      CountJoin([Wait(MessageId(n)), Signal(MessageId(n))], Ids(k - 1, n), op);
    }
  }

  lemma CountSection(c: nat, k: nat, early: bool, n: nat, op: Op)
    requires op.Wait? || op.Early?
    ensures Count(Section(c, k, early, n), op)
      == (if op == Wait(Access(c)) then 1 else 0) + (if op == Wait(MessageId(n)) then k else 0)
        + if early && op == Early(Access(c)) then 1 else 0
  {
    var release := if early then [Early(Access(c))] else [];
    CountIds(k, n, op);
    CountTwo(Wait(Access(c)), Signal(Access(c)), op);
    CountTwo(Early(Access(c)), Signal(Access(c)), op);
    CountTwo(Signal(Access(c)), Signal(Access(c)), op);
    CountJoin(release, [Signal(Access(c))], op);
    CountJoin(Ids(k, n), release + [Signal(Access(c))], op);
    CountJoin([Wait(Access(c))], Ids(k, n) + (release + [Signal(Access(c))]), op);
  }

  /** How often an activity looks into the table of connections: a message for a new tunnel once to find that it is
      new and once to register it. */
  function TableUses(a: Activity): nat {
    match a
    case Arrival(_, _, _, _) => 2
    case Refresh(_, _) => 0
    case _ => 1
  }

  function IdsUsed(a: Activity): nat {
    match a
    case Delivery(_, k, _) => k
    case Arrival(_, j, k, _) => j + k
    case Creation(_, j, k) => j + k
    case Destruction(_, k) => k
    case Refresh(_, k) => k
    case _ => 0
  }

  /** How often it enters the connection. */
  function Entries(a: Activity, c: nat): nat {
    match a
    case Lookup => 0
    case Report(cs) => multiset(cs)[c]
    case _ => if a.c == c then 1 else 0
  }

  lemma {:induction false} CountVisits(cs: seq<nat>, n: nat, op: Op)
    requires (op.Wait? || op.Early?) && forall i :: 0 <= i < |cs| ==> cs[i] < n
    ensures Count(Visits(cs, n), op)
      == if op.Wait? && 1 <= op.l <= n then multiset(cs)[op.l - 1] else 0
  {
    if cs != [] {
      CountSection(cs[0], 0, false, n, op);
      CountJoin(Section(cs[0], 0, false, n), Visits(cs[1..], n), op);
      CountVisits(cs[1..], n, op);
      assert cs == [cs[0]] + cs[1..];
    }
  }

  lemma CountLookup(op: Op)
    ensures Count(LOOKUP, op) == if op.l == REGISTERED && !op.Early? then 1 else 0
  {
    CountTwo(Wait(REGISTERED), Signal(REGISTERED), op);
  }

  /** What an operation adds up to in an activity. */
  function Total(a: Activity, n: nat, op: Op): nat {
    match op
    case Wait(l) =>
      if l == REGISTERED then TableUses(a) else if l == MessageId(n) then IdsUsed(a)
      else if l <= n then Entries(a, l - 1) else 0
    case Early(l) =>
      if (a.Delivery? || a.Arrival?) && a.early && l == Access(a.c) then 1 else 0
    case Signal(_) => 0
  }

  /** Every activity takes the table, the message ids and its connections as often as it has to, and releases a
      connection early exactly when told to. */
  lemma {:induction false} ProgramTakes(a: Activity, n: nat, op: Op)
    requires InRange(a, n) && (op.Wait? || op.Early?)
    ensures Count(Program(a, n), op) == Total(a, n, op)
  {
    hide Section, Ids, Visits, Count;
    CountLookup(op);
    CountTwo(Wait(REGISTERED), Signal(REGISTERED), op);
    CountTwo(Signal(REGISTERED), Signal(REGISTERED), op);
    match a
    case Delivery(c, k, early) =>
      CountSection(c, k, early, n, op);
      CountJoin(Section(c, k, early, n), [Signal(REGISTERED)], op);
      CountJoin([Wait(REGISTERED)], Section(c, k, early, n) + [Signal(REGISTERED)], op);
    case Arrival(c, j, k, early) =>
      CountSection(c, k, early, n, op);
      CountIds(j, n, op);
      CountJoin(LOOKUP, Section(c, k, early, n), op);
      CountJoin(Ids(j, n), LOOKUP + Section(c, k, early, n), op);
      CountJoin(LOOKUP, Ids(j, n) + (LOOKUP + Section(c, k, early, n)), op);
    case Creation(c, j, k) =>
      CountSection(c, k, false, n, op);
      CountIds(j, n, op);
      CountJoin(LOOKUP, Section(c, k, false, n), op);
      CountJoin(Ids(j, n), LOOKUP + Section(c, k, false, n), op);
    case Destruction(c, k) =>
      CountSection(c, k, false, n, op);
      CountJoin(LOOKUP, Section(c, k, false, n), op);
    case Refresh(c, k) => CountSection(c, k, false, n, op);
    case Lookup =>
    case Report(cs) =>
      CountVisits(cs, n, op);
      CountJoin(Visits(cs, n), [Signal(REGISTERED)], op);
      CountJoin([Wait(REGISTERED)], Visits(cs, n) + [Signal(REGISTERED)], op);
  }

  /** Whoever enters a connection does so with the table held, or without, as said. */
  predicate Enters(held: set<Lock>, ops: seq<Op>, inTable: bool, n: nat)
    decreases |ops|
  {
    ops == [] ||
    match ops[0]
    case Wait(l) => (1 <= l <= n ==> (REGISTERED in held <==> inTable)) && Enters(held + {l}, ops[1..], inTable, n)
    case Signal(l) => Enters(held - {l}, ops[1..], inTable, n)
    case Early(l) => Enters(held, ops[1..], inTable, n)
  }

  lemma {:induction false} EntersJoin(held: set<Lock>, a: seq<Op>, mid: set<Lock>, b: seq<Op>, inTable: bool, n: nat)
    requires Leads(held, a, mid, n) && Enters(held, a, inTable, n) && Enters(mid, b, inTable, n)
    ensures Enters(held, a + b, inTable, n)
    decreases |a|
  {
    if a == [] {
      assert a + b == b;
    } else {
      assert (a + b)[1..] == a[1..] + b;
      match a[0]
      case Wait(l) => EntersJoin(held + {l}, a[1..], mid, b, inTable, n);
      case Signal(l) => EntersJoin(held - {l}, a[1..], mid, b, inTable, n);
      case Early(l) => EntersJoin(held, a[1..], mid, b, inTable, n);
    }
  }

  /** Without a connection among them it does not matter whether the table is held. */
  predicate NoEntry(ops: seq<Op>, n: nat) {
    forall i :: 0 <= i < |ops| && ops[i].Wait? ==> !(1 <= ops[i].l <= n)
  }

  lemma {:induction false} NoEntryEnters(held: set<Lock>, ops: seq<Op>, inTable: bool, n: nat)
    requires NoEntry(ops, n)
    ensures Enters(held, ops, inTable, n)
    decreases |ops|
  {
    if ops != [] {
      match ops[0]
      case Wait(l) => NoEntryEnters(held + {l}, ops[1..], inTable, n);
      case Signal(l) => NoEntryEnters(held - {l}, ops[1..], inTable, n);
      case Early(l) => NoEntryEnters(held, ops[1..], inTable, n);
    }
  }

  lemma {:induction false} IdsNoEntry(k: nat, n: nat)
    ensures NoEntry(Ids(k, n), n)
  {
    if k > 0 { IdsNoEntry(k - 1, n); }
  }

  lemma SectionEnters(held: set<Lock>, c: nat, k: nat, early: bool, n: nat)
    requires c < n
    ensures Enters(held, Section(c, k, early, n), REGISTERED in held, n)
  {
    var rest := Ids(k, n) + ((if early then [Early(Access(c))] else []) + [Signal(Access(c))]);
    IdsNoEntry(k, n);
    NoEntryEnters(held + {Access(c)}, rest, REGISTERED in held, n);
    assert Section(c, k, early, n)[1..] == rest;
  }

  lemma {:induction false} VisitsEnter(cs: seq<nat>, n: nat)
    requires forall i :: 0 <= i < |cs| ==> cs[i] < n
    ensures Enters({REGISTERED}, Visits(cs, n), true, n)
  {
    if cs != [] {
      SectionLeads({REGISTERED}, cs[0], 0, false, n);
      SectionEnters({REGISTERED}, cs[0], 0, false, n);
      VisitsEnter(cs[1..], n);
      EntersJoin({REGISTERED}, Section(cs[0], 0, false, n), {REGISTERED}, Visits(cs[1..], n), true, n);
    }
  }

  lemma InsideTable(ops: seq<Op>, n: nat)
    requires Enters({REGISTERED}, ops, true, n) && Leads({REGISTERED}, ops, {REGISTERED}, n)
    ensures Enters({}, [Wait(REGISTERED)] + (ops + [Signal(REGISTERED)]), true, n)
  {
    var all := [Wait(REGISTERED)] + (ops + [Signal(REGISTERED)]);
    NoEntryEnters({REGISTERED}, [Signal(REGISTERED)], true, n);
    EntersJoin({REGISTERED}, ops, {REGISTERED}, [Signal(REGISTERED)], true, n);
    assert all[1..] == ops + [Signal(REGISTERED)];
    assert {} + {REGISTERED} == {REGISTERED};
  }

  /** A delivery to a known tunnel and a report hold the table while they are inside a connection; nothing else does. */
  lemma ProgramEnters(a: Activity, n: nat)
    requires InRange(a, n)
    ensures Enters({}, Program(a, n), a.Delivery? || a.Report?, n)
  {
    LookupLeads(n);
    match a
    case Delivery(c, k, early) =>
      SectionLeads({REGISTERED}, c, k, early, n);
      SectionEnters({REGISTERED}, c, k, early, n);
      InsideTable(Section(c, k, early, n), n);
    case Arrival(c, j, k, early) =>
      AfterLookup(c, k, early, n);
      BeforeIds(j, LOOKUP + Section(c, k, early, n), n);
      NoEntryEnters({}, LOOKUP, false, n);
      EntersJoin({}, LOOKUP, {}, Ids(j, n) + (LOOKUP + Section(c, k, early, n)), false, n);
    case Creation(c, j, k) =>
      AfterLookup(c, k, false, n);
      BeforeIds(j, LOOKUP + Section(c, k, false, n), n);
    case Destruction(c, k) => AfterLookup(c, k, false, n);
    case Refresh(c, k) => SectionEnters({}, c, k, false, n);
    case Lookup => NoEntryEnters({}, LOOKUP, false, n);
    case Report(cs) =>
      VisitsLead(cs, n);
      VisitsEnter(cs, n);
      InsideTable(Visits(cs, n), n);
  }

  lemma AfterLookup(c: nat, k: nat, early: bool, n: nat)
    requires c < n
    ensures Enters({}, LOOKUP + Section(c, k, early, n), false, n)
  {
    LookupLeads(n);
    NoEntryEnters({}, LOOKUP, false, n);
    SectionEnters({}, c, k, early, n);
    EntersJoin({}, LOOKUP, {}, Section(c, k, early, n), false, n);
  }

  lemma BeforeIds(j: nat, ops: seq<Op>, n: nat)
    requires Enters({}, ops, false, n)
    ensures Enters({}, Ids(j, n) + ops, false, n)
  {
    IdsLead({}, j, n);
    IdsNoEntry(j, n);
    NoEntryEnters({}, Ids(j, n), false, n);
    EntersJoin({}, Ids(j, n), {}, ops, false, n);
  }

  // ---- Interleaving

  datatype ThreadState = ThreadState(held: set<Lock>, rest: seq<Op>)

  /** How far each semaphore can be taken, how often it has been released early, and where the threads are. */
  datatype State = State(count: seq<nat>, early: seq<nat>, threads: seq<ThreadState>)

  function Holders(threads: seq<ThreadState>, l: Lock): nat {
    if threads == [] then 0
    else Holders(threads[..|threads| - 1], l) + if l in threads[|threads| - 1].held then 1 else 0
  }

  /** Counts, holders and early releases agree, and every thread keeps to the order. */
  predicate Consistent(s: State, n: nat) {
    && |s.count| == |s.early| == n + 2
    && (forall l :: 0 <= l < n + 2 ==> s.count[l] + Holders(s.threads, l) == 1 + s.early[l])
    && (forall i :: 0 <= i < |s.threads| ==>
          Ordered(s.threads[i].held, s.threads[i].rest, n) && forall l :: l in s.threads[i].held ==> l <= n + 1)
  }

  /** The next operation is about a semaphore there is, and a wait finds it free. */
  predicate CanMove(s: State, i: nat)
    requires i < |s.threads|
  {
    var ops := s.threads[i].rest;
    ops != [] && ops[0].l < |s.count| == |s.early| && (ops[0].Wait? ==> s.count[ops[0].l] > 0)
  }

  /** Thread i takes its next step. */
  function Move(s: State, i: nat): State
    requires i < |s.threads| && CanMove(s, i)
  {
    var t := s.threads[i];
    match t.rest[0]
    case Wait(l) => s.(count := s.count[l := s.count[l] - 1],
      threads := s.threads[i := ThreadState(t.held + {l}, t.rest[1..])])
    case Signal(l) => s.(count := s.count[l := s.count[l] + 1],
      threads := s.threads[i := ThreadState(t.held - {l}, t.rest[1..])])
    case Early(l) =>
      s.(count := s.count[l := s.count[l] + 1], early := s.early[l := s.early[l] + 1],
        threads := s.threads[i := ThreadState(t.held, t.rest[1..])])
  }

  lemma {:induction false} HoldersUpdate(threads: seq<ThreadState>, i: nat, t: ThreadState, l: Lock)
    requires i < |threads|
    ensures Holders(threads[i := t], l)
      == Holders(threads, l) - (if l in threads[i].held then 1 else 0) + (if l in t.held then 1 else 0)
  {
    var last := |threads| - 1;
    if i == last {
      assert threads[i := t][..last] == threads[..last];
    } else {
      HoldersUpdate(threads[..last], i, t, l);
      assert threads[i := t][..last] == threads[..last][i := t];
    }
  }

  lemma {:induction false} SomeHolder(threads: seq<ThreadState>, l: Lock) returns (i: nat)
    requires Holders(threads, l) > 0
    ensures i < |threads| && l in threads[i].held
  {
    if l in threads[|threads| - 1].held {
      i := |threads| - 1;
    } else {
      i := SomeHolder(threads[..|threads| - 1], l);
    }
  }

  lemma CountsMove(s: State, i: nat, n: nat, l: Lock)
    requires Consistent(s, n) && i < |s.threads| && CanMove(s, i) && l < n + 2
    ensures var t := Move(s, i); |t.count| == |t.early| == n + 2 && t.count[l] + Holders(t.threads, l) == 1 + t.early[l]
  {
    HoldersUpdate(s.threads, i, Move(s, i).threads[i], l);
  }

  lemma OrderMove(s: State, i: nat, n: nat, j: nat)
    requires Consistent(s, n) && i < |s.threads| && CanMove(s, i) && j < |s.threads|
    ensures var t := Move(s, i).threads;
      |t| == |s.threads| && Ordered(t[j].held, t[j].rest, n) && forall l :: l in t[j].held ==> l <= n + 1
  {
  }

  /** At every moment the count of a semaphore is one, less the threads inside, plus the early releases. */
  lemma ConsistentMove(s: State, i: nat, n: nat)
    requires Consistent(s, n) && i < |s.threads| && CanMove(s, i)
    ensures Consistent(Move(s, i), n)
  {
    forall l: Lock | l < n + 2
      ensures Move(s, i).count[l] + Holders(Move(s, i).threads, l) == 1 + Move(s, i).early[l]
    {
      CountsMove(s, i, n, l);
    }
    forall j | 0 <= j < |s.threads|
      ensures var t := Move(s, i).threads; Ordered(t[j].held, t[j].rest, n) && forall l :: l in t[j].held ==> l <= n + 1
    {
      OrderMove(s, i, n, j);
    }
  }

  // ---- No cycle of waiting

  /** What an unfinished thread that cannot move waits for. */
  function Wanted(s: State, i: nat): Lock
    requires i < |s.threads|
  {
    if s.threads[i].rest != [] && s.threads[i].rest[0].Wait? then s.threads[i].rest[0].l else 0
  }

  /** Whoever a stuck thread waits for is stuck on a later semaphore, or can move. */
  lemma Blocker(s: State, i: nat, n: nat) returns (j: nat)
    requires Consistent(s, n) && i < |s.threads| && s.threads[i].rest != [] && !CanMove(s, i)
    ensures j < |s.threads| && Wanted(s, i) in s.threads[j].held && s.threads[j].rest != []
    ensures CanMove(s, j) || Rank(Wanted(s, j), n) > Rank(Wanted(s, i), n)
  {
    var l := Wanted(s, i);
    assert s.threads[i].rest[0] == Wait(l) && s.count[l] == 0;
    j := SomeHolder(s.threads, l);
    assert Ordered(s.threads[j].held, s.threads[j].rest, n);
  }

  lemma Mover(s: State, i: nat, n: nat) returns (j: nat)
    requires Consistent(s, n) && i < |s.threads| && s.threads[i].rest != []
    ensures j < |s.threads| && CanMove(s, j)
    decreases 3 - Rank(Wanted(s, i), n)
  {
    if CanMove(s, i) {
      j := i;
    } else {
      j := Blocker(s, i, n);
      if !CanMove(s, j) {
        j := Mover(s, j, n);
      }
    }
  }

  // ---- Every run

  predicate Start(s: State, n: nat) {
    && |s.count| == |s.early| == n + 2
    && (forall l :: 0 <= l < n + 2 ==> s.count[l] == 1 && s.early[l] == 0)
    && forall i :: 0 <= i < |s.threads| ==> s.threads[i].held == {} && Ordered({}, s.threads[i].rest, n)
  }

  lemma {:induction false} NoHolders(threads: seq<ThreadState>, l: Lock)
    requires forall i :: 0 <= i < |threads| ==> threads[i].held == {}
    ensures Holders(threads, l) == 0
  {
    if threads != [] { NoHolders(threads[..|threads| - 1], l); }
  }

  lemma StartConsistent(s: State, n: nat)
    requires Start(s, n)
    ensures Consistent(s, n)
  {
    forall l: Lock | l < n + 2
      ensures s.count[l] + Holders(s.threads, l) == 1 + s.early[l]
    {
      NoHolders(s.threads, l);
    }
  }

  /** The agent: each thread with its activities ahead of it. */
  function Agent(work: seq<seq<Activity>>, n: nat): State {
    State(seq(n + 2, _ => 1), seq(n + 2, _ => 0),
          seq(|work|, i requires 0 <= i < |work| => ThreadState({}, Thread(work[i], n))))
  }

  predicate AllInRange(work: seq<seq<Activity>>, n: nat) {
    forall i, k :: 0 <= i < |work| && 0 <= k < |work[i]| ==> InRange(work[i][k], n)
  }

  lemma AgentStarts(work: seq<seq<Activity>>, n: nat)
    requires AllInRange(work, n)
    ensures Start(Agent(work, n), n)
  {
    forall i | 0 <= i < |work|
      ensures Ordered({}, Thread(work[i], n), n)
    {
      ThreadOrdered(work[i], n);
    }
  }

  /** A run: at each step some thread moves. */
  ghost predicate Steps(run: seq<State>) {
    run != [] && forall k :: 0 <= k < |run| - 1 ==> MovesTo(run[k], run[k + 1])
  }

  ghost predicate Behaviour(run: seq<State>, n: nat) {
    Steps(run) && Start(run[0], n)
  }

  ghost predicate MovesTo(s: State, t: State) {
    exists i: nat :: MoveOf(s, t, i)
  }

  predicate MoveOf(s: State, t: State, i: nat) {
    i < |s.threads| && CanMove(s, i) && t == Move(s, i)
  }

  lemma {:induction false} ConsistentThroughout(run: seq<State>, n: nat, k: nat)
    requires Behaviour(run, n) && k < |run|
    ensures Consistent(run[k], n)
  {
    if k == 0 {
      StartConsistent(run[0], n);
    } else {
      ConsistentThroughout(run, n, k - 1);
      assert MovesTo(run[k - 1], run[k - 1 + 1]);
      var i: nat :| MoveOf(run[k - 1], run[k], i);
      ConsistentMove(run[k - 1], i, n);
    }
  }

  /** Threads that keep to the order never wait for each other in a circle: until all are done, one of them can go
      on. */
  lemma NoDeadlock(run: seq<State>, n: nat, k: nat)
    requires Behaviour(run, n) && k < |run|
    requires exists i :: 0 <= i < |run[k].threads| && run[k].threads[i].rest != []
    ensures exists j :: 0 <= j < |run[k].threads| && CanMove(run[k], j)
  {
    ConsistentThroughout(run, n, k);
    var i :| 0 <= i < |run[k].threads| && run[k].threads[i].rest != [];
    var j := Mover(run[k], i, n);
  }

  /** How many threads are inside a connection is bounded by its early releases: by one, when there were none. */
  lemma Inside(run: seq<State>, n: nat, k: nat, c: nat)
    requires Behaviour(run, n) && k < |run| && c < n
    ensures |run[k].count| == |run[k].early| == n + 2
    ensures run[k].count[Access(c)] == 1 - Holders(run[k].threads, Access(c)) + run[k].early[Access(c)]
    ensures Holders(run[k].threads, Access(c)) <= 1 + run[k].early[Access(c)]
  {
    ConsistentThroughout(run, n, k);
  }

  /** The threads of the agent never wait for each other in a circle, whatever each has to do. */
  lemma AgentNoDeadlock(work: seq<seq<Activity>>, run: seq<State>, n: nat, k: nat)
    requires AllInRange(work, n) && Steps(run) && run[0] == Agent(work, n) && k < |run|
    requires exists i :: 0 <= i < |run[k].threads| && run[k].threads[i].rest != []
    ensures exists j :: 0 <= j < |run[k].threads| && CanMove(run[k], j)
  {
    AgentStarts(work, n);
    NoDeadlock(run, n, k);
  }

  /** How many of them are inside a connection is one at most, while nothing has been released early. */
  lemma AgentInside(work: seq<seq<Activity>>, run: seq<State>, n: nat, k: nat, c: nat)
    requires AllInRange(work, n) && Steps(run) && run[0] == Agent(work, n) && k < |run| && c < n
    ensures |run[k].count| == |run[k].early| == n + 2
    ensures run[k].count[Access(c)] == 1 - Holders(run[k].threads, Access(c)) + run[k].early[Access(c)]
    ensures Holders(run[k].threads, Access(c)) <= 1 + run[k].early[Access(c)]
  {
    AgentStarts(work, n);
    Inside(run, n, k, c);
  }
}
