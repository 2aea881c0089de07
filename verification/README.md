# A verified model of the RSVP-TE agent

This project models, in Dafny, the protocol engine and the codecs of an RSVP-TE agent for the OIF UNI and IETF
signalling profiles, and proves what they promise. It covers:

- **The message pipeline** (`rsvp_packet.cpp`, `tools.cpp`): the object list kept in message order (section 3.1 of
  RFC 2205), the 38 object classes and their layouts (section 3.1.2 of RFC 2205, section 4.3 of RFC 3209, section 7 of
  RFC 3473), the common header and its one's-complement checksum (section 3.1.1 of RFC 2205, RFC 1071), and the
  hand-written binary32 encoder (section 3.4 of IEEE 754-2008). The main result is that a receiver recovers exactly what
  the objects of a message carry, and for each object the exact condition under which that is what was sent.
- **The connection automaton** (`rsvp_connection.cpp`): direction, path state, label and key of one end of a tunnel, over
  every run; two ends of any profile that set a path up, refresh it and delete it; and two ends over a network that
  loses, repeats and reorders.
- **The parameter store** (`rsvp_configuration.cpp`): NULL-terminated tables that refine a map.
- **The management side** (`mgmt_interface.cpp`, `mgmt_packet.cpp` and the three client libraries): which request an
  answer belongs to, four implementations of one codec, and the explicit route as three interleaved streams.
- **The rest of the engine**: the bit-field packer (`floatformat.cpp`), the table of connections and its clean-up
  (`rsvp_dispatcher.cpp`), and the order in which the threads take their semaphores.

## How the model is laid out

| file | what it holds |
|---|---|
| `Options.dfy` | a value that may be missing |
| `Bytes.dfy` | machine words, byte order, pieces of a packet |
| `Headers.dfy` | the common header and the checksum |
| `Binary32.dfy` | the float encoder and decoder |
| `BitField.dfy` | `put_field` and `get_field` |
| `Parameters.dfy`, `Configuration.dfy` | the 85 parameters and their types; the store |
| `SortedInsertion.dfy`, `ObjectList.dfy`, `MessageOrder.dfy` | insertion by key; the object array and `add_object`; the order table and the message formats |
| `WireFormats.dfy`, `ObjectFormats.dfy` | the primitive writers and readers; what every `add_` and `parse_` routine does |
| `ObjectRoundTrips.dfy`, `ObjectRecovery.dfy` | framing of each object; what parsing each object adds |
| `ObjectFidelity.dfy`, `ObjectSafety.dfy` | when an object comes back unchanged; what may be written at all |
| `MessagePieces.dfy`, `RsvpMessage.dfy` | the object loop, on any packet and on a message; whole messages |
| `StandardLayouts.dfy`, `ForeignObjects.dfy`, `ParserLimits.dfy` | what is sent, read by the standards' own drawings; what the parsers make of objects the agent does not send, and which they read at all |
| `FloatSigns.dfy`, `RsvpPackets.dfy` | the unset sign of the float encoder through a message; the packet as an object with its loops |
| `Connections.dfy`, `ConnectionRuns.dfy` | the automaton; its runs |
| `ConnectionSignals.dfy` | what a connection says to the other end and to the manager |
| `LabelCounter.dfy` | the labels an agent hands out to all its connections from one counter |
| `Handshakes.dfy`, `Deletions.dfy`, `TwoAgents.dfy` | two of them on a network that keeps order, setting a path up and taking it down; and on one that loses, repeats and reorders |
| `Registry.dfy`, `Locks.dfy` | the table of connections; the semaphores |
| `MgmtInterface.dfy`, `ManagedPaths.dfy` | pending questions and answers; a connection together with them |
| `MgmtCodec.dfy`, `MgmtLoops.dfy` | the management codec; its loops |
| `MgmtEro.dfy`, `MgmtStore.dfy`, `MgmtEncode.dfy` | the explicit route in it; what the agent and the C++ library keep of a message; what the agent sends, and gets back |

Code that changes state is modelled as classes and methods with loops. Each is proved against a function of the old
state, and the theorems are about those functions. The straight-line `add_` and `parse_` routines are tables of writes and
reads that one loop runs; the routines with a loop of their own (the explicit route, the GENERALIZED_UNI subobjects, the
interface TLVs of a hop, SCOPE) and the back-patched length have methods of their own.

The model takes the host to be little-endian, as the source does where it writes addresses and ERO entries unswapped.

## What the model shows about the code

Where the code departs from what it is evidently for, the model follows the code, and a lemma gives the exact
condition.

- `write_ieee_float` never sets its sign variable for a positive value; the encoding is right exactly when what the
  variable held is even (`Binary32.WriteIeeeFloat`). Carried through a whole message and its parsing, a rate arrives
  as it was sent exactly when it is not positive with an odd sign at its write; minus infinity arrives as infinity
  (`FloatSigns.FloatArrives`).
- Two of the defaults every connection sets have the wrong type and are dropped
  (`Configuration.TwoDefaultsAreDropped`).
- The order table has room for 37 of 38 classes. The one left out sorts last, which is harmless; the array itself
  reports success but loses an object when 99 are stored (`ObjectList.ObjectArray.AddObject`, `ObjectList.LosesOne`).
- A RESTART_CAP is read back as a recovery time, a NOTIFY_REQUEST address is read in the other byte order, a style
  other than wildcard is read as fixed, and a label is padded for good (`ObjectFidelity.Fidelity`).
- A CALL_ID_0 carries nothing. Its parser reads the header of the object that follows as the call identifier, or past
  the end of a message it ends (`RsvpMessage.CallIdLost`, `RsvpMessage.CallIdReceived`, `RsvpMessage.CallIdOverruns`).
- The route is put last in a PATH, where the message format has it behind TIME_VALUES; every other object of a message
  stands where its format has it (`MessageOrder.RouteOutOfPlace`, `MessageOrder.FollowsFormat`).
- The ids of a summary refresh are never kept, because their parameter was given no type; the same class with another
  C-Type is read as an upstream label (`ForeignObjects.IdListIgnored`, `ForeignObjects.IdListAsLabel`).
- Of two objects that share a parameter the second is read up to the first shared one and no further
  (`ObjectRecovery.CutShort`, `RsvpMessage.ArrivesExactly`); a second ERO adds its hops to the first
  (`RsvpMessage.RoutesJoined`).
- The object loop does not check its length fields: when it completes, goes round for ever or reads past the end is
  said for every packet by `RsvpMessage.CompletesExactly`, `RsvpMessage.LoopsExactly` and
  `RsvpMessage.OverrunsExactly`.
- An (3,3) hop without its data handle declares a TLV it does not write; the parser of a whole one passes over eight
  bytes of whatever follows (`ObjectRoundTrips.Framed`, `ObjectRecovery.ObjectRecovers`).
- ETHERNET_FLOWSPEC is accepted without three parameters it is written from, which are asked of SONETSDH_FLOWSPEC
  instead (`ObjectSafety.WritableIsAccepted`); SCOPE is never written, because its loop
  does not advance (`ObjectSafety.AcceptedIsWritable`).
- A `put_field` strictly inside one byte clears the bits of that byte before it; a 32-bit value with its top bit set
  comes back sign-extended where `unsigned long` is wider (`BitField.OutsideUnchanged`, `BitField.RoundTrip`).
- A path goes down with its label in place exactly when another PATH reaches an agent that waits with a label, or the
  setup timeout strikes a path that is up (`ConnectionRuns.LabelLeftExactly`). An agent waits with a label exactly
  when it is an IETF agent that accepted a deletion (`ConnectionRuns.WaitsLabelled`), and the timeout strikes a path
  that is up exactly when more ticks than the timeout had passed before the path was created
  (`ConnectionRuns.TimeoutStrikesUp`). A run for each: `ConnectionRuns.LabelLeftByDeletion`,
  `ConnectionRuns.LabelLeftByTimeout`. Together with the table of questions the connection runs as it does alone
  (`ManagedPaths.RunSeen`), except that no manager's answer makes it wait with a label
  (`ManagedPaths.WaitsLabelledByArrival`).
- A path that is deleted while the other end's manager is still being asked can be left up there alone, because its
  answer is taken after the deletion has been refused (`Deletions.DeletedTooEarly`); once both ends are up a deletion
  always completes (`Deletions.DeletionCompletes`).
- The clean-up of dead connections leaves every second one of a run of them behind (`Registry.SweptByRuns`,
  `Registry.CleanExactly`).
- The search for a pending question stops at a slot that has never carried a request, so an answer can be lost
  (`MgmtInterface.DeliveredExactly`, `MgmtInterface.AnswerLost`).
- A route is lost, whole or in part, when the object count that wraps in its byte does not reach past its last object,
  which depends on what else the message holds (`MgmtEro.RouteSurvives`, `MgmtEro.RouteLost`); the Java library reads
  nothing of a packet with 128 objects or more (`MgmtCodec.JavaCountWraps`), and takes ids of 32768 or more for
  negative ones (`MgmtCodec.HeadingBack`).
- The agent does not look at the numbers of a message in parts, refuses a path status because it has another type, and
  keeps the first value of a type; the C++ library keeps the last, and copies a name of 50 bytes or more past its
  field (`MgmtStore.AgentKeepsAll`, `MgmtStore.LibraryHoldsAll`, `MgmtStore.PathStatusLost`).
- `parse_headers` and `register_connection` do not look at the size of what they are given (`Headers.ParseHeaders`,
  `Registry.Dispatcher.Register`).
- A RESV with the D flag releases the semaphore of its connection twice, which is why more than one thread can then be
  inside (`Locks.Inside`).

## Model

| member | source | states |
|---|---|---|
| Headers.SumWords | agent_rsvp/src/rsvp_packet.cpp:1517-1519 | the loop sums the big-endian words from an offset on, modulo 2^32 |
| Headers.FoldCarries | agent_rsvp/src/rsvp_packet.cpp:1520-1521 | folding ends with the residue modulo 65535, where only zero folds to zero |
| Headers.MakeRsvpPacket | agent_rsvp/src/rsvp_packet.cpp:1540-1570 | a body whose length is not a multiple of 4 is refused; any other gets the header of RFC 2205 with the complement of the folded sum |
| Headers.ParseHeaders | agent_rsvp/src/rsvp_packet.cpp:1490-1538 | behind an IP header of any length, the packet is accepted exactly when its sum folds to 0xffff, and then its type and body are returned; otherwise nothing changes; it reads past the end exactly when the buffer is below 20 bytes, more than one byte shorter than its IP header, or passes the test without room for a common header |
| Headers.AcceptedExactly | agent_rsvp/src/rsvp_packet.cpp:1559-1566 | what the sender makes is accepted if and only if adding the checksum does not carry out of the 32-bit accumulator |
| Headers.AcceptedWhenSumFits | agent_rsvp/src/rsvp_packet.cpp:1559-1566 | every packet of up to 65537 words is accepted |
| Headers.HeadersRoundTrip | agent_rsvp/src/rsvp_packet.cpp:1509-1535 | behind any IP header the receiver gets back the sender's message type and body |
| Headers.TamperDetected | agent_rsvp/src/rsvp_packet.cpp:1517-1523 | overwriting any one word goes unnoticed if and only if the new word is congruent to the old modulo 65535 |
| Binary32.FrexpDefinition | agent_rsvp/src/tools.cpp:45-64 | the exponent used is the one that puts the mantissa in [1/2, 1) |
| Binary32.HalveMantissa | agent_rsvp/src/tools.cpp:64-90 | the first loop ends and loses no bit of the value |
| Binary32.DoubleMantissa | agent_rsvp/src/tools.cpp:64-90 | the second loop ends with a whole mantissa, still equal to the value up to a power of two |
| Binary32.Normalise | agent_rsvp/src/tools.cpp:80-105 | the last two loops end with the 24 significant bits |
| Binary32.WriteIeeeFloat | agent_rsvp/src/tools.cpp:45-100 | for zero, every normal value and both infinities the bytes are the IEEE 754 encoding, most significant first, if and only if a positive value meets an even sign variable |
| Binary32.ReadsBack | agent_rsvp/src/tools.cpp:102-164 | decoding the IEEE 754 encoding of zero, a normal value or an infinity gives the value |
| BitField.PutField | agent_rsvp/src/floatformat.cpp:273-320 | in either byte order, the bits it writes hold the value, most significant first, and no other byte changes |
| BitField.GetField | agent_rsvp/src/floatformat.cpp:155-198 | it returns the number the bits of the field spell, sign-extended where the host does so |
| BitField.RoundTrip | agent_rsvp/src/floatformat.cpp:155-320 | reading a field after writing it returns the value, except a value of 2^31 or more where `unsigned long` is wider than 32 bits |
| BitField.OutsideUnchanged | agent_rsvp/src/floatformat.cpp:285-318 | every bit outside the field is unchanged if and only if the bits before it that the write reaches were clear |
| BitField.NothingTouchedOutside | agent_rsvp/src/floatformat.cpp:285-318 | a write reaches bits before its field if and only if the field is strictly inside one byte |
| Configuration.RsvpConfiguration.IsPresent | agent_rsvp/src/rsvp_configuration.cpp:844-869 | a scalar is present under every index, a table element exactly below the table's length |
| Configuration.RsvpConfiguration.Read | agent_rsvp/src/rsvp_configuration.cpp:872-963 | the value at the index |
| Configuration.RsvpConfiguration.Add | agent_rsvp/src/rsvp_configuration.cpp:343-575 | refines the map: a scalar is set once, a table grows at its end, and a wrong type, a second scalar or another block size is refused with the map unchanged |
| Configuration.RsvpConfiguration.Set | agent_rsvp/src/rsvp_configuration.cpp:578-763 | refines the map: only a present element of the right type is overwritten, and each refusal has its code |
| Configuration.RsvpConfiguration.SetAdd | agent_rsvp/src/rsvp_configuration.cpp:765-799 | overwrites what is there and adds what is not |
| Configuration.RsvpConfiguration.Remove | agent_rsvp/src/rsvp_configuration.cpp:802-841 | takes one element out of a table in order, dropping the parameter with its last |
| Configuration.ShiftDown | agent_rsvp/src/rsvp_configuration.cpp:820-840 | the loop closes the gap and keeps the terminator |
| Configuration.RsvpConfiguration.Clear | agent_rsvp/src/rsvp_configuration.cpp:965-1022 | emptying the target of a copy ends, and removes exactly that parameter |
| Configuration.RsvpConfiguration.CopyTable | agent_rsvp/src/rsvp_configuration.cpp:965-1022 | copying a table into an emptied slot never meets a size conflict |
| Configuration.RsvpConfiguration.CopyFrom | agent_rsvp/src/rsvp_configuration.cpp:965-1022 | a present parameter is copied whole and nothing else changes; an absent one is an error and nothing changes |
| Configuration.RsvpConfiguration.AddMissing | agent_rsvp/src/rsvp_configuration.cpp:1024-1031 | the union of the two maps, in which what was there wins |
| Configuration.RsvpConfiguration.Update | agent_rsvp/src/rsvp_configuration.cpp:1033-1040 | the union of the two maps, in which what is copied wins |
| Configuration.MergeLaws | agent_rsvp/src/rsvp_configuration.cpp:1024-1040 | `a.add_missing(b)` and `b.update(a)` give the same map, each keeps the winner's values, and both are idempotent |
| Configuration.StoreShape | agent_rsvp/src/rsvp_configuration.cpp:343-575 | whatever the arrays hold, a present parameter has values of its declared type, one of them if it is a scalar, and blocks of one size |
| Configuration.RemoveUndoesAdd | agent_rsvp/src/rsvp_configuration.cpp:802-841 | removing the last element undoes an addition to a table |
| Configuration.SetAddTakesEffect | agent_rsvp/src/rsvp_configuration.cpp:765-799 | for a scalar it takes effect if and only if the value has the declared type; otherwise nothing changes |
| Configuration.AddCodes | agent_rsvp/src/rsvp_configuration.cpp:343-575 | what each code of `add` tells: a wrong type, a second scalar, a block of another size, or that the value now ends the list and nothing else changed |
| Configuration.SetCodes | agent_rsvp/src/rsvp_configuration.cpp:578-763 | what each code of `set` tells, and that the store changes if and only if it is zero |
| Configuration.TwoDefaultsAreDropped | agent_rsvp/src/rsvp_connection.cpp:174-219 | the default upstream label and the default ADMIN_STATUS flags are never stored |
| SortedInsertion.SortedUnique | agent_rsvp/src/rsvp_packet.cpp:2206-2213 | when no two elements share a key, a sorted list is determined by its elements |
| ObjectList.GetObjectOrder | agent_rsvp/src/rsvp_packet.cpp:338-347 | the search returns the position of the class among the first 37, and -1 for the last |
| ObjectList.OrderInjective | agent_rsvp/src/rsvp_packet.cpp:211-249 | no two classes compare equal, the one past the table included |
| ObjectList.ObjectArray.AddObject | agent_rsvp/src/rsvp_packet.cpp:2189-2234 | the array stays packed and becomes the sorted insertion, cut to 99 entries; it is unchanged when full or when parameters are missing |
| ObjectList.ObjectArray.Position | agent_rsvp/src/rsvp_packet.cpp:2206-2213 | the search stops where a sorted insertion belongs |
| ObjectList.ObjectArray.ShiftIn | agent_rsvp/src/rsvp_packet.cpp:2216-2232 | the loop moves every entry after the position up by one, except the last of the array |
| ObjectList.AddAllSorts | agent_rsvp/src/rsvp_packet.cpp:2189-2234 | after any calls on an empty packet the array holds the accepted objects, sorted, up to the 99th; it holds exactly the accepted ones if and only if they are no more than 99 |
| ObjectList.CanonicalOrder | agent_rsvp/src/rsvp_packet.cpp:2189-2234 | any two series of calls that accept the same objects, in whatever order, leave the same array; with up to 99 accepted, only they do |
| ObjectList.EroIsLast | agent_rsvp/src/rsvp_packet.cpp:211-249 | nothing but another ERO follows an ERO |
| ObjectList.LosesOne | agent_rsvp/src/rsvp_packet.cpp:2216-2232 | at 99 objects an accepted addition loses one |
| MessageOrder.FillOrder | agent_rsvp/src/rsvp_packet.cpp:211-305 | the calls of the constructor leave the first 37 classes in the table, each at its rank; the last call finds no room |
| MessageOrder.FollowsFormat | agent_rsvp/src/rsvp_packet.cpp:211-249 | in whatever order they are added, the objects of a PATH, RESV, PATHERR, RESVERR, RESVCONF or HELLO stand in the order of the message formats of RFC 2205, RFC 3209 and RFC 3473 |
| MessageOrder.RouteOutOfPlace | agent_rsvp/src/rsvp_packet.cpp:248-249 | the route, which those formats put behind TIME_VALUES, is there if and only if the message has nothing that must follow it |
| WireFormats.WiredValue | agent_rsvp/src/rsvp_packet.cpp:349-527 | every layout read back by its own reader gives the value, or the bits it has room for; an infinity loses its sign |
| WireFormats.ReadsFill | agent_rsvp/src/rsvp_packet.cpp:475-527 | running the reads over what the matching writes appended, anywhere in a packet and on top of any configuration, adds the values they carry one after the other and stops at the first parameter that is already there |
| WireFormats.FilledExactly | agent_rsvp/src/rsvp_packet.cpp:529-620 | what is added then is exactly what the reads before the first refused one recover |
| ObjectRoundTrips.Framed | agent_rsvp/src/rsvp_packet.cpp:1582-2187 | an object writes exactly its declared size, a multiple of 4, if and only if a style has a flag set and a (3,3) hop has its data handle |
| ObjectRoundTrips.Corresponds | agent_rsvp/src/rsvp_packet.cpp:529-1159 | read for write, the parser of each class takes what its writer appends, into distinct parameters of the right types |
| ObjectRoundTrips.ReadsExpected | agent_rsvp/src/rsvp_packet.cpp:1180-1308 | on what a writer left, the parser takes the branch that goes with it |
| ObjectRecovery.HopParsed | agent_rsvp/src/rsvp_packet.cpp:563-601 | the loop over interface TLVs reads the one written, passes over eight more bytes and ends; or it ends before, at a parameter that is already there |
| ObjectRecovery.EroRecovers | agent_rsvp/src/rsvp_packet.cpp:853-879 | the loop over hops adds all of them in order, with the loose flag as 0 or 1, to the route that is there |
| ObjectRecovery.UniRecovers | agent_rsvp/src/rsvp_packet.cpp:1039-1092 | the loop over subobjects adds one after the other, in whatever order they were listed, up to the first that is already there |
| ObjectRecovery.ObjectRecovers | agent_rsvp/src/rsvp_packet.cpp:1180-1308 | parsing the body of any object written whole, wherever it lies and whatever was added before, has the effect defined for it |
| ObjectRecovery.CutShort | agent_rsvp/src/rsvp_packet.cpp:529-1159 | of an object that shares a parameter with an earlier one, exactly the values before the first shared one are added |
| ObjectRecovery.AddsWhole | agent_rsvp/src/rsvp_packet.cpp:529-1159 | of an object none of whose parameters is there, everything it carries is added, and nothing else |
| ObjectRecovery.EffectAdds | agent_rsvp/src/rsvp_packet.cpp:529-1159 | nothing that is there is changed, though a route grows; whatever is added is what the object carries |
| ObjectFidelity.Fidelity | agent_rsvp/src/rsvp_packet.cpp:529-2179 | every parameter an object is written from comes back unchanged if and only if the stated condition on that class holds |
| ObjectSafety.AcceptedIsWritable | agent_rsvp/src/rsvp_packet.cpp:71-209 | an accepted object can be written without a missing value if and only if it is no SCOPE, and an ETHERNET_FLOWSPEC has the three parameters that are not required of it |
| ObjectSafety.WritableIsAccepted | agent_rsvp/src/rsvp_packet.cpp:71-209 | an object that can be written is accepted if and only if what is asked of it beyond what it is written from is there: a hop's control handle, the three Ethernet parameters of a SONET/SDH flowspec, and the parameter of an object that writes nothing itself |
| MessagePieces.ObjectTaken | agent_rsvp/src/rsvp_packet.cpp:1180-1308 | an object framed by its length field is taken in one turn of the loop, for any parser of its body |
| MessagePieces.PiecesParse | agent_rsvp/src/rsvp_packet.cpp:1180-1308 | the cursor lands on every boundary, the loop ends at the end of the packet, and the result is what the objects leave one after the other |
| MessagePieces.ParseExactly | agent_rsvp/src/rsvp_packet.cpp:1180-1308 | on any packet the loop has a result if and only if a chain of length fields, over bodies that can be parsed, leads to where it ends with that result |
| RsvpMessage.MessageRecovers | agent_rsvp/src/rsvp_packet.cpp:1162-1488 | parsing what `get_data` returned gives exactly what the objects leave, taken one after the other, whichever parameters they share |
| RsvpMessage.PacketRecovers | agent_rsvp/src/rsvp_packet.cpp:1162-1570 | the same through the common header, the checksum and any IP header, with the message type |
| RsvpMessage.ArrivesExactly | agent_rsvp/src/rsvp_packet.cpp:1162-1488 | a parameter arrives if and only if some object delivers it: is the first to bring it, and its parser gets that far |
| RsvpMessage.UnmetDelivers | agent_rsvp/src/rsvp_packet.cpp:1162-1488 | an object that shares nothing with the ones before it delivers all it carries |
| RsvpMessage.ArrivesIntact | agent_rsvp/src/rsvp_packet.cpp:1162-1570 | every parameter delivered by an object that meets its condition arrives as it was sent |
| RsvpMessage.RoutesJoined | agent_rsvp/src/rsvp_packet.cpp:853-879 | the route received is the hops of every ERO of the message, one route after the other |
| RsvpMessage.CallIdLost | agent_rsvp/src/rsvp_packet.cpp:2143-2147 | the bytes of a CALL_ID_0 do not depend on the configuration |
| RsvpMessage.CallIdReceived | agent_rsvp/src/rsvp_packet.cpp:1094-1101 | anywhere else, the receiver takes the length, class and type of the object after the first one for the call identifier |
| RsvpMessage.CallIdOverruns | agent_rsvp/src/rsvp_packet.cpp:1094-1101 | as the last object of a message it makes the parser read past the end |
| RsvpMessage.CompletesExactly | agent_rsvp/src/rsvp_packet.cpp:1162-1312 | parsing any packet completes, and with which result, if and only if the chain of length fields leads to its end or past it over bodies that are parsed |
| RsvpMessage.LoopsExactly | agent_rsvp/src/rsvp_packet.cpp:1302-1304 | it never ends if and only if the chain leads to a parsed object with a length field of zero, or to one whose own loop does not advance |
| RsvpMessage.OverrunsExactly | agent_rsvp/src/rsvp_packet.cpp:1180-1308 | it reads past the end if and only if the chain leads to a header that is cut off, or to a body whose parser does |
| RsvpMessage.ZeroLengthLoops | agent_rsvp/src/rsvp_packet.cpp:1302-1304 | at a length field of zero the loop goes on for ever if the body is parsed, and ends as the body does otherwise |
| ForeignObjects.TlvsParsed | agent_rsvp/src/rsvp_packet.cpp:563-601 | from any list of interface TLVs the address, the downstream and the upstream interface are taken and the unknown ones passed over, up to the first that says what is already there |
| ForeignObjects.ForeignRoute | agent_rsvp/src/rsvp_packet.cpp:853-879 | from a route with subobjects of any kind the IPv4 prefixes are taken in order and the others passed over |
| ForeignObjects.ScopeParsed | agent_rsvp/src/rsvp_packet.cpp:624-634 | a scope adds the addresses it lists, in order |
| ForeignObjects.SubobjectPassed | agent_rsvp/src/rsvp_packet.cpp:1039-1063 | a UNI subobject of another type is passed over by its length |
| ForeignObjects.IdListIgnored | agent_rsvp/src/rsvp_packet.cpp:958-969 | of a list of message ids nothing is kept, because the parameter was given no type |
| ForeignObjects.IdListAsLabel | agent_rsvp/src/rsvp_packet.cpp:1271-1277 | the same class with C-Type 2 is read as an upstream label |
| ForeignObjects.CallParsed | agent_rsvp/src/rsvp_packet.cpp:1103-1127 | behind an address of another type, of any number of words, the two local identifiers of a call are found |
| ParserLimits.OthersUnread | agent_rsvp/src/rsvp_packet.cpp:1180-1312 | an object with a Class-Num and C-Type that the agent does not write is passed over unread, but for the list of message ids with C-Type 2 |
| ParserLimits.KindFiled | agent_rsvp/src/rsvp_packet.cpp:881-956 | a hello, or the answer to a message id, is filed under its C-Type whatever else it carries |
| ParserLimits.StyleTold | agent_rsvp/src/rsvp_packet.cpp:636-665 | a style is filed as wildcard if and only if its last byte is 0x11, and as fixed otherwise |
| ParserLimits.TrafficTold | agent_rsvp/src/rsvp_packet.cpp:667-802 | behind any header but the two each of them knows, a TSPEC and a flowspec are passed over unread |
| ParserLimits.LoadsAlike | agent_rsvp/src/rsvp_packet.cpp:667-802 | behind the controlled load header of a flowspec both are read, and alike |
| ParserLimits.RateTold | agent_rsvp/src/rsvp_packet.cpp:687-704 | a guaranteed flowspec without the header of the rate and the slack is read as far as a controlled load one |
| ParserLimits.LabelTaken | agent_rsvp/src/rsvp_packet.cpp:833-840 | a label is taken whole, or the read runs past the end |
| ParserLimits.ProfileTold | agent_rsvp/src/rsvp_packet.cpp:725-745 | of Ethernet parameters without the one profile the parser knows the granularity alone is read |
| ParserLimits.ZeroSubobject | agent_rsvp/src/rsvp_packet.cpp:1039-1081 | a UNI subobject of length zero is parsed for ever if its type is unknown, and once if it is an address |
| ParserLimits.ZeroHop | agent_rsvp/src/rsvp_packet.cpp:853-879 | a hop of length zero is parsed for ever |
| ParserLimits.ForeignCall | agent_rsvp/src/rsvp_packet.cpp:1129-1159 | around an address of another type, of any number of words, all eight other values of an operator specific call identifier come back, and the address leaves nothing |
| FloatSigns.MessageSent | agent_rsvp/src/rsvp_packet.cpp:429-448 | whatever the stack held at each write, the message is that of the same configuration with other signs, float by float |
| FloatSigns.PacketArrives | agent_rsvp/src/rsvp_packet.cpp:1162-1570 | so through the common header and any IP header the receiver recovers what the objects leave, with those signs |
| FloatSigns.ArrivesAsSent | agent_rsvp/src/rsvp_packet.cpp:1162-1570 | a parameter other than a float, delivered by an object that meets its condition, arrives as it was sent whatever the stack held |
| FloatSigns.FloatArrives | agent_rsvp/src/tools.cpp:45-100 | a rate or size that an object delivers arrives as it was sent if and only if it is not minus infinity, and is not positive and finite with an odd sign at its write |
| RsvpPackets.RsvpPacket.AddFloat | agent_rsvp/src/rsvp_packet.cpp:429-448 | appends what the float encoder leaves with the sign it found, or the bytes of infinity |
| RsvpPackets.RsvpPacket.RunWrites | agent_rsvp/src/rsvp_packet.cpp:1582-1615 | a straight-line `add_` routine appends what its writes say |
| RsvpPackets.RsvpPacket.AddEro | agent_rsvp/src/rsvp_packet.cpp:1922-1948 | counts the hops, declares their size, and appends them in order |
| RsvpPackets.RsvpPacket.AddUni | agent_rsvp/src/rsvp_packet.cpp:2096-2117 | the length patched in afterwards is the length of the object |
| RsvpPackets.RsvpPacket.GetData | agent_rsvp/src/rsvp_packet.cpp:1314-1488 | the packet becomes the message of the object list, with the signs the stack held; its size is returned, or an error when the buffer is smaller |
| StandardLayouts.ObjectAsDrawn | agent_rsvp/src/rsvp_packet.cpp:1582-2187 | read by position alone, every object of fixed layout has the length, class and type of its standard, every parameter in its place and byte order, and the fixed and reserved bytes as drawn |
| StandardLayouts.MessageAsDrawn | agent_rsvp/src/rsvp_packet.cpp:1314-1488 | the same in the message `get_data` leaves, for every object of the list |
| StandardLayouts.StyleAsDrawn | agent_rsvp/src/rsvp_packet.cpp:1722-1746 | by the first flag that is set, the option vector of a style says distinct or shared reservations and wildcard or explicit senders, as section A.7 of RFC 2205 has it |
| StandardLayouts.StyleInMessage | agent_rsvp/src/rsvp_packet.cpp:1722-1746 | the same in the message `get_data` leaves |
| StandardLayouts.StatusAsDrawn | agent_rsvp/src/rsvp_packet.cpp:2049-2064 | in ADMIN_STATUS the R flag is the top bit of the word, T, A and D are the lowest three, and all others are zero |
| StandardLayouts.SessionAsDrawn | agent_rsvp/src/rsvp_packet.cpp:2066-2094 | SESSION_ATTRIBUTE has its priorities, each flag in its bit, the low byte of the name's length, and the name padded with zeros to whole words |
| StandardLayouts.LabelAsDrawn | agent_rsvp/src/rsvp_packet.cpp:1896-1920 | a label is padded with zeros to whole words |
| StandardLayouts.RouteAsDrawn | agent_rsvp/src/rsvp_packet.cpp:1922-1948 | every hop of a route has its loose bit, type, length, address, prefix length and reserved byte in place |
| StandardLayouts.SubobjectAsDrawn | agent_rsvp/src/rsvp_packet.cpp:2119-2141 | every UNI subobject has its length, type, subtype and value in place, padded with zeros |
| RsvpPackets.RsvpPacket.RunReadsFrom | agent_rsvp/src/rsvp_packet.cpp:529-620 | a straight-line `parse_` routine stops at the first refused addition |
| RsvpPackets.RsvpPacket.ParseRoute | agent_rsvp/src/rsvp_packet.cpp:853-879 | the hop loop, with its refusal, its reads past the end, and a length of zero |
| RsvpPackets.RsvpPacket.ParseSubobjects | agent_rsvp/src/rsvp_packet.cpp:1039-1063 | the subobject loop; a known subobject of length zero is refused the second time it is met |
| RsvpPackets.RsvpPacket.ParsePacket | agent_rsvp/src/rsvp_packet.cpp:1162-1312 | the object loop of `parse_data`, into a new configuration |
| Connections.RsvpConnection.GetPacket | agent_rsvp/src/rsvp_connection.cpp:745-896 | a packet from the network changes the state and sends what the handlers say, or is only acknowledged when it does not fit |
| Connections.RsvpConnection.GetAnswer | agent_rsvp/src/rsvp_connection.cpp:819-827 | a PATH the manager has answered is accepted or refused |
| Connections.RsvpConnection.RespondToPath | agent_rsvp/src/rsvp_connection.cpp:243-470 | comes up under a new, kept or upstream label and confirms that label, or answers a deletion as the profile demands |
| Connections.RsvpConnection.RespondToPathNack | agent_rsvp/src/rsvp_connection.cpp:474-529 | goes down with an error to the sender, and with its label as it was |
| Connections.RsvpConnection.RespondToResv | agent_rsvp/src/rsvp_connection.cpp:323-389 | comes up under the label received, or tears the path down on a deletion |
| Connections.RsvpConnection.CreatePath | agent_rsvp/src/rsvp_connection.cpp:966-1044 | becomes the outgoing end and sends a PATH |
| Connections.RsvpConnection.DestroyPath | agent_rsvp/src/rsvp_connection.cpp:1116-1302 | asks for deletion, or goes down at once, by profile, direction and upstream label; an undefined direction is an error |
| Connections.RsvpConnection.RefreshPath | agent_rsvp/src/rsvp_connection.cpp:1048-1112 | one iteration: the thread ends, the timeout strikes, or a refresh may be sent |
| ConnectionRuns.RestsThroughout | agent_rsvp/src/rsvp_connection.cpp:745-896 | in every run the state between steps is Null before a direction, PathSent, Up or Down when outgoing, PathRecv, Up or Down when incoming |
| ConnectionRuns.DirectionFixed | agent_rsvp/src/rsvp_connection.cpp:775-776 | once set, the direction never changes |
| ConnectionRuns.DownStep | agent_rsvp/src/rsvp_connection.cpp:798-896 | an outgoing path that is down stays down; an incoming one leaves if and only if the manager accepts a pending PATH that does not delete it, or an IETF agent is asked to |
| ConnectionRuns.DownForGood | agent_rsvp/src/rsvp_connection.cpp:864-896 | an outgoing path that is down is down for the rest of the run |
| ConnectionRuns.KeptThroughout | agent_rsvp/src/rsvp_connection.cpp:474-703 | at most one question is open, only while nothing is up; no label or key is held but by a path that is up; incoming ends hold no key |
| ConnectionRuns.LeakStep | agent_rsvp/src/rsvp_connection.cpp:474-703 | a step leaves a path down with a label or key if and only if it loses track of one, by a PATH to a connection that waits with a label or by a timeout of a path that is up, or there was one left and the step does not drop it |
| ConnectionRuns.LabelLeftExactly | agent_rsvp/src/rsvp_connection.cpp:309-1302 | after any run a path is down with a label or key if and only if some step lost track of it and none has dropped it since |
| ConnectionRuns.LabelHygiene | agent_rsvp/src/rsvp_connection.cpp:309-389 | over a whole run no path is ever down with a label or key if and only if no step loses track of one |
| ConnectionRuns.WaitsLabelled | agent_rsvp/src/rsvp_connection.cpp:264-283 | a connection waits with a label if and only if it is an IETF agent that accepted a PATH with the deletion flags, or already did and nothing moved it |
| ConnectionRuns.TidyWhenConsiderate | agent_rsvp/src/rsvp_connection.cpp:309-389 | in every run that spares an IETF agent a deletion and creates a path before the timeout has passed, a path that is down holds no label and no key |
| ConnectionRuns.LabelLeftByDeletion | agent_rsvp/src/rsvp_connection.cpp:264-283 | a run of an IETF agent that goes down with its label |
| ConnectionRuns.LabelLeftByTimeout | agent_rsvp/src/rsvp_connection.cpp:1071-1084 | a run in which a path is created after six idle ticks, comes up, and is struck at the next tick with its label in place |
| ConnectionRuns.TimeoutStrikesUp | agent_rsvp/src/rsvp_connection.cpp:1048-1084 | whatever came before its creation and since, a path that is up is struck at the next tick, label and all, if and only if more ticks than the timeout came before its creation |
| ConnectionRuns.SetupBounded | agent_rsvp/src/rsvp_connection.cpp:1071-1084 | whatever happens between the ticks, a path that has been sent is up or down after one tick more than the timeout |
| ConnectionRuns.StrikesOnce | agent_rsvp/src/rsvp_connection.cpp:1075-1084 | in any run at all the manager is told of a timeout at most once, and the thread has then ended |
| ConnectionRuns.StruckExactly | agent_rsvp/src/rsvp_connection.cpp:1048-1084 | a path sent in time is struck exactly once if the ticks run out before a RESV, a PATHERR or a teardown settles it, and not at all otherwise |
| ConnectionRuns.LateStruckExactly | agent_rsvp/src/rsvp_connection.cpp:1048-1084 | a path sent late is struck exactly once if the first tick finds it sent or up, and not at all otherwise |
| ConnectionRuns.StrikeReports | agent_rsvp/src/rsvp_connection.cpp:1075-1084 | a tick reports a failed path if and only if the timeout strikes |
| ConnectionRuns.RefreshRate | agent_rsvp/src/rsvp_connection.cpp:1086-1107 | over a run in which the path stays up, with m ticks and anything in between, between m/I and m/I + 1 refreshes are sent, rounding down |
| ConnectionSignals.RefreshesAsCreated | agent_rsvp/src/rsvp_connection.cpp:1086-1107 | whatever came before a path was created and whatever has happened since, a tick that is due while the path is up sends exactly what the creation sent, and any other tick sends nothing |
| ConnectionSignals.AddressesKept | agent_rsvp/src/rsvp_connection.cpp:966-1044 | until it goes down a path keeps the destination it was created with, and until a deletion the router |
| ConnectionSignals.DestinationReleased | agent_rsvp/src/rsvp_connection.cpp:319-360 | the destination is released if and only if an IETF agent deletes without an upstream label, or a RESV says the deletion is under way |
| ConnectionSignals.UpstreamStep | agent_rsvp/src/rsvp_connection.cpp:389-410 | the upstream label of an outgoing path changes only when an OIF agent comes up by a RESV that names one |
| ConnectionSignals.SpeaksToOther | agent_rsvp/src/rsvp_connection.cpp:745-896 | an ack comes first, exactly for a packet that asks for one; all else that an end sends is of a kind for the other direction, and every RESV names the label held |
| ConnectionSignals.Understood | agent_rsvp/src/rsvp_connection.cpp:864-896 | what one end says is accepted by every end of the opposite direction that is up, and refused by every one of its own direction |
| ConnectionSignals.DownIsTold | agent_rsvp/src/rsvp_connection.cpp:798-845 | a path that goes down other than by the user's own deletion is reported in the same step, as what took it down, and a RESV with the deletion flags as a RESVTEAR too |
| ConnectionSignals.DownDrops | agent_rsvp/src/rsvp_connection.cpp:319-360 | of all that takes a path down while it is up, only the timeout leaves it its label and key |
| ConnectionSignals.ComingUpIsTold | agent_rsvp/src/rsvp_connection.cpp:789-808 | an outgoing path that comes up is reported as the RESV that brought it up |
| ConnectionSignals.QuestionStep | agent_rsvp/src/rsvp_connection.cpp:809-840 | the manager is asked about a PATH if and only if it is the first to arrive |
| LabelCounter.TakesNext | agent_rsvp/src/rsvp_connection.cpp:402-403 | a label is taken from the counter if and only if a connection without one accepts a PATH; it is the next one, and the connection has it unless the PATH names another or is a deletion |
| LabelCounter.LabelsApart | agent_rsvp/src/rsvp_connection.cpp:402-403 | in every run of all the connections of an agent, two that hold labels from the shared counter hold the same one if and only if it has gone round between the two; with at most 2^32 labels given, never |
| LabelCounter.ComesUpUnderOwn | agent_rsvp/src/rsvp_connection.cpp:402-470 | an accepted PATH that names no label brings a connection without one up under the label the counter gives next |
| Handshakes.ExchangesEnd | agent_rsvp/src/rsvp_connection.cpp:745-896 | between two ends of any profile every exchange comes to an end: deliveries and answers are at most seven for each creation, deletion and tick |
| Handshakes.SetupCompletes | agent_rsvp/src/rsvp_connection.cpp:966-1044 | whatever the order of packets, answers, refreshes and ticks, a creator that is up has the other end up under the same label; once nothing is under way both are up under the label agreed on, or, if the path was refused, both are down without one |
| Handshakes.RefreshKeepsUp | agent_rsvp/src/rsvp_connection.cpp:402-470 | a PATH without the deletion flags leaves a path up that is up, under the label it names or had, and is confirmed with that label |
| Deletions.NearDestroys | agent_rsvp/src/rsvp_connection.cpp:1116-1236 | asked to delete, the creator sends a PATH with the deletion flags and stays as it is, or, an IETF agent without an upstream label, goes down and sends a PATHTEAR |
| Deletions.FarDestroys | agent_rsvp/src/rsvp_connection.cpp:1166-1302 | asked to delete, the other end sends a RESV with the deletion flags, or goes down and sends a RESVTEAR: either takes the creator down |
| Deletions.FarDeletes | agent_rsvp/src/rsvp_connection.cpp:243-305 | a PATH with the deletion flags takes an OIF agent down, with a PATHERR in answer; an IETF agent answers a RESV with the D flag and waits |
| Deletions.NearEnds | agent_rsvp/src/rsvp_connection.cpp:309-389 | a PATHERR, a RESVTEAR or a RESV with deletion flags takes the creator down, without label and key; the RESV is answered by a PATHTEAR |
| Deletions.DeletionCompletes | agent_rsvp/src/rsvp_connection.cpp:1116-1302 | whichever end of a path that is up is asked to delete it, or both, however often, while refreshes go on and whatever the profiles: once nothing is under way both ends are down; the creator holds no label and no key, and the other end none if and only if no step lost track of one, which none does in an OIF agent, or when the creator is asked once and does not refresh |
| Deletions.DeletedTooEarly | agent_rsvp/src/rsvp_connection.cpp:819-840 | a run in which a path is deleted while the other end's manager has not answered: the creator goes down and the other end stays up |
| TwoAgents.MoveSends | agent_rsvp/src/rsvp_connection.cpp:393-470 | a confirmation is sent only on coming up as the incoming end and names the label held; a PATH only by an outgoing end |
| TwoAgents.TwoAgentSafety | agent_rsvp/src/rsvp_connection.cpp:393-1044 | in every behaviour of two agents and a lossy, duplicating, reordering network, an outgoing end that is up was accepted by the other under the label it uses, and an incoming end that is up answers a path the other created |
| Registry.Dispatcher.Register | agent_rsvp/src/rsvp_dispatcher.cpp:255-271 | appends a new id and refuses a known one, so ids stay distinct; with ten registered a new one is written past the table, and exactly then |
| Registry.Dispatcher.Unregister | agent_rsvp/src/rsvp_dispatcher.cpp:273-289 | takes one entry out, in order |
| Registry.Dispatcher.Find | agent_rsvp/src/rsvp_dispatcher.cpp:354-386 | finds the connection with the id if there is one, and there is no other |
| Registry.Dispatcher.Cleanup | agent_rsvp/src/rsvp_connection.cpp:1055-1066 | the loop leaves what sweeping leaves, and ids distinct |
| Registry.SweptByRuns | agent_rsvp/src/rsvp_connection.cpp:1059-1066 | of each run of dead connections the first, third, fifth and so on go, the others stay |
| Registry.LiveKept | agent_rsvp/src/rsvp_connection.cpp:1059-1066 | all live connections stay, in order |
| Registry.CleanExactly | agent_rsvp/src/rsvp_connection.cpp:1059-1066 | nothing dead is left if and only if no two dead connections were neighbours |
| MgmtInterface.Interface.AskGui | agent_rsvp/src/mgmt_interface.cpp:631-648 | the question goes into the first free slot, which keeps its old request id; a full table is an error |
| MgmtInterface.Interface.CheckSlot | agent_rsvp/src/mgmt_interface.cpp:163-233 | a PATH is put to the manager once, under the next id unless it is a deletion, and waits; anything else leaves the table |
| MgmtInterface.Interface.FindPending | agent_rsvp/src/mgmt_interface.cpp:488-506 | the search by tunnel and id, which gives up at a slot without an id |
| MgmtInterface.Interface.TakeAnswered | agent_rsvp/src/mgmt_interface.cpp:272-303 | the slot found is delivered and freed, and no other changes |
| MgmtInterface.ChecksWrite | agent_rsvp/src/mgmt_interface.cpp:163-233 | a check writes a request exactly for a PATH not asked about yet, and the slot then waits under the id and for the question that were written |
| MgmtInterface.IdsInOrder | agent_rsvp/src/mgmt_interface.cpp:178-193 | in every run the k-th CREATE REQ that is written carries the id k modulo 65536 and the question it was issued for, and the slot remembers that id |
| MgmtInterface.SoundStep | agent_rsvp/src/mgmt_interface.cpp:163-198 | ids are the low sixteen bits of request numbers, every open request sits in a slot of its own with its PATH, and no question is put or delivered twice |
| MgmtInterface.WaitingIdsDiffer | agent_rsvp/src/mgmt_interface.cpp:178-193 | in every run, two slots with recent requests carry different ids |
| MgmtInterface.Correlated | agent_rsvp/src/mgmt_interface.cpp:272-303 | in every run, what an answer delivers is the PATH its request was about, of the tunnel it names, and has not been delivered before |
| MgmtInterface.DeliveredExactly | agent_rsvp/src/mgmt_interface.cpp:488-506 | an answer to an open request is delivered if and only if every slot before it has carried a request |
| MgmtInterface.AnswerLost | agent_rsvp/src/mgmt_interface.cpp:488-506 | a run in which an answer to an open request is not delivered |
| ManagedPaths.RunSeen | agent_rsvp/src/mgmt_interface.cpp:163-303 | every run of a connection with the table of questions is a run of the automaton, with the PATHs pending that the slots of its tunnel hold |
| ManagedPaths.AnswerIsForPending | agent_rsvp/src/mgmt_interface.cpp:272-303 | in every run, what an answer hands to the connection is the PATH it asked about and has not been told about since, and no deletion |
| ManagedPaths.LabelsOfThePair | agent_rsvp/src/rsvp_connection.cpp:309-1302 | of the pair too, a path is down with a label or key if and only if a step lost track of it and none has dropped it since |
| ManagedPaths.SetupOfThePair | agent_rsvp/src/rsvp_connection.cpp:1071-1084 | whatever the manager, the table and the network do, a path that has been sent is up or down after one tick more than the timeout |
| ManagedPaths.WaitsLabelledByArrival | agent_rsvp/src/rsvp_connection.cpp:264-283 | a connection comes to wait with a label only when a deletion arrives at an IETF agent that is up, or that finds no room for the question |
| MgmtCodec.Interoperates | agent_rsvp/src/mgmt_packet.cpp:380-591 | whichever of the four implementations wrote a packet, every reader finds the same objects and values, in order; the agent takes the values of all but types 21 and 22 |
| MgmtCodec.SameLayout | agent_rsvp/src/mgmt_packet.cpp:614-740 | the four writers lay out an object alike, except that only the two in C++ leave the size byte of what is no name zero; the data type byte tells names, floats and the widths of the rest apart |
| MgmtCodec.HeadingBack | agent_rsvp/src/mgmt_packet.cpp:374-378 | every reader finds the id, type and command that were written; Java does if and only if none has its top bit set |
| MgmtCodec.CppRecovers | agent_api/cpp src/mgmt_packet.cpp:165-392 | going on by the data type byte lands on every object, those whose type the reader ignores included |
| MgmtCodec.JavaRecovers | agent_api/java src/communication/PacketUtils.java:350-450 | going on by the object type lands on every object, with signed sizes below 128 |
| MgmtCodec.PythonRecovers | agent_api/python src/agent_API.py:415-473 | going on by the client's own table lands on every object |
| MgmtCodec.JavaCountWraps | agent_api/java src/communication/PacketUtils.java:331-356 | a count of 128 or more is negative, and nothing is read |
| MgmtCodec.CutShort | agent_rsvp/src/mgmt_packet.cpp:356-367 | with more objects than the count byte can say, exactly the first of them, as many as it says, are read |
| MgmtLoops.Build | agent_rsvp/src/mgmt_packet.cpp:58-368 | the writers' loop makes the packet, with the count wrapped in its byte; Python makes none of 256 objects or more |
| MgmtLoops.ReadJava | agent_api/java src/communication/PacketUtils.java:350-447 | the loop of the Java library |
| MgmtLoops.ReadPython | agent_api/python src/agent_API.py:430-473 | the loop of the Python client |
| MgmtEro.Reassemble | agent_rsvp/src/mgmt_packet.cpp:440-603 | for any interleaving of the three kinds of objects the route is the three streams zipped, cut to the shortest, whatever the memory held |
| MgmtEro.RouteBack | agent_rsvp/src/mgmt_packet.cpp:156-171 | the route that was written comes back, whatever other objects stand before and after it |
| MgmtEro.RouteInOrder | agent_rsvp/src/mgmt_packet.cpp:156-171 | the route is written hop by hop: address, prefix length, flag |
| MgmtEro.RouteCut | agent_rsvp/src/mgmt_packet.cpp:440-466 | the first m objects of a message hold its whole route if and only if they reach past its last object |
| MgmtEro.RouteSurvives | agent_rsvp/src/mgmt_packet.cpp:78-367 | through a whole packet, among any other objects, a route comes back if and only if the number of objects, modulo 256, reaches past its last object |
| MgmtEro.RouteLost | agent_rsvp/src/mgmt_packet.cpp:356-367 | 85 hops behind two other objects: the agent reads one object, and no hop |
| MgmtStore.DecodeAgent | agent_rsvp/src/mgmt_packet.cpp:343-603 | the agent's constructor leaves its configuration with what the objects it reads are filed under, first value first, and the route; or it reads past the end |
| MgmtStore.DecodeLibrary | agent_api/cpp src/mgmt_packet.cpp:139-393 | the library's constructor leaves each field with the last value of its type, or runs past the end of the packet or of the name field |
| MgmtStore.AgentKeeps | agent_rsvp/src/mgmt_packet.cpp:388-572 | every parameter an object is filed under says what the object said if and only if it is no part number and no path status and the first object of its type said the same up to a zero byte |
| MgmtStore.AgentKeepsAll | agent_rsvp/src/mgmt_packet.cpp:388-603 | of any objects the agent keeps every value if and only if there is no part number, no path status, no name with a zero byte, no type with two values, and as many addresses as prefix lengths and flags |
| MgmtStore.AgentUnderstands | agent_rsvp/src/mgmt_packet.cpp:343-603 | the same through a packet of any of the four writers |
| MgmtStore.LibraryHolds | agent_api/cpp src/mgmt_packet.cpp:165-373 | an object is held if and only if the last of its type, as far as its field has room, said the same |
| MgmtStore.LibraryHoldsAll | agent_api/cpp src/mgmt_packet.cpp:165-373 | of any objects the library holds every value if and only if names are below 50 bytes and have no zero byte, a hop flag is 0 or 1, and no type has two values |
| MgmtStore.LibraryUnderstands | agent_api/cpp src/mgmt_packet.cpp:139-393 | the same through a packet of any of the four writers |
| MgmtStore.SameConfiguration | agent_rsvp/src/mgmt_packet.cpp:388-572 | when no type has two values, keeping the first and keeping the last come to the same: the agent keeps an object if and only if the library holds it and it is no part number and no path status |
| MgmtStore.PathStatusLost | agent_rsvp/src/mgmt_packet.cpp:536-538 | a path status reaches the fields of the library and leaves nothing in the configuration of the agent |
| MgmtStore.LooseHeld | agent_api/cpp src/mgmt_packet.cpp:240-246 | the library holds the flag of a hop as loose if and only if the byte is 1 |
| MgmtEncode.EncodeAgent | agent_rsvp/src/mgmt_packet.cpp:65-340 | the encoding constructor makes the packet of the objects that its own table makes of the configuration, route and hops in loops |
| MgmtEncode.EncodedComesBack | agent_rsvp/src/mgmt_packet.cpp:65-603 | decoding what the agent encodes gives every parameter it wrote back under its own name, the path status excepted, and nothing else but the copies in the data interfaces and the call identifier |
| MgmtEncode.HopComesBack | agent_rsvp/src/mgmt_packet.cpp:156-171 | a hop of the route comes back but for its two bytes of padding |
| MgmtEncode.AgentReadsItself | agent_rsvp/src/mgmt_packet.cpp:65-603 | the same through the packet, for up to 255 objects and names below 256 bytes |
| Locks.ProgramLeads | agent_rsvp/src/rsvp_dispatcher.cpp:206-231 | everything the agent does takes its semaphores in one order and gives them all back |
| Locks.ProgramTakes | agent_rsvp/src/rsvp_dispatcher.cpp:206-386 | how often each activity takes the table, the message ids and each connection, and that it releases one early exactly when told to |
| Locks.ProgramEnters | agent_rsvp/src/rsvp_dispatcher.cpp:206-386 | a delivery to a known tunnel and a report hold the table while inside a connection; nothing else does |
| Locks.NoDeadlock | agent_rsvp/src/rsvp_dispatcher.cpp:354-371 | in every interleaving, until all threads are done one of them can go on |
| Locks.Inside | agent_rsvp/src/rsvp_connection.cpp:589-859 | in every interleaving the count of a connection's semaphore is one, less the threads inside, plus the early releases, so without those at most one thread is inside |
| Locks.AgentNoDeadlock | agent_rsvp/src/rsvp_dispatcher.cpp:206-371 | the threads of the agent, whatever each has to do, never all wait: until they are done one of them can go on |
| Locks.AgentInside | agent_rsvp/src/rsvp_connection.cpp:589-859 | of the threads of the agent at most one is inside a connection while nothing has been released early |

## Left out

- Binary32.WriteIeeeFloat: does not model subnormals and NaN; a configuration that holds one is outside `CanSend`.
- Configuration.RsvpConfiguration.Add: requires a block of memory put in a table to be non-empty; for an empty one the source depends on what `malloc(0)` returns.
- Configuration.RsvpConfiguration.Set: requires a block of memory put in a table to be non-empty, for the same reason.
- Configuration.RsvpConfiguration.SetAdd: requires a block of memory put in a table to be non-empty, for the same reason.
- BitField.PutField: requires the value to fit the field and the field to have at most 32 bits, as every caller sees to; and does not model the first access when the field ends on a byte boundary, which rewrites a byte with its own value, possibly the one after the buffer.
- Headers.ParseHeaders: does not model what a read past the end of the buffer returns; it says when there is one.
- ObjectFormats: the bytes `realloc` adds to pad a label or a session name, and the padding of `struct rc_ero`, are taken to be zero; they are indeterminate in the source.
- RsvpPackets.RsvpPacket: does not model the configuration as a reference to a store object; it holds the map that the store refines, so aliasing between packet and connection is not captured.
- ObjectFidelity.Fidelity: says nothing of CALL_ID_0, MESSAGE_ID_LIST and SCOPE, which carry nothing or are never written (for the first see `RsvpMessage.CallIdReceived`), nor of the global message id that parsing a MESSAGE_ID sets.
- WireFormats.WiredValue: is about one value with an even sign; `FloatSigns` carries the unset sign of `write_ieee_float` through a message.
- RsvpMessage.Sendable: excludes messages whose parsing does not end as their objects do: an object longer than its length field can say, a CALL_ID_0 that nothing follows, a (3,3) hop without its data handle, the first one without eight bytes after it, a style without a flag.
- Connections.RsvpConnection.GetPacket: does not model a RESV without a label or a PATH without the parameters the handlers read; the source reads a null pointer.
- Connections.RsvpConnection.RefreshPath: takes one iteration to be atomic, and the interval to be positive, as the source divides by it.
- Connections: addresses, timers, session parameters and the MPLS, routing and message id calls appear only as inputs; which objects a message lists is taken from `ObjectList` and not tied to each handler.
- Handshakes.SetupCompletes: is about a path created without the deletion flags and under a label that is not a wrapped 0, while nobody deletes it and no timeout strikes; `Deletions.DeletedTooEarly` is a run with a deletion, `ConnectionRuns` has the timeouts.
- Deletions.DeletionCompletes: starts from a path that came up in time for its timeout; `ConnectionRuns.TimeoutStrikesUp` says when another is struck.
- LabelCounter.LabelsApart: takes the step of the counter to be atomic; the source advances it under the semaphore of one connection only.
- MgmtEncode.AgentReadsItself: requires the objects to fit the count byte and names their size byte; `MgmtEro.RouteSurvives` says what becomes of a route beyond that.
- Registry.Dispatcher.Register: does not model what a write past the table overwrites; it says when there is one, and leaves the table as it is.
- Registry.Dispatcher.Cleanup: does not model connections that register while the loop runs without the semaphore.
- MgmtInterface: the table of established paths (`add_path`, `find_path`, `delete_path`) and STATUS requests are left out, and the socket is always connected.
- MgmtCodec.Interoperates: does not model the character encodings that Java and Python give the bytes of a name.
- MgmtStore.DecodeAgent: takes the two bytes of padding in each stored hop, which nothing reads, to be zero.
- Locks.NoDeadlock: models each activity as the semaphores it takes, in order, and not what it does in between.
- Sockets, `select`, raw I/O, `ioctl`, `fork` and start-up are left out: packets are inputs and outputs of steps.
- `malloc` failure, leaks and use after `free` are left out.
- HELLO and SREFRESH replies are left out: they touch no connection.
- The double conversion of `floatformat.cpp` is left out: nothing in the agent calls it.
