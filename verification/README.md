# Volition: a verified model of its protocol stack

Volition administers nodes through a server. Everything the parties say to each other travels as Conation streams:
octet vectors with a 17-octet header and typed arguments. This project models that stack in Dafny, from the octets of
one argument up to the administrator's replica of the node list, and proves what the parts promise each other.

The modules follow the program's layers.

- `Bytes`, `Arguments`, `Ident`, `Validation`, `Streams`, `StreamRuns`: the codec. A stream is a class with a growing
  byte vector and a cursor, as in the source; a list of arguments with a place in it is the specification that every
  operation, and every sequence of operations, refines. The validator is proved sound and complete for that list.
- `Transport`, `Alongside`: the chunk loops over a socket that moves any positive amount, and the downloading constructor.
  The main result is end-to-end framing under every choice of partial transfers, and of what either end does first.
- `WriteQueue`, `ConationQueue`: the threaded queues as interleaved atomic steps of any number of threads. The main
  results are no lost wake-up, conservation in order, the token law, and exactly when a waiter can starve.
  `WriteQueueHistories` and `ConationQueueHistories` tell what any run has made of a queue from its steps alone, what
  each call does when it runs by itself, and how a worker obeys a stop.
- `Reconnects`: the write queue over its connections. The main result is delivery once and in order across failed writes
  and reconnections, and exactly when a connection carries whole streams.
- `ReplicaModel`, `NodeRecords`, `Clients`, `CmdHandling`, `ControlProgram`, `Replica`: the server's clients and node
  table, its handlers, and the control program's tracker. `ReplicaModel` is a state machine over values with the
  convergence theorem and, for every event, the exact condition under which it holds, and says for every run what the
  tracker settles on; the classes are proved to refine it step by step, and `Replica` puts both ends together for any
  sequence of commands. `ReplicaHistories` tells table, map and administrator's list from the events alone, field by field.
- `MasterLoop`, `HeadAccounts`, `Pings`: the core loop with clients leaving in the middle of it, the account of every
  client's read head and of what its handler is given over it, and its pings.
- `Pacing`, `Schedule`, `RoutineStreams`, `Routines`, `RoutinePasses`, `RoutineFailures`, `ScheduledRuns`,
  `RoutineHistories`: the counter that paces the loop, the schedule language, the routines in memory and on disk, what
  they send, passes over them, which accepted ones end a pass, and whole runs of passes with the administrator's changes
  and connections between them.
- `Splitting`, `TextTools`: splitting and joining text, and decimal numbers.
- `Brander`, `BrandAttributes`: branding a binary in place and reading it back.
- `Jobs`, `JobRuns`: a node's jobs, the headers of their answers, and, for every run of what can happen to them, whose
  request each serves and what it has been handed.

`dafny verify dfyconfig.toml` checks the whole project.

## Where the code does less than it seems to

These are properties one would expect that the code does not have. The model keeps the code as it is; each has a proof
of exactly when the property holds.

- An update report that carries the routine flag changes table and client but is not announced
  (`src/server/cmdhandling.cpp:125`), so the administrator keeps the old revision until the next index:
  `ReplicaModel.RoutineUpdateDiverges`, `ReplicaModel.ConvergesExactly`, `ReplicaModel.ReplicaSettles`.
- A revocation that kills deletes rows after the offline notification and sends no index
  (`src/server/cmdhandling.cpp:896-912`): `ReplicaModel.RevocationDiverges`, and
  `ReplicaModel.RevocationLeaves` says exactly what the administrator is left with.
- The validator looks at sizes only. A pop of a validated argument of a known type and a valid size reads beyond the
  argument when a text in it has no terminator or a status no code (`src/libvolition/conation.cpp:656-832`):
  `StreamRuns.AcceptedOverRead`, and exactly when in `Arguments.InsideExactly` and `StreamRuns.DrainAgrees`.
- A handler that disconnects another client gives up that client's read head, which nobody has acquired
  (`src/server/clients.cpp:503-515`): it is unlocked once too often, and its front stream is dropped unread.
  `CmdHandling.ForgetReleasesUnacquired`, and exactly when in `HeadAccounts.EvenExactly`.
- After a failed write the worker tries the same stream again on the same connection until the owner stops it
  (`src/libvolition/netscheduler.cpp:178-204`). If the failed write had moved octets and the connection moves some again,
  they lie in front of the stream: `Reconnects.RetryMisframes`, and exactly when in `Reconnects.LostExactly` and
  `Reconnects.WiresCarry`.
- `PopArgument` restores its cursor on failure except when the size field is false, because the check itself throws
  (`src/libvolition/conation.cpp:513-523`): `Streams.ConationStream.PopArgument`, `StreamRuns.ThrowMovesCursor`.
- `AppendArgData` takes 17 octets too few from a partly read input (`src/libvolition/conation.cpp:1428`), so a routine
  whose stored stream begins with an origin/destination header and has further arguments never arrives whole:
  `Streams.ConationStream.AppendIsConcatenation`, `Streams.ConationStream.AppendSoundExactly`,
  `RoutineStreams.WholeExactly`. With 1 to 16 octets behind the header the length copied wraps round and the copy runs off
  the end, though the request to add the routine is accepted: `RoutineFailures.TooShortFails`, and exactly when in
  `Streams.ConationStream.AppendArgData`, `RoutineStreams.SendableExactly` and `RoutineFailures.AddThenConnect`.
- A scheduled routine without arguments is accepted, and looked at through a null pointer when its time comes
  (`src/server/routines.cpp:287-289`); one that runs on connection is not: `RoutineFailures.BareFails`, and exactly when in
  `RoutineFailures.AddThenLook` and `RoutinePasses.EndsExactly`.
- `PushArgument` passes statuses through their constructor, which replaces a zero code and an empty message:
  `Arguments.RepushIdentical`. `WorkedAtAll` is recomputed from the code: `Arguments.StatusRoundTrip`.
- A destructive `Pop` leaves its semaphore token behind, so a later `WaitPop` may meet an empty queue:
  `ConationQueue.StarvationExactly`.
- The time cache of the schedule checker starts as zeroes: `Schedule.FirstQueryAtZero`. A schedule of fewer than seven
  fields throws when all it has accept: `Schedule.VerdictThrows`.
- Branding stops at the first value it cannot place and keeps what it has written: `Brander.StopsAtFirstBad`.

## Conventions

A text is a sequence of octets without NUL, as a `VLString` holds it. Tables are maps whose operations succeed. Clocks,
the socket's choices, what a handler does to other clients, what the queues' status objects report, and the order in
which maps are gone through are inputs or nondeterministic choices. `Option` stands for nullable pointers, and failure
results stand for exceptions. Ghost fields say what a mutable object amounts to; `Valid()` ties them to its real fields.

## Model

| member | source | states |
|---|---|---|
| Bytes.BigEndianRoundTrip | src/libvolition/utils.cpp:256-264 | a number below 256^n written as n octets in network order reads back as itself |
| Bytes.FromBigEndianRoundTrip | src/libvolition/utils.cpp:256-264 | any octets read as a number and written again at the same width are the same octets |
| Bytes.BigEndianOctets | src/libvolition/utils.cpp:256-264 | each octet in its place: the k-th of n is the quotient by 256^(n-1-k), modulo 256 |
| Bytes.Swap64bit | src/libvolition/utils.cpp:266-278 | the memory image of the result is that of the argument reversed, on a host of either byte order |
| Bytes.HtoNll | src/libvolition/utils.cpp:256-259 | whatever the host's byte order, the word's memory image is network order |
| Bytes.NtoHll | src/libvolition/utils.cpp:261-264 | the word returned is the one whose network order is the argument's memory image |
| Bytes.NetworkOrderRoundTrip | src/libvolition/utils.cpp:256-278 | a word sent by a host of either byte order is received unchanged by a host of either byte order |
| Arguments.ParseJoined | src/libvolition/conation.cpp:243-409 | joined type/size/payload encodings split back into exactly the arguments they came from |
| Arguments.JoinedParse | src/libvolition/conation.cpp:913-960 | octets that split, split in one way only: joining the parts gives the octets back |
| Arguments.ParseTail | src/libvolition/conation.cpp:913-960 | behind whole arguments, further octets leave whole arguments if and only if they are whole arguments themselves |
| Arguments.CutParses | src/libvolition/conation.cpp:1424-1443 | cutting octets off the end of whole arguments leaves whole arguments if and only if the cut lies between two arguments |
| Arguments.EncodedOctets | src/libvolition/conation.cpp:475-545 | an argument on the wire: two octets of type, eight of size, each most significant first, and the payload |
| Arguments.DecodeRaw | src/libvolition/conation.cpp:656-832 | each of the twelve kinds, pushed and popped, is read back as the argument it was, and its size is one the type allows |
| Arguments.KindsOnWire | src/libvolition/include/conation.h:48-65 | the type of each of the twelve kinds as a number on the wire |
| Arguments.NumberOnWire | src/libvolition/conation.cpp:264-305 | a number travels as its residue modulo 2^32 or 2^64, in four or eight octets, each in its place |
| Arguments.TextOnWire | src/libvolition/conation.cpp:243-409 | statuses, files, booleans and headers octet by octet: where terminators lie and what lies between them |
| Arguments.DecodeTexts | src/libvolition/conation.cpp:656-832 | whatever the payload, a popped text is what lies in front of the first terminator of its part of it |
| Arguments.SizeExactly | src/libvolition/conation.cpp:487-502 | for the kinds of fixed size, the sizes that pass the check are those of arguments of that kind and no others |
| Arguments.InsideExactly | src/libvolition/conation.cpp:656-832 | a pop reads no octet but its own argument's if and only if the payload holds what its kind is read from: terminators and a status code |
| Arguments.EncodingInjective | src/libvolition/conation.cpp:243-409 | two typed lists of representable size with the same octets are the same list |
| Arguments.StatusRoundTrip | src/libvolition/conation.cpp:1056-1071 | a status survives the trip if and only if its WorkedAtAll flag agrees with its code being OK or WARN, because only code and message are sent |
| Arguments.DefaultStatusTravels | src/libvolition/include/common.h:124-160 | a status made without a code survives the trip, with the flag it was made with and a message |
| Arguments.GivenStatusKept | src/libvolition/include/common.h:124-160 | a status made with a code keeps it, and its message unless that was empty |
| Arguments.RepushIdentical | src/libvolition/conation.cpp:1207-1265 | pushing popped arguments again writes the same octets if and only if every status has a non-zero code and a message, because the constructor replaces both when they are missing |
| Ident.DecodeBuilt | src/libvolition/include/conation.h:87-109 | flags and ident come back from the composite they were built into; the ident does so if and only if it has at most 56 bits |
| Ident.CompositeSum | src/libvolition/include/conation.h:97-103 | for idents of at most 56 bits the composite is the ident plus the flags times 2^56 |
| Ident.BuildDecoded | src/libvolition/include/conation.h:87-109 | every 64-bit word is rebuilt from its decoded flags and ident |
| Ident.BuildOverComposite | src/libvolition/include/conation.h:97-103 | building over an ident that is already composite merges the two flag octets |
| Ident.ReportWord | src/libvolition/include/conation.h:97-103 | adding the report flag over the composite or over the bare ident gives one word, which keeps the ident and every other flag |
| Ident.WithReport | src/libvolition/include/conation.h:87-103 | a word is another with the report bit put in if and only if it has that one's ident, and its flags with the report flag |
| Validation.WholeArgumentsParse | src/libvolition/conation.cpp:913-960 | there is a list of arguments whose encodings make up the octets if and only if splitting from the front succeeds |
| Validation.IntegrityCheck | src/libvolition/conation.cpp:913-960 | accepts exactly the buffers whose octets behind the header are whole arguments with nothing left over; shorter than a header throws out of range |
| Validation.CountArguments | src/libvolition/conation.cpp:862-881 | on validated octets the walker stays in bounds, ends, and counts the arguments |
| Validation.GetArgTypes | src/libvolition/conation.cpp:883-911 | on validated octets the types found are those of the arguments, in order; null without argument data |
| Validation.VerifyArgTypes | src/libvolition/conation.cpp:1016-1040 | accepts exactly the type list of the stream; a stream without arguments accepts an empty list or one led by NONE |
| Validation.VerifyArgTypesStartWith | src/libvolition/conation.cpp:991-1014 | accepts exactly the prefixes of the type list, with the same exception |
| Validation.MatchPattern | src/libvolition/conation.cpp:973-988 | the loop with the wrapping counter accepts exactly when the types from the offset on are one or more copies of the list |
| Validation.VerifyArgTypePattern | src/libvolition/conation.cpp:962-989 | for every offset, wrapping size_t arithmetic included, accepts exactly the repetitions of a non-empty list |
| Validation.RepeatsWhenModular | src/libvolition/conation.cpp:973-988 | types that agree with the list index by index modulo its length, a whole number of times, are copies of it end to end |
| Validation.ModularWhenRepeats | src/libvolition/conation.cpp:973-988 | copies of the list end to end agree with it index by index modulo its length |
| Streams.HeaderRoundTrip | src/libvolition/conation.cpp:455-473 | a written header is read back as it was if and only if its ident has at most 56 bits; size and composite always come back |
| Streams.HeaderOctets | src/libvolition/conation.cpp:1413-1423 | a header on the wire: one octet of command, eight of size and eight of composite, each most significant first |
| Streams.ConationStream.Empty | src/libvolition/conation.cpp:85-87 | seventeen zero octets are a valid stream without arguments |
| Streams.ConationStream.Make | src/libvolition/conation.cpp:89-99 | a new stream is valid, rewound, empty, and spells the header it was given |
| Streams.ConationStream.Copy | src/libvolition/conation.cpp:199-202 | a copy has the same octets and its cursor at the same argument, whatever the size field says |
| Streams.ConationStream.FromOctets | src/libvolition/conation.cpp:101-116 | accepts memory if and only if the octets its size field covers are whole arguments, and takes exactly those |
| Streams.ConationStream.FromHeader | src/libvolition/conation.cpp:118-144 | accepts a header and payload if and only if the payload is whole arguments; without one the payload is zeroes |
| Streams.ConationStream.AlterHeader | src/libvolition/conation.cpp:1413-1422 | rewrites the header octets only; validity is kept when the size given is the true one |
| Streams.ConationStream.AutoSetStreamArgsSize | src/libvolition/conation.cpp:593-600 | makes the size field true and touches no other octet; a vector shorter than a header throws |
| Streams.ConationStream.Push | src/libvolition/conation.cpp:243-409 | appends one argument to the list, leaves the size field true even if it was not, and the other header fields as they were |
| Streams.ConationStream.PushArgument | src/libvolition/conation.cpp:1207-1265 | appends the argument, a status rebuilt through its constructor, and keeps the stream valid |
| Streams.ConationStream.WipeArgs | src/libvolition/conation.cpp:1200-1205 | leaves a valid stream without arguments under the same command and ident |
| Streams.ConationStream.PopArgument | src/libvolition/conation.cpp:613-842 | yields the first unread argument and moves to the next boundary, or says that it reads beyond it; says for every failure which one it is and where the cursor is left: restored, except that a false size field leaves it behind the argument header |
| Streams.ConationStream.AppendOctets | src/libvolition/conation.cpp:1432-1442 | the result's size field is true, and it is valid if and only if the octets added are whole arguments |
| Streams.ConationStream.AppendArgData | src/libvolition/conation.cpp:1424-1443 | an exhausted input changes nothing; the copied length wraps if and only if a cursor is set with 1 to 16 octets unread; otherwise the octets between cursor and end, 17 fewer when the cursor is set, are added, and the result is valid if and only if they are whole arguments |
| Streams.ConationStream.AppendIsConcatenation | src/libvolition/conation.cpp:1424-1443 | what is added is the input's unread list if and only if the input is rewound; with the cursor set exactly 17 octets of it are missing, or the length has wrapped |
| Streams.ConationStream.AppendSoundExactly | src/libvolition/conation.cpp:1424-1443 | from a partly read input there is a well-formed result if and only if the input's last 17 octets are whole arguments |
| StreamRuns.Perform | src/libvolition/conation.cpp:613-842 | one operation does to the stream object what it does to a plain list with a place in it, and answers alike |
| StreamRuns.Run | src/libvolition/conation.cpp:85-842 | after any legal sequence of pushes, pops, rewinds, copies, header edits and wipes the size field is true, the cursor is null or on a boundary, and all answers are those of the list |
| StreamRuns.PushThenPopAll | src/libvolition/conation.cpp:243-842 | pushing any list of arguments and popping until nothing is left gives the list back; the last pop throws when the list is empty and returns null otherwise |
| StreamRuns.RepushRoundTrip | src/libvolition/conation.cpp:1207-1265 | the octets of a stream spell its header and list; popping it into an empty one with the same header spells the repushed list, and the two are identical if and only if no status lacks a code or a message |
| StreamRuns.DrainAgrees | src/libvolition/conation.cpp:613-911 | on every validated stream of known, well-sized arguments repeated pops end and agree with CountArguments and GetArgTypes; none reads beyond its argument if and only if every payload can be read from its own octets |
| StreamRuns.AcceptedOverRead | src/libvolition/conation.cpp:913-960 | twenty-seven octets that the validator accepts and whose one argument, known and well-sized, a pop reads beyond |
| StreamRuns.ThrowMovesCursor | src/libvolition/conation.cpp:513-523 | a concrete stream on which a throwing pop leaves the cursor ten octets further on |
| Transport.Write | src/libvolition/netcore.cpp:315-346 | everything is written in order, or an unreliable socket has taken a proper prefix, whatever amounts it chose |
| Transport.Read | src/libvolition/netcore.cpp:355-386 | success means exactly the octets asked for, off the front of the channel; failure loses none and invents none |
| Transport.DownloadStream | src/libvolition/conation.cpp:146-197 | whatever is accepted is one whole stream off the front of the channel; over a reliable channel the outcome, error kinds included, is decided by what the channel holds |
| Transport.ExpectedWhole | src/libvolition/conation.cpp:146-197 | a channel that begins with a whole stream within the limit leads to exactly that stream being downloaded |
| Transport.ExpectedStays | src/libvolition/conation.cpp:146-197 | how a download ends, other than by a failure to read, does not depend on the octets behind; it is refused for its size exactly when its header asks for more than 512 MiB |
| Transport.SelfDelimiting | src/libvolition/conation.cpp:146-197 | two whole streams that begin the same octets are the same stream |
| Transport.SendAll | src/libvolition/netcore.cpp:315-346 | streams written back to back lie end to end on the channel, up to a proper prefix of the one that failed |
| Transport.ReceiveAll | src/libvolition/conation.cpp:146-197 | what is downloaded is a prefix of what was sent, stream by stream, and over a reliable channel all of it |
| Transport.Exchange | src/libvolition/netcore.cpp:315-386 | for every list of streams and every choice of partial transfers, the receiver gets a prefix of the list, and over a reliable socket the list |
| Alongside.DownloadSoFar | src/libvolition/netcore.cpp:315-386 | whatever amounts both ends move and in whatever order, what has been read holds exactly the streams that have arrived whole, in order, and in the end all of them |
| Alongside.AnyAmount | src/libvolition/conation.cpp:146-197 | whatever there is to be written or read, any amount of it can be moved next, and arrives in order |
| Transport.DeliverArguments | src/libvolition/conation.cpp:146-409 | typed lists pushed, sent, downloaded and popped arrive as they were |
| WriteQueue.StepKeeps | src/libvolition/netscheduler.cpp:67-97 | every atomic step of producers, worker and owner keeps mutual exclusion, conservation and the wake-up bound |
| WriteQueue.NoLostWakeup | src/libvolition/netscheduler.cpp:140-172 | in every interleaving a worker at the semaphore has a post made or owed for each queued stream and for a pending stop, so blocked with nothing owed means an empty queue and no stop |
| WriteQueue.Conservation | src/libvolition/netscheduler.cpp:140-215 | in every interleaving, failed writes and restarts included, written streams followed by unwritten ones are the pushed ones in order, and the stream being written is the front |
| WriteQueue.SomeoneCanMove | src/libvolition/netscheduler.cpp:140-215 | while the worker lives and there is work or a stop pending, some begun action can complete: there is no deadlock |
| WriteQueueHistories.RunTells | src/libvolition/netscheduler.cpp:67-215 | told by the steps alone, for every run: what was pushed are the streams brought, in the order put on the list; what was written are the first of those, one for each write that succeeded; the semaphore holds the posts not waited for; error and stop flag are up exactly when a write has failed, or a stop been asked for, since they were cleared |
| WriteQueueHistories.StopObeyed | src/libvolition/netscheduler.cpp:67-97 | from any state with the stop flag up, over any steps that do not begin the worker again: no write is begun, at most the one in hand is finished, and after five steps of the worker, failing writes included, it is dead |
| WriteQueueHistories.StopCanEnd | src/libvolition/netscheduler.cpp:67-97 | in every run a worker told to die can be brought to it by steps that only complete what has been begun, and then the owner's join is enabled |
| WriteQueueHistories.PushCompletes | src/libvolition/netscheduler.cpp:140-152 | with the mutex free any push can run to its end: the stream lies last on the list and a post has been made |
| WriteQueueHistories.WriteCompletes | src/libvolition/netscheduler.cpp:155-212 | one turn of a worker with something on the list: the front is written and taken off, or stays there with the error raised |
| WriteQueueHistories.WaitCompletes | src/libvolition/netscheduler.cpp:155-172 | one turn of a worker that finds the list empty takes one post and changes nothing else |
| WriteQueueHistories.StopCompletes | src/libvolition/netscheduler.cpp:67-80 | with the mutex free the owner can ask a live worker to stop: the flag is up and a post has been made |
| WriteQueueHistories.WholeLife | src/libvolition/netscheduler.cpp:67-215 | a run from the beginning: the worker waits, a push wakes it, the stream is written, a stop is asked for and the worker dies with nothing lost |
| Reconnects.StepKeeps | src/libvolition/netscheduler.cpp:140-215 | every step, failed writes and new connections included, keeps every connection's octets accounted for |
| Reconnects.LostExactly | src/libvolition/netscheduler.cpp:178-204 | some connection has lost octets if and only if among the acts a failed write that moved some is followed, with no new connection between, by a write that moves some |
| Reconnects.WiresCarry | src/libvolition/netscheduler.cpp:44-215 | in every interleaving the streams written whole over all connections, then the unwritten ones, are those pushed in order; all connections carry their streams end to end, with at most a proper part of the next behind them, if and only if no failed write that moved octets was followed by another on the same connection that did |
| Reconnects.ReceiveRun | src/libvolition/netscheduler.cpp:140-285 | in every run whose acts have no such pair, the receivers of all connections download, if they do not fail, exactly what was pushed and written, once and in order across failed writes and reconnections |
| Reconnects.RetryMisframes | src/libvolition/netscheduler.cpp:178-204 | a concrete run with such a pair: a write fails behind one octet, is tried again on the same connection and succeeds, and the receiver refuses what it finds |
| ConationQueue.StepKeeps | src/libvolition/include/conation.h:322-370 | every atomic step keeps mutual exclusion, first-in-first-out order and, until a waiter starves, the token law |
| ConationQueue.FifoAndTokens | src/libvolition/include/conation.h:314-371 | in every run what was delivered followed by what is queued is what was pushed; tokens plus waiters past their wait equal queued streams plus destructive pops |
| ConationQueue.WaitersAreServed | src/libvolition/include/conation.h:358-370 | in runs without a destructive Pop no WaitPop meets an empty queue |
| ConationQueue.StarvationExactly | src/libvolition/include/conation.h:336-370 | between calls, waiting alone can meet an empty queue if and only if a destructive Pop has taken a stream |
| ConationQueueHistories.RunTells | src/libvolition/include/conation.h:314-371 | told by the steps alone, for every run: the streams handed out are the first of those pushed, one for each WaitPop and each destructive Pop that found one, and the queue holds the rest; the destructive Pops among them, starvation and the semaphore are counted likewise |
| ConationQueueHistories.PopThenStarve | src/libvolition/include/conation.h:336-370 | a concrete run that ends between calls with one stream taken by a destructive Pop, and from which waiting alone can meet an empty queue |
| ConationQueueHistories.PushCompletes | src/libvolition/include/conation.h:322-334 | with the mutex free any push can run to its end: the stream lies last in the queue and a post has been made |
| ConationQueueHistories.PopCompletes | src/libvolition/include/conation.h:336-350 | a Pop that means to takes the front out, and any other changes nothing; neither touches the semaphore |
| ConationQueueHistories.WaitPopCompletes | src/libvolition/include/conation.h:352-370 | a WaitPop with a post and a stream takes both |
| ConationQueueHistories.WokenByPush | src/libvolition/include/conation.h:322-370 | a WaitPop blocked on an empty queue is woken by a push and hands out what was pushed |
| ReplicaModel.CoherenceKept | src/server/cmdhandling.cpp:43-188 | every event keeps each connected node's fields equal to its table row |
| ReplicaModel.ConvergesExactly | src/server/cmdhandling.cpp:43-188 | with an indexed administrator an event keeps the replica converging if and only if it is neither a routine-flagged update that changes the revision nor a revocation that kills somebody |
| ReplicaModel.ReplicaConverges | src/server/cmdhandling.cpp:1371-1510 | in every run without such events since the last index, folding the undelivered messages into the tracker gives the server's view, and with none undelivered the tracker is the view |
| ReplicaModel.StepSettles | src/server/cmdhandling.cpp:43-188 | every event leaves what the tracker settles on as the view with exactly the stale records over it |
| ReplicaModel.ReplicaSettles | src/server/cmdhandling.cpp:43-1510 | in every run, once an index is queued, the tracker settles on the view overlaid with the stale and killed records since; it converges if and only if there are none |
| ReplicaModel.IndexRecovers | src/server/cmdhandling.cpp:773-812 | after any run whatever, an index response or a forget request makes the replica converge again |
| ReplicaModel.RevocationLeaves | src/server/cmdhandling.cpp:896-912 | a revocation that kills leaves the tracker with the view and, besides, exactly an offline record of every node killed |
| ReplicaModel.RevocationDiverges | src/server/cmdhandling.cpp:896-912 | a concrete run in which a killing revocation leaves the tracker with a record of a node that is gone |
| ReplicaModel.RoutineUpdateDiverges | src/server/cmdhandling.cpp:119-128 | a concrete run in which a routine-flagged update report leaves the tracker with the old revision |
| ReplicaHistories.RunTells | src/server/cmdhandling.cpp:43-912 | told by the events alone, for every run: a node has a row exactly if it was accepted and not forgotten or killed since, and is connected exactly if its connection has not ended since; platform, time, address and token are those of its acceptance, revision, group and latency those last reported or assigned |
| ReplicaHistories.RunTellsAdmin | src/server/cmdhandling.cpp:43-912 | there is an administrator, and it has been sent an index, exactly as the events say |
| ReplicaHistories.HistoryReplicated | src/server/cmdhandling.cpp:1371-1510 | when an index has been sent and nothing silent has happened since, what the administrator settles on names exactly the nodes accepted and not forgotten or killed since, each with the fields of its last events, online exactly if its connection has not ended |
| ReplicaHistories.SendsExactly | src/server/cmdhandling.cpp:1462-1510 | every event sends the administrator exactly this: the node's record as it then stands if the event is one that is announced, an offline record of each node killed or forgotten while connected, an answer to each request, and an index where one is due; and touches its tracker by nothing but a delivery |
| ReplicaHistories.SendsNothing | src/server/cmdhandling.cpp:1462-1510 | without an administrator nothing is sent; a new one starts with its welcome alone under way |
| ReplicaHistories.RevokedExactly | src/server/cmdhandling.cpp:874-917 | in every run the nodes a killing revocation kills are those connected with the token, and no others |
| ReplicaHistories.ForgottenStays | src/server/cmdhandling.cpp:773-812 | after any run, behind a forget request and until a node of that name is accepted again: it is in no table, no indexed administrator settles on a record of it, and none holds one when everything has been delivered |
| NodeRecords.ListRoundTrip | src/server/cmdhandling.cpp:1384-1456 | a list of records pushed eight arguments at a time is read back as that list |
| NodeRecords.DecodedChange | src/control/cmdhandling.cpp:194-267 | the eight arguments of a notification mean the record they were made from |
| NodeRecords.DecodedIndexOf | src/control/cmdhandling.cpp:269-337 | the arguments of an index response mean the table of its records |
| NodeRecords.MalformedIndex | src/control/cmdhandling.cpp:269-337 | an index that is no whole number of records changes nothing; one with a misplaced type files the records in front of it and deletes none |
| Clients.ClientObj.SendPing | src/server/clients.cpp:377-393 | at most one ping is outstanding; a second one is refused and changes nothing |
| Clients.ClientObj.CompletePing | src/server/clients.cpp:395-414 | latency is the round trip less one core period when it is at least that long, in wrapping 64-bit arithmetic; without a ping outstanding nothing changes |
| Clients.ClientObj.HeadAcquire | src/libvolition/netscheduler.cpp:313-320 | the queue is locked once more whether or not it has a head |
| Clients.ClientObj.HeadRelease | src/libvolition/netscheduler.cpp:322-332 | the queue is unlocked once and its front, if any, is dropped; HeadAccounts.HeadContents says what that comes to over runs |
| Clients.Server.AddClient | src/server/clients.cpp:57-69 | keys stay the clients' own names and the administrator is exactly the client called ADMIN; a taken name is refused |
| Clients.Server.DeleteClient | src/server/clients.cpp:71-80 | exactly the client's name leaves the map, and the administrator's place is vacated with its client |
| Clients.Server.NotifyAdminNodeChange | src/server/cmdhandling.cpp:1462-1510 | does to queue and view what the replica model's notification does; nothing without administrator or row, or about the administrator |
| Clients.Server.ProcessNodeDisconnect | src/server/clients.cpp:473-525 | the node is reported offline before it leaves the map, its read head is given up once inside a handler, mapped or not, and the right loop signal is raised |
| CmdHandling.UpdateNodeDB | src/server/db.cpp:1208-1242 | a given field replaces the stored one, an absent one keeps it; an unknown node needs platform and revision |
| CmdHandling.GetOfflineNodes | src/server/db.cpp:1160-1204 | lists the rows of nodes that are not connected, each once and no other |
| CmdHandling.HandleIndexRequest | src/server/cmdhandling.cpp:1371-1460 | the response, read by the control program, means exactly the server's view |
| CmdHandling.AcceptNode | src/server/clients.cpp:286-323 | a node of a new name is greeted, mapped with its stored group, written to the table and announced as the model says; a second one of that name changes nothing |
| CmdHandling.DeauthAdmin | src/server/clients.cpp:272-284 | the administrator before, if any, has a farewell queued and is disconnected; nodes and table stay |
| CmdHandling.AcceptAdmin | src/server/clients.cpp:270-288 | the administrator before is disconnected and the new one starts unindexed with only its welcome queued |
| CmdHandling.GreetingsSay | src/server/clients.cpp:254-280 | both logins are answered by a report that pops as a success, and the farewell to an administrator is another command and no report |
| CmdHandling.HandlePingReport | src/server/cmdhandling.cpp:70-78 | records the latency and announces the node, except for the administrator's own ping |
| CmdHandling.HandleUpdateReport | src/server/cmdhandling.cpp:79-131 | table and client take the new revision together; only an unflagged report is announced |
| CmdHandling.HandleChangeGroup | src/server/cmdhandling.cpp:318-375 | table and client take the new group together and the node is announced, online or offline as it is, before the answer; an unknown node brings only an error answer |
| CmdHandling.HandleForget | src/server/cmdhandling.cpp:773-812 | the node is disconnected, its row and no other is deleted from the table, and a fresh index follows an answer that says it worked |
| CmdHandling.AnswerSays | src/server/cmdhandling.cpp:318-375 | an answer is a report of its request's command, and popping its one argument tells how the request went |
| CmdHandling.GroupAnswerSays | src/server/cmdhandling.cpp:318-375 | the answer to a group request pops as a success exactly if the node was known, and as missing otherwise |
| CmdHandling.ForgetReleasesUnacquired | src/server/clients.cpp:503-515 | a concrete server on which forgetting a connected node unlocks its read head without its having been locked and drops the stream in front unread |
| CmdHandling.KillHolders | src/server/cmdhandling.cpp:896-912 | the restarting loop kills every holder of the token exactly once, and nobody else |
| CmdHandling.HandleRevoke | src/server/cmdhandling.cpp:874-917 | an answer saying whether the token was deleted follows; if it was and the kill flag is set all holders have gone before, but no index is sent |
| ControlProgram.ClientTracker.DeleteStale | src/control/cmdhandling.cpp:328-337 | the restarting loop leaves exactly the records the index names |
| ControlProgram.ProcessNodeChange | src/control/cmdhandling.cpp:194-267 | files the one record of eight rightly typed arguments; anything else throws and changes nothing |
| ControlProgram.ProcessIndex | src/control/cmdhandling.cpp:269-337 | a whole index becomes the table; one of a wrong count changes nothing; one with a misplaced type leaves the records before it filed |
| ControlProgram.Receive | src/control/cmdhandling.cpp:52-165 | what a stream does to the tracker is what folding its meaning does |
| Replica.Deliver | src/control/cmdhandling.cpp:52-165 | reading the oldest queued stream is the model's delivery |
| Replica.DeliverAll | src/control/cmdhandling.cpp:194-337 | when everything queued has been read the tracker holds exactly the server's view |
| Replica.RunAll | src/server/cmdhandling.cpp:43-1334 | the events made are those that the commands make, one by one; any sequence of commands takes server and control program through exactly that run of the replica model |
| Replica.MissedExactly | src/server/cmdhandling.cpp:43-912 | the run of some commands has had no silent event since the last index if and only if no flagged update has changed a revision and no killing revocation has killed anybody since |
| Replica.IndexThenLoud | src/server/cmdhandling.cpp:43-912 | whatever came before, nothing is missed when an index is asked for and no flagged update or killing revocation follows |
| Replica.ForgetThenGone | src/server/cmdhandling.cpp:773-812 | for any commands: behind a forget request, and until a node of that name is accepted again, the server has no row and no client of that name, and the tracker no record of it once everything is delivered |
| Replica.Serve | src/server/cmdhandling.cpp:43-1334 | started empty and driven by any commands, what is undelivered takes an indexed server's tracker to the view overlaid with the stale records, and to the view itself when the commands have missed nothing since the index |
| MasterLoop.HandleClientInterface | src/server/core.cpp:196-202 | a handler that disconnects any clients raises the skip signal exactly when it disconnects the served one and the reset signal exactly when it disconnects another; every client it disconnects has its read head given up, and no other |
| MasterLoop.TakeTurn | src/server/core.cpp:192-219 | the read heads of all clients there were, gone ones included, are as the account of the turn says, and any removal restarts the loop |
| MasterLoop.TurnFuel | src/server/core.cpp:205-219 | every restart is paid for by a removal or by a signal left over from one |
| MasterLoop.ServeClient | src/server/core.cpp:184-219 | a failed client is taken out untouched; any other has its turn; restarts spend fuel |
| MasterLoop.ServeClients | src/server/core.cpp:181-220 | with no new clients, but any streams arriving between turns, the restarting loop ends; every remaining client has had a turn; every turn's handler is given the front of its client's queue as it stood; for every client without a stray disconnect the streams handled, in order, followed by its queue, are its first queue followed by what arrived; and the read heads are as the turns account for them |
| HeadAccounts.HeadAccount | src/server/clients.cpp:503-515 | over any turns and arrivals a read head is acquired once a turn, released once a turn and once more for every time another client's handler disconnected its client |
| HeadAccounts.HeadContents | src/libvolition/netscheduler.cpp:307-332 | over any turns and arrivals a queue holds what it held followed by what has arrived, less as many from the front as have been taken |
| HeadAccounts.HandledInOrder | src/server/core.cpp:192-219 | for a client that no other client's handler disconnects, the streams its handler was given, in order, followed by its queue, are its first queue followed by what arrived |
| HeadAccounts.HandledOnce | src/server/core.cpp:192-219 | so the k-th stream handled is the k-th there was: each once and in order |
| HeadAccounts.EvenExactly | src/server/clients.cpp:503-515 | a client's acquires and releases balance if and only if no other client's handler disconnected it; otherwise there is exactly one release too many |
| HeadAccounts.TurnFromInside | src/server/core.cpp:192-219 | the locking, giving up and unlocking of one turn in their order come to what the account says, whether or not the handler disconnects the served client |
| Pings.CheckedTwice | src/server/clients.cpp:436-460 | a second look in one pass, as restarts bring about, changes nothing more |
| Pings.DueTimes | src/server/clients.cpp:436-452 | a client is sent a ping only when more than 59 seconds have passed, and always when 61 have, or 60 on a clock that does not change sign |
| Pings.GoneTimes | src/server/clients.cpp:454-462 | a client is taken out only when its ping has been out for more than 14 seconds, and always when it has for 16, or 15 on such a clock |
| Pings.CheckClient | src/server/clients.cpp:436-460 | a client is removed exactly when its ping has gone unanswered for the ping-out time and its queues are quiet; it is sent a ping exactly when it is not waited for, one is due and its queues are idle |
| Pings.CheckPingsAndQueues | src/server/clients.cpp:422-462 | the restarting loop ends; exactly the clients that were to go have gone, and every other is as one check leaves it: a client that was due has a ping queued, sent now and waited for |
| Pacing.Core.Tick | src/server/core.cpp:223-229 | the pass is due exactly when the counter has reached 200, and it starts over then |
| Pacing.RunLoop | src/server/core.cpp:165-232 | over any number of passes the routines are looked at in every 201st and in no other |
| Pacing.SecondsIncrease | src/server/core.cpp:223-231 | any two looks are at least 1005 ms apart for each look between them, so their whole seconds strictly increase |
| Pacing.ShortestGap | src/server/core.cpp:223-231 | the bound is met: with the shortest sleeps consecutive looks are exactly 1005 ms apart |
| ScheduledRuns.Run | src/server/core.cpp:165-232 | over any run of passes, with any changes and connections before each, the books, with the history of activations and what each sent, are what the passes make of them up to the first that fails; every activation by schedule was made in the second of a look, and no two of the same routine in one second |
| ScheduledRuns.RunOnce | src/server/core.cpp:223-231 | the same of every run from any books: seconds of looks only, strictly increasing for each routine |
| ScheduledRuns.LookInRun | src/server/core.cpp:223-231 | the j-th look of a run that gets as far is made in the second its sleeps come to; it activates exactly the routines due then, up to the first that fails, and each sends its stream to its connected targets |
| ScheduledRuns.OnTime | src/server/core.cpp:165-232 | while no pass fails, the counter and the clock are those of the pass; a run has got as far as it has not failed |
| RoutineHistories.RunRightly | src/server/routines.cpp:255-408 | in every run of passes, whatever the administrator changes in between: a routine is activated only while the flags last written for it have it on, and by a connection only if they have it run on connection |
| Splitting.SplitJoin | src/libvolition/utils.cpp:351-433 | splitting what was joined gives the list back if and only if its parts are non-empty and free of the separator |
| Splitting.SplitClean | src/libvolition/utils.cpp:351-382 | what a split yields is non-empty and free of the separator |
| Splitting.SplitShorter | src/libvolition/utils.cpp:351-382 | no part of a split is longer than the text |
| Splitting.SplitFromIs | src/libvolition/utils.cpp:361-378 | the moving pointer finds exactly the maximal runs of other characters, in order |
| TextTools.SplitTextByCharacter | src/libvolition/utils.cpp:351-382 | yields the maximal runs between separators, in order |
| TextTools.JoinTextByCharacter | src/libvolition/utils.cpp:418-433 | yields the parts with one separator between neighbours and none at the end |
| TextTools.SplitJoinSplitText | src/libvolition/utils.cpp:351-433 | on what a split yields, joining and splitting again is the identity |
| TextTools.AtoiDecimal | src/server/routines.cpp:130-172 | a number printed in decimal is read back as itself |
| TextTools.AtoiSigned | src/server/routines.cpp:104-176 | a sign in front of a decimal number and whatever is not a digit behind it do what they do in atoi |
| TextTools.AtoiSkips | src/server/routines.cpp:104-176 | white space in front is passed over |
| Schedule.TimeCache.TimeFieldMatches | src/server/routines.cpp:112-180 | a field accepts exactly when it begins with a star or lists the component; the cached structure belongs to the time asked about |
| Schedule.CheckRoutineTimer | src/server/routines.cpp:182-195 | fields are judged in order up to the first that rejects, and a missing field throws |
| Schedule.VerdictMeans | src/server/routines.cpp:182-195 | seven or more fields accept if and only if each of the first seven accepts its component |
| Schedule.VerdictThrows | src/server/routines.cpp:182-195 | fewer than seven fields throw if and only if every field present accepts, and never accept |
| Schedule.AcceptsExactly | src/server/routines.cpp:104-195 | over the fields of struct tm: a schedule accepts a time if and only if it has seven fields or more and the first seven accept weekday and month counted from one, the year in full, and day, hour, minute and second |
| Schedule.PrintedSchedule | src/server/routines.cpp:112-195 | a printed seven-field schedule accepts a time if and only if every field is a star or contains that component |
| Schedule.PrintedExample | src/server/routines.cpp:112-195 | a schedule as it is written: numbers with commas, a star, and blanks between fields |
| Schedule.CheckPrinted | src/server/routines.cpp:112-195 | the same of the imperative checker, at every time but zero, whatever it was asked before |
| Schedule.FirstQueryAtZero | src/server/routines.cpp:114-121 | a first query about time zero is answered rightly if and only if time zero breaks down to all zeroes |
| RoutineStreams.BuildFor | src/server/routines.cpp:319-327 | the stream sent is, octet for octet, the stored command, the routine flag, the ident given, the target's own header if there was one, and the copied arguments; it is sound if and only if the copy splits, and its length wraps if and only if 1 to 16 octets lie behind the header |
| RoutineStreams.HeaderSent | src/server/routines.cpp:283-327 | of every stream sent, in terms of its octets: the command is the stored one, the routine bit is on, and with an ident of at most 56 bits the ident is the one given and the other seven flags are the stored ones |
| RoutineStreams.ArgumentsSent | src/server/routines.cpp:302-327 | its arguments are the target's own header, from SERVER to that target, exactly if the stored stream led with a header, followed by what was copied |
| RoutineStreams.SeekPastHeader | src/server/routines.cpp:302-317 | the stored stream's cursor stands behind a leading origin/destination header, or nowhere if there is none |
| RoutineStreams.WholeExactly | src/server/routines.cpp:302-327 | a routine's arguments reach a target whole if and only if the stored stream has no origin/destination header in front of further arguments |
| RoutineStreams.SendableExactly | src/server/routines.cpp:302-327 | a stored stream can be sent if and only if it has no header in front, nothing behind it, or ends in arguments of exactly the 17 octets left off |
| Routines.StoredLoads | src/server/db.cpp:1033-1041 | storing a routine and loading it again is the identity if and only if its targets are non-empty and free of commas |
| Routines.PlacedCoherent | src/server/routines.cpp:213-233 | writing a routine to list and table keeps the two equal on names, schedules, flags and targets |
| Routines.PlacedOrder | src/server/routines.cpp:213-233 | every other routine stays in its place, one of that name is overwritten in its own, and a new one comes last |
| Routines.WithoutCoherent | src/server/routines.cpp:235-247 | so does deleting it from both, and the list has it exactly when the table does |
| Routines.RoutineTable.AddRoutine | src/server/routines.cpp:213-233 | overwrites the routine of that name in place or adds it at the end |
| Routines.RoutineTable.DeleteRoutine | src/server/routines.cpp:235-247 | takes out the routine of that name and says whether there was one |
| Routines.RoutineTable.UpdateRoutineDB | src/server/db.cpp:1324-1331 | insert or update, the row is what the entry stores as |
| Routines.RoutineTable.HandleAdd | src/server/cmdhandling.cpp:1134-1146 | list and table hold the routine with its flags cut to eight bits, stay coherent, and its run-once count starts afresh |
| Routines.RoutineTable.HandleDelete | src/server/cmdhandling.cpp:1166-1169 | list and table lose the routine together and stay coherent |
| Routines.RoutineTable.HandleChange | src/server/cmdhandling.cpp:1221-1288 | exactly the field asked for changes, in list and table alike; an unknown routine changes nothing |
| Routines.ChangedExactly | src/server/cmdhandling.cpp:1221-1288 | a change reaches one field and no other; flags are cut to eight bits, targets split at commas |
| Routines.RoutineTable.ScanRoutineDB | src/server/routines.cpp:197-211 | the list made anew from the table mirrors it, whatever order rows come in, and run-once is kept across it |
| Routines.RoutineTable.Execute | src/server/routines.cpp:283-372 | each connected target is sent its stream, all under one fresh ident; a run-once routine is switched off in list and table; a stream that cannot be sent fails at the first connected target with only the ident used up, a scheduled one without arguments at once |
| Routines.SendingsDeliver | src/server/routines.cpp:283-372 | each target asked for is sent a stream that is addressed to it and says what HeaderSent and ArgumentsSent say |
| Routines.AmongExactly | src/server/routines.cpp:319-333 | those asked for are exactly the targets that are connected |
| Routines.NextIDLarger | src/server/routines.cpp:249-252 | the ident after another is never the same, and larger unless the counter starts over |
| Routines.OnceBetweenWrites | src/server/routines.cpp:335-343 | between two activations of a routine last written to run once, the administrator has written its flags |
| RoutinePasses.ProcessScheduledRoutines | src/server/routines.cpp:392-408 | the pass gets as far as the first routine with too few schedule fields, without arguments, or with a connected target and a stream that cannot be sent, and is ok if and only if there is none; before it exactly those due have run, once each, in order, with their streams sent |
| RoutinePasses.FirstStopMeans | src/server/routines.cpp:392-408 | a pass stops at the first routine at which it fails |
| RoutinePasses.EndsExactly | src/server/routines.cpp:392-408 | a pass gets to the end of the list if and only if it fails at none of its routines |
| RoutinePasses.FiredDistinct | src/server/routines.cpp:392-408 | one pass activates no routine twice, and none that is not picked |
| RoutinePasses.FiredAll | src/server/routines.cpp:392-408 | and it activates every routine that is picked before the first at which it throws |
| RoutinePasses.ConnectFiresExactly | src/server/routines.cpp:255-283 | of the routines a pass on connection gets past, exactly those are activated that are flagged to run on connection, not off, and name the node |
| RoutinePasses.LookFiresExactly | src/server/routines.cpp:374-408 | of the routines a look gets past, exactly those are activated that are not off and whose first seven fields accept the time, field by field |
| RoutinePasses.FiredDelivers | src/server/routines.cpp:283-372 | what an activation sends reaches the targets of the pass in order, each a stream of the stored command under the activation's ident |
| RoutinePasses.NeighboursGrow | src/server/routines.cpp:249-252 | two routines activated one right after the other have different idents, the later the larger unless the counter starts over |
| RoutinePasses.ProcessOnConnectRoutines | src/server/routines.cpp:255-281 | the same when a node connects: exactly the enabled on-connect routines that name it have run, up to the first whose stream cannot be sent |
| RoutineFailures.AddThenConnect | src/server/cmdhandling.cpp:1134-1146 | every on-connect routine is accepted, and when its target connects it is sent if and only if it has no header in front, nothing behind it, or ends in exactly the 17 octets left off |
| RoutineFailures.AddThenLook | src/server/cmdhandling.cpp:1134-1146 | every routine on a schedule that always accepts is accepted, and a look at it fails if and only if it has no arguments, or its target is connected and it cannot be sent |
| RoutineFailures.TooShortFails | src/server/cmdhandling.cpp:1134-1146 | a concrete routine with eleven octets behind its header: accepted, and the connection of its target ends the pass |
| RoutineFailures.BareFails | src/server/cmdhandling.cpp:1134-1146 | a concrete routine without arguments: accepted, and a look at its schedule ends the pass |
| Brander.ScanForDelim | src/libvolition/brander.cpp:59-76 | finds the place behind the first occurrence of delimiter and terminator, or none if there is none |
| Brander.BrandOne | src/libvolition/brander.cpp:82-112 | overwrites exactly the attribute's octets; a missing delimiter or wrong type changes nothing |
| Brander.FieldOctets | src/libvolition/brander.cpp:89-112 | the octets written: a number's eight, most significant first, or the text and terminators up to the end of its place |
| Brander.RememberedExactly | src/libvolition/brander.cpp:105-112 | a text is cut to its attribute's capacity less the delimiter's length and three; a number is kept whole |
| Brander.TextHarmless | src/libvolition/brander.cpp:109-110 | a text that ends in no delimiter makes no delimiter match begin where it is written |
| Brander.NumberHarmless | src/libvolition/brander.cpp:98-100 | a number none of whose suffixes begins a delimiter makes none either |
| Brander.WriteKeeps | src/libvolition/brander.cpp:78-118 | one write moves no first match, reads back as what fits of the value, and leaves every other reading as it was |
| Brander.BrandingIsFaithful | src/libvolition/brander.cpp:78-118 | branding any set of attributes reads back, keeps the other readings, moves no first match and changes no octet outside the written slots |
| Brander.StopsAtFirstBad | src/libvolition/brander.cpp:80-107 | a job stops at the first missing delimiter or wrong type with everything before it written |
| Brander.TameJobHarmless | src/libvolition/brander.cpp:78-118 | values that end in no delimiter satisfy the no-new-match condition throughout the job |
| BrandAttributes.BrandBinaryViaBuffer | src/libvolition/brander.cpp:78-118 | the loop over the values does the job as specified and reports whether it was finished |
| BrandAttributes.ReadBrandedBinaryViaBuffer | src/libvolition/brander.cpp:158-188 | reads the octets at the first match: a number in network order, or the text up to its terminator; null without a match |
| BrandAttributes.BrandedFaithfully | src/libvolition/brander.cpp:78-118 | the whole map of values, as the map is gone through, is branded faithfully |
| BrandAttributes.BrandThenRead | src/libvolition/brander.cpp:78-188 | branding and then reading any attribute gives the prefix of its value that fits, or the reading before when none was given |
| BrandAttributes.SourceIsProper | src/libvolition/include/common.h:54-86 | the repository's delimiters are pairwise different and long enough, and only the compile time is a number |
| Jobs.RequestEnters | src/node/jobs.cpp:130-130 | for a request that is no report, what the job function asserts of ident and command holds |
| Jobs.EntryExactly | src/node/jobs.cpp:128-132 | what a job asserts of its stream: the command is its own, and the composite without the report bit is its ident |
| Jobs.RepliesAnswer | src/node/jobs.cpp:132-232 | both ways of building the answer give one header: the request's command and its composite with the report bit put in |
| Jobs.AnswerExactly | src/node/jobs.cpp:132-232 | an answer is its request with one bit more in the composite |
| Jobs.NodeJobs.StartJob | src/node/jobs.cpp:870-902 | the new job has the next number and a copy of its request at the head of its queue before its thread starts |
| Jobs.NodeJobs.Enter | src/node/jobs.cpp:128-132 | in every reachable state what a starting job asserts of its stream holds, and its answer carries its own request's ident |
| Jobs.NodeJobs.ForwardToScriptJobs | src/node/jobs.cpp:972-981 | every capturing job, and no other, gets the stream behind what it has queued |
| Jobs.NodeJobs.KillJobByID | src/node/jobs.cpp:997-1010 | removes the first job of that number only |
| Jobs.NodeJobs.KillJobByCmdCode | src/node/jobs.cpp:1012-1029 | the restarting loop removes every job of that command and keeps the others in order |
| Jobs.OthersCount | src/node/jobs.cpp:1012-1029 | killing by command leaves none of that command and as many of each other job as there were |
| JobRuns.Run | src/node/jobs.cpp:120-1029 | over any operations on a node's jobs, impossible ones passed over: the entries are those the operations bring about, at each what the job asserts of its first stream holds and the answer is that stream's, and what the jobs' threads are handed is what the log says |
| JobRuns.RunTells | src/node/jobs.cpp:870-1029 | told by the operations, for every run of fewer than 2^64 starts: every job serves the request of the start its number counts, has just that request queued until it enters, and what it has been handed followed by its queue is its request followed by what was forwarded while it captured |

## Left out

- Streams.ConationStream.PopArgument: requires that the cursor is null or on a boundary, which a peek (it leaves the cursor behind the argument header) does not keep; a pop that reads beyond its argument is told apart, and what it makes of the octets there is not modelled.
- Streams.ConationStream.Push: is stated for a rewound stream, because growing the vector may move it from under a live cursor, which is a pointer in the source; the same holds for PushArgument, and for WipeArgs, which leaves the cursor where it was.
- Streams.ConationStream.AppendArgData: says when the copied length wraps and how far our own vector has shrunk by then; what a copy of that length does is not modelled, nor what a pass that has failed leaves behind in a server that goes on.
- Streams.ConationStream.FromOctets: requires that the memory holds what its size field says; the source has no length to compare with.
- Transport.Write: takes SSL_write to report -1 or a positive amount; a report of zero makes the source try again and any other negative one is added to the count. At least one octet is written.
- Transport.DownloadStream: does not model a descriptor that is null.
- Transport.Exchange: lets the receiver read when everything has been sent, and Reconnects.ReceiveRun likewise; `Alongside` shows what a receiver reading at the same time makes of the octets it has.
- MasterLoop.HandleClientInterface: a handler is any set of disconnects in any order; what handlers do otherwise is modelled in `CmdHandling`, outside the loop.
- MasterLoop.ServeClients: goes through the map in any order, of which the source's sorted order is one; the same holds for every loop over a map or a table.
- Pings.CheckPingsAndQueues: within one pass the clock is read once, milliseconds and seconds agree, and what the status objects say of a client does not change; the administrator's queue, which also takes the notifications, is left out of the account of what is queued.
- Clients.Server.ProcessNodeDisconnect: erases the client from the map before its read head is given up, the source after; neither reads what the other writes.
- CmdHandling.AcceptNode: covers the accepted part only: version and token checks, the update binaries and the routines sent on connection are not part of it (`RoutinePasses` has the last). A node calling itself ADMIN, whose connection the source closes, announcing a node without a name as gone, before it goes on to enter it when no administrator is connected, and a connection time of zero, which UpdateNodeDB takes for absent, are excluded; so in the model the administrator is always a client that logged in as one.
- CmdHandling.HandleForget: excludes forgetting ADMIN, after which the source uses the deleted administrator.
- CmdHandling.HandleRevoke: excludes killing the holders of the empty token that the administrator's client carries; the token table itself is left out, and whether the token was deleted is an input.
- Replica.Serve: outboxes hold streams as header fields and argument lists; `StreamRuns` and `Transport` connect such lists with octets, within the download limit of 512 MiB that a large enough index would exceed.
- RoutinePasses.ProcessScheduledRoutines: requires that stored streams are well formed, as those added by requests are (`ScheduledRuns` proves it of every run), and that streams and target lists are no longer than the 512 MiB that can come in one stream; the same holds for ProcessOnConnectRoutines, Routines.RoutineTable.Execute and RoutineStreams.BuildFor.
- ScheduledRuns.Run: requires the same of what the table holds at the start and of the sizes of what requests bring; what comes before a pass is any sequence of routine requests and connections, everything else in a pass being its time.
- RoutineStreams.SeekPastHeader: pops a header whose names may lack their terminators; what the source puts together from the octets behind it is thrown away, and reading them is taken to do no harm.
- TextTools.AtoiDecimal: numbers are unbounded, so what atoi does on overflow is not modelled.
- Brander.ScanForDelim: where memcmp would read beyond the end of the buffer there is no match.
- BrandAttributes.BrandThenRead: requires that no value written makes a delimiter match begin, that found slots lie inside the buffer and apart, and that texts are terminated inside their slots; a wrong layout is the caller's business in the source too.
- Jobs.NodeJobs.Enter: streams are told by command and composite ident; the work of the job functions is left out.
- ProcessCompletedJobs, which steps past the element behind each one it erases, and job-to-job messages are left out.
- The read queue's thread, the stop and kill timeouts of threads, and the status counters read outside the locks are left out; the mutex and semaphore are taken to be correct.
- The server's other requests (vault, configuration, tokens, binaries, node-to-node messages, information, echo) and permission checks are left out; towards the tracker they are unrelated traffic.
- TLS, certificates, sockets, select, files, processes, Lua, SQL text, logging, names of codes, and all widgets are left out: foreign calls, or tables without state.
- `VLString` memory management, the update re-exec stages, the ticker and the config scanner are left out.
