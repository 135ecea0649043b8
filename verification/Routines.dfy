/** The server's routines: a list in memory, a table on disk, the administrator's changes, and execution. */
module Routines {
  import opened Bytes
  import opened Arguments
  import opened Splitting
  import opened TextTools
  import opened Schedule
  import opened RoutineStreams
  import Ident
  import Streams
  import Validation

  const RUNONCE: bv8 := 1
  const ONCONNECT: bv8 := 2
  const DISABLED: bv8 := 4

  datatype RoutineInfo = RoutineInfo(name: Text, targets: seq<Text>, schedule: Text, flags: bv8)

  /** A row of the routines table: targets are joined by commas. */
  datatype RoutineRow = RoutineRow(stream: seq<byte>, schedule: Text, flags: bv8, targets: Text)

  datatype RoutineDBEntry = RoutineDBEntry(info: RoutineInfo, stream: seq<byte>)

  /** Storing an entry joins its targets, and loading a row splits them again. */
  function Stored(e: RoutineDBEntry): RoutineRow {
    RoutineRow(e.stream, e.info.schedule, e.info.flags, JoinText(e.info.targets, COMMA))
  }

  function Loaded(name: Text, row: RoutineRow): RoutineInfo {
    RoutineInfo(name, SplitText(row.targets, COMMA), row.schedule, row.flags)
  }

  lemma StoredLoads(e: RoutineDBEntry)
    ensures Loaded(e.info.name, Stored(e)) == e.info <==> AllClean(e.info.targets, COMMA)
  {
    SplitJoin(e.info.targets, COMMA);
  }

  /** Why a routine was activated: its schedule accepted a time, or one of its targets connected. */
  datatype Cause = BySchedule(time: int) | ByConnection(node: Text)

  /** One stream sent for a routine. */
  datatype Sending = Sending(target: Text, octets: seq<byte>)

  /** What has happened to routines: the administrator wrote a routine's flags, or it was activated and sent streams. */
  datatype Event = Written(name: Text, flags: bv8) | Fired(name: Text, cause: Cause, sent: seq<Sending>)

  /** Activations of a routine since its flags were last written. */
  function SinceWrite(history: seq<Event>, name: Text): nat {
    if history == [] then 0
    else
      var last := history[|history| - 1];
      if last.Fired? && last.name == name then SinceWrite(history[..|history| - 1], name) + 1
      else if last.Written? && last.name == name then 0
      else SinceWrite(history[..|history| - 1], name)
  }

  /** The flags the administrator last gave a routine. */
  function LastWritten(history: seq<Event>, name: Text): bv8 {
    if history == [] then 0
    else
      var last := history[|history| - 1];
      if last.Written? && last.name == name then last.flags else LastWritten(history[..|history| - 1], name)
  }

  predicate RunsOnce(flags: bv8) { flags & RUNONCE != 0 }
  predicate Off(flags: bv8) { flags & DISABLED != 0 }

  lemma FlagBits(flags: bv8)
    ensures Off(flags | DISABLED) && (RunsOnce(flags | DISABLED) <==> RunsOnce(flags))
    ensures flags | DISABLED | DISABLED == flags | DISABLED
  {
  }

  lemma HistoryGrows(history: seq<Event>, e: Event, name: Text)
    ensures SinceWrite(history + [e], name) ==
            if e.Fired? && e.name == name then SinceWrite(history, name) + 1
            else if e.Written? && e.name == name then 0 else SinceWrite(history, name)
    ensures LastWritten(history + [e], name) ==
            if e.Written? && e.name == name then e.flags else LastWritten(history, name)
  {
    assert (history + [e])[..|history|] == history;
  }

  // ---------------------------------------------- the list and the table

  /** Where a routine stands in the list. */
  function IndexOf(known: seq<RoutineInfo>, name: Text): (at: Option<nat>)
    ensures at == None ==> forall i :: 0 <= i < |known| ==> known[i].name != name
    ensures at.Some? ==> at.value < |known| && known[at.value].name == name
    ensures at.Some? ==> forall i :: 0 <= i < at.value ==> known[i].name != name
  {
    if known == [] then None
    else if known[0].name == name then Some(0)
    else
      var at := IndexOf(known[1..], name);
      if at == None then None else Some(at.value + 1)
  }

  /** The list with a routine overwritten, or added at the end. */
  function Placed(known: seq<RoutineInfo>, r: RoutineInfo): seq<RoutineInfo> {
    var at := IndexOf(known, r.name);
    if at.Some? then known[at.value := r] else known + [r]
  }

  /** Every other routine stays where it was, and the list grows, at its end, only by a routine of a new name. */
  lemma PlacedOrder(known: seq<RoutineInfo>, r: RoutineInfo)
    requires Unique(known)
    ensures |known| <= |Placed(known, r)| <= |known| + 1
    ensures forall i :: 0 <= i < |known| ==> Placed(known, r)[i] == if known[i].name == r.name then r else known[i]
    ensures |Placed(known, r)| > |known| <==> r.name !in Names(known)
    ensures |Placed(known, r)| > |known| ==> Placed(known, r)[|known|] == r
  {
    var at := IndexOf(known, r.name);
    if at.Some? {
      assert known[at.value].name in Names(known);
    }
  }

  function Without(known: seq<RoutineInfo>, name: Text): seq<RoutineInfo> {
    var at := IndexOf(known, name);
    if at.Some? then known[..at.value] + known[at.value + 1..] else known
  }

  ghost predicate Unique(known: seq<RoutineInfo>) {
    forall i, j :: 0 <= i < j < |known| ==> known[i].name != known[j].name
  }

  ghost function Names(known: seq<RoutineInfo>): set<Text> {
    set i | 0 <= i < |known| :: known[i].name
  }

  /** The list holds every routine of the map once, and nothing else. */
  ghost predicate Mirrors(known: seq<RoutineInfo>, infos: map<Text, RoutineInfo>) {
    && Unique(known)
    && Names(known) == infos.Keys
    && forall i :: 0 <= i < |known| ==> known[i].name in infos && known[i] == infos[known[i].name]
  }

  ghost function LoadedAll(disk: map<Text, RoutineRow>): map<Text, RoutineInfo> {
    map name | name in disk :: Loaded(name, disk[name])
  }

  /** Memory and disk agree on names, schedules, flags and targets. */
  ghost predicate Coherent(known: seq<RoutineInfo>, disk: map<Text, RoutineRow>) {
    Mirrors(known, LoadedAll(disk))
  }

  lemma NamesAt(known: seq<RoutineInfo>, at: nat, r: RoutineInfo)
    requires at < |known| && known[at].name == r.name
    ensures Names(known[at := r]) == Names(known)
  {
    forall name | name in Names(known) ensures name in Names(known[at := r]) {
      var i :| 0 <= i < |known| && known[i].name == name;
      assert known[at := r][i].name == name;
    }
  }

  lemma NamesMore(known: seq<RoutineInfo>, r: RoutineInfo)
    ensures Names(known + [r]) == Names(known) + {r.name}
  {
    forall name | name in Names(known) + {r.name} ensures name in Names(known + [r]) {
      if name == r.name {
        assert (known + [r])[|known|].name == name;
      } else {
        var i :| 0 <= i < |known| && known[i].name == name;
        assert (known + [r])[i].name == name;
      }
    }
  }

  lemma PlacedMirrors(known: seq<RoutineInfo>, infos: map<Text, RoutineInfo>, r: RoutineInfo)
    requires Mirrors(known, infos)
    ensures Mirrors(Placed(known, r), infos[r.name := r])
  {
    var at := IndexOf(known, r.name);
    if at.Some? {
      NamesAt(known, at.value, r);
    } else {
      NamesMore(known, r);
    }
  }

  lemma NamesLess(known: seq<RoutineInfo>, at: nat)
    requires Unique(known) && at < |known|
    ensures Names(known[..at] + known[at + 1..]) == Names(known) - {known[at].name}
  {
    var rest := known[..at] + known[at + 1..];
    forall other | other in Names(known) - {known[at].name} ensures other in Names(rest) {
      var i :| 0 <= i < |known| && known[i].name == other;
      assert rest[if i < at then i else i - 1] == known[i];
    }
    forall other | other in Names(rest) ensures other in Names(known) - {known[at].name} {
      var i :| 0 <= i < |rest| && rest[i].name == other;
      assert rest[i] == known[if i < at then i else i + 1];
    }
  }

  lemma LessMirrors(known: seq<RoutineInfo>, infos: map<Text, RoutineInfo>, at: nat)
    requires Mirrors(known, infos) && at < |known|
    ensures Mirrors(known[..at] + known[at + 1..], infos - {known[at].name})
  {
    NamesLess(known, at);
    var rest := known[..at] + known[at + 1..];
    forall i | 0 <= i < |rest| ensures rest[i].name != known[at].name && rest[i] == infos[rest[i].name] {
      assert rest[i] == known[if i < at then i else i + 1];
    }
    forall i, j | 0 <= i < j < |rest| ensures rest[i].name != rest[j].name {
      assert rest[i] == known[if i < at then i else i + 1] && rest[j] == known[if j < at then j else j + 1];
    }
  }

  lemma WithoutMirrors(known: seq<RoutineInfo>, infos: map<Text, RoutineInfo>, name: Text)
    requires Mirrors(known, infos)
    ensures Mirrors(Without(known, name), infos - {name})
    ensures IndexOf(known, name).Some? <==> name in infos
  {
    var at := IndexOf(known, name);
    if at.Some? {
      LessMirrors(known, infos, at.value);
      assert known[at.value].name in Names(known);
    } else {
      assert name !in Names(known);
      assert infos - {name} == infos;
    }
  }

  lemma LoadedLess(disk: map<Text, RoutineRow>, name: Text)
    ensures LoadedAll(disk - {name}) == LoadedAll(disk) - {name}
  {
  }

  /** Placing a routine in the list and its row in the table keeps the two together. */
  lemma PlacedCoherent(known: seq<RoutineInfo>, disk: map<Text, RoutineRow>, e: RoutineDBEntry)
    requires Coherent(known, disk) && AllClean(e.info.targets, COMMA)
    ensures Coherent(Placed(known, e.info), disk[e.info.name := Stored(e)])
  {
    StoredLoads(e);
    PlacedMirrors(known, LoadedAll(disk), e.info);
    assert LoadedAll(disk[e.info.name := Stored(e)]) == LoadedAll(disk)[e.info.name := e.info];
  }

  lemma WithoutCoherent(known: seq<RoutineInfo>, disk: map<Text, RoutineRow>, name: Text)
    requires Coherent(known, disk)
    ensures Coherent(Without(known, name), disk - {name})
    ensures IndexOf(known, name).Some? <==> name in disk
  {
    WithoutMirrors(known, LoadedAll(disk), name);
    LoadedLess(disk, name);
  }

  /** What the administrator asks of a routine that is there. */
  datatype Change = ChangeFlags(value: uint32) | ChangeSchedule(schedule: Text) | ChangeTargets(list: Text)

  /**
   * A routine last written to run once has been activated at most once since; if it is still stored it keeps that
   * flag, and is off if it has run.
   */
  ghost predicate OnceKept(disk: map<Text, RoutineRow>, history: seq<Event>) {
    forall name :: RunsOnce(LastWritten(history, name)) ==>
      && SinceWrite(history, name) <= 1
      && (name in disk ==> RunsOnce(disk[name].flags) && (SinceWrite(history, name) == 1 ==> Off(disk[name].flags)))
  }

  /** At no time had a routine been activated more than once since it was last written to run once. */
  ghost predicate OnceAlways(history: seq<Event>) {
    forall k, name :: 0 <= k <= |history| && RunsOnce(LastWritten(history[..k], name)) ==> SinceWrite(history[..k], name) <= 1
  }

  lemma OnceStill(disk: map<Text, RoutineRow>, history: seq<Event>, e: Event)
    requires OnceAlways(history) && OnceKept(disk, history + [e])
    ensures OnceAlways(history + [e])
  {
    var h := history + [e];
    forall k, name | 0 <= k <= |h| && RunsOnce(LastWritten(h[..k], name)) ensures SinceWrite(h[..k], name) <= 1 {
      if k <= |history| {
        assert h[..k] == history[..k];
      } else {
        assert h[..k] == h;
      }
    }
  }

  /** The targets that are connected, in order. */
  function Among(targets: seq<Text>, connected: set<Text>): seq<Text>
    decreases |targets|
  {
    if targets == [] then []
    else (if targets[0] in connected then [targets[0]] else []) + Among(targets[1..], connected)
  }

  predicate AllSmall(targets: seq<Text>) { forall k :: 0 <= k < |targets| ==> Small(targets[k]) }

  /** Each target is sent the stored stream, readdressed, under one ident. */
  function Sendings(stream: seq<byte>, ident: bv64, targets: seq<Text>): (sent: seq<Sending>)
    requires Loadable(stream)
    ensures |sent| == |targets|
    ensures forall k :: 0 <= k < |targets| ==> sent[k] == Sending(targets[k], StreamFor(stream, ident, targets[k]))
  {
    seq(|targets|, k requires 0 <= k < |targets| => Sending(targets[k], StreamFor(stream, ident, targets[k])))
  }

  lemma SendingsAppend(stream: seq<byte>, ident: bv64, targets: seq<Text>, target: Text)
    requires Loadable(stream)
    ensures Sendings(stream, ident, targets + [target]) ==
            Sendings(stream, ident, targets) + [Sending(target, StreamFor(stream, ident, target))]
  {
  }

  /** What is sent to a target for a routine: its command and flags, the ident, and its arguments. */
  ghost predicate Delivers(s: Sending, stored: seq<byte>, ident: bv64)
    requires Loadable(stored)
  {
    && |s.octets| >= HEADER_SIZE && Streams.SizeField(s.octets) == |s.octets| - HEADER_SIZE
    && Streams.HeaderOf(s.octets).cmd == Streams.HeaderOf(stored).cmd && Streams.HeaderOf(s.octets).flags & 2 != 0
    && (ident <= Ident.IDENT_MAX_IDENT_VALUE ==>
          && Streams.HeaderOf(s.octets).ident == ident
          && Streams.HeaderOf(s.octets).flags & 0xFD == Streams.HeaderOf(stored).flags & 0xFD)
    && Readdressed(Parse(s.octets[HEADER_SIZE..]), ArgsOf(stored), s.target)
  }

  lemma SendingsDeliver(stream: seq<byte>, ident: bv64, targets: seq<Text>)
    requires Loadable(stream) && Sendable(stream) && AllSmall(targets)
    ensures forall k :: 0 <= k < |targets| ==>
              Sendings(stream, ident, targets)[k].target == targets[k] && Delivers(Sendings(stream, ident, targets)[k], stream, ident)
  {
    forall k | 0 <= k < |targets| ensures Delivers(Sendings(stream, ident, targets)[k], stream, ident) {
      HeaderSent(stream, ident, targets[k]);
      ArgumentsSent(stream, ident, targets[k]);
    }
  }

  /** The targets that a sending is for are those asked for that are connected, none of them missed. */
  lemma {:induction false} AmongExactly(targets: seq<Text>, connected: set<Text>)
    ensures forall t :: t in Among(targets, connected) <==> t in targets && t in connected
    ensures AllSmall(targets) ==> AllSmall(Among(targets, connected))
    decreases |targets|
  {
    if targets == [] {
    } else {
      AmongExactly(targets[1..], connected);
      assert forall t :: t in targets <==> t == targets[0] || t in targets[1..];
    }
  }

  /** How far the targets have been gone through: those that were connected have been sent their streams. */
  ghost predicate SentSoFar(stream: seq<byte>, ident: bv64, targets: seq<Text>, connected: set<Text>, n: nat,
                            done: seq<Text>, sent: seq<Sending>)
    requires Loadable(stream)
  {
    && n <= |targets| && Among(targets, connected) == done + Among(targets[n..], connected)
    && (done != [] ==> Sendable(stream)) && sent == Sendings(stream, ident, done)
  }

  lemma AmongNext(targets: seq<Text>, connected: set<Text>, n: nat)
    requires n < |targets|
    ensures Among(targets[n..], connected) ==
            (if targets[n] in connected then [targets[n]] else []) + Among(targets[n + 1..], connected)
  {
    assert targets[n..][0] == targets[n] && targets[n..][1..] == targets[n + 1..];
  }

  lemma AmongSkips(targets: seq<Text>, connected: set<Text>, n: nat)
    requires n < |targets| && targets[n] !in connected
    ensures Among(targets[n..], connected) == Among(targets[n + 1..], connected)
  {
    AmongNext(targets, connected, n);
    assert [] + Among(targets[n + 1..], connected) == Among(targets[n + 1..], connected);
  }

  lemma PassedOver(stream: seq<byte>, ident: bv64, targets: seq<Text>, connected: set<Text>, n: nat, done: seq<Text>,
                   sent: seq<Sending>)
    requires Loadable(stream) && SentSoFar(stream, ident, targets, connected, n, done, sent)
    requires n < |targets| && targets[n] !in connected
    ensures SentSoFar(stream, ident, targets, connected, n + 1, done, sent)
  {
    AmongSkips(targets, connected, n);
  }

  lemma AmongSome(targets: seq<Text>, connected: set<Text>, n: nat, done: seq<Text>)
    requires n < |targets| && targets[n] in connected && Among(targets, connected) == done + Among(targets[n..], connected)
    ensures Among(targets, connected) == (done + [targets[n]]) + Among(targets[n + 1..], connected)
    ensures Among(targets, connected) != []
  {
    AmongNext(targets, connected, n);
    Associate(done, [targets[n]], Among(targets[n + 1..], connected));
  }

  lemma SentNext(stream: seq<byte>, ident: bv64, targets: seq<Text>, connected: set<Text>, n: nat, done: seq<Text>,
                 sent: seq<Sending>)
    requires Loadable(stream) && Sendable(stream) && SentSoFar(stream, ident, targets, connected, n, done, sent)
    requires n < |targets| && targets[n] in connected
    ensures SentSoFar(stream, ident, targets, connected, n + 1, done + [targets[n]],
                      sent + [Sending(targets[n], StreamFor(stream, ident, targets[n]))])
  {
    AmongSome(targets, connected, n, done);
    SendingsAppend(stream, ident, done, targets[n]);
  }

  /** The next target's stream; none if it cannot be copied, or the copy does not split. */
  method SendOne(stored: Streams.ConationStream, ghost stream: seq<byte>, hasODHeader: bool, ident: bv64, target: Text)
    returns (ok: bool, sending: Sending)
    requires Loadable(stream) && Sought(stored, stream, hasODHeader) && Small(target)
    ensures ok == Sendable(stream)
    ensures ok ==> sending == Sending(target, StreamFor(stream, ident, target))
  {
    var r, out := BuildFor(stored, stream, hasODHeader, ident, target);
    ok, sending := r == Streams.Appended, Sending(target, out.bytes);
  }

  /** Goes through the targets; a stream that cannot be copied fails at the first that is connected. */
  method SendAll(stored: Streams.ConationStream, ghost stream: seq<byte>, hasODHeader: bool, ident: bv64,
                 targets: seq<Text>, connected: set<Text>)
    returns (ok: bool, sent: seq<Sending>)
    requires Loadable(stream) && Sought(stored, stream, hasODHeader) && AllSmall(targets)
    ensures ok == (Sendable(stream) || Among(targets, connected) == [])
    ensures sent == if ok then Sendings(stream, ident, Among(targets, connected)) else []
  {
    sent := [];
    ghost var done: seq<Text> := [];
    assert targets[0..] == targets;
    for inc := 0 to |targets|
      invariant SentSoFar(stream, ident, targets, connected, inc, done, sent)
    {
      if targets[inc] in connected {
        AmongSome(targets, connected, inc, done);
        var sending;
        ok, sending := SendOne(stored, stream, hasODHeader, ident, targets[inc]);
        if !ok {
          return false, [];
        }
        SentNext(stream, ident, targets, connected, inc, done, sent);
        sent := sent + [sending];
        done := done + [targets[inc]];
      } else {
        PassedOver(stream, ident, targets, connected, inc, done, sent);
      }
    }
    assert targets[|targets|..] == [] && done + [] == done;
    ok := true;
  }

  /** What running leaves of a routine. */
  function RanInfo(info: RoutineInfo): RoutineInfo {
    if RunsOnce(info.flags) then info.(flags := info.flags | DISABLED) else info
  }

  lemma IndexUnique(known: seq<RoutineInfo>, i: nat)
    requires Unique(known) && i < |known|
    ensures IndexOf(known, known[i].name) == Some(i)
  {
  }

  lemma LoadedMore(disk: map<Text, RoutineRow>, todo: set<Text>, name: Text)
    requires name in todo && name in disk
    ensures (map n | n in disk && n !in todo :: Loaded(n, disk[n]))[name := Loaded(name, disk[name])] ==
            map n | n in disk && n !in todo - {name} :: Loaded(n, disk[n])
  {
  }

  /** Memory and disk agree, and what is to run once does. */
  ghost predicate Sound(known: seq<RoutineInfo>, disk: map<Text, RoutineRow>, history: seq<Event>) {
    Coherent(known, disk) && OnceKept(disk, history) && OnceAlways(history)
  }

  ghost function StreamsOf(disk: map<Text, RoutineRow>): map<Text, seq<byte>> {
    map name | name in disk :: disk[name].stream
  }

  function NextID(id: bv64): bv64 { id + 1 }

  /** The next ident is larger, or nought when the counter starts over. */
  lemma NextIDLarger(id: bv64)
    ensures NextID(id) != id && (NextID(id) == 0 || id < NextID(id))
  {
  }

  /** The list of routines, their stored streams, what has happened, and the last ident given out. */
  datatype Books = Books(known: seq<RoutineInfo>, streams: map<Text, seq<byte>>, history: seq<Event>, lastID: bv64)

  /** One routine has run. */
  ghost function Ran(b: Books, i: nat, cause: Cause, sent: seq<Sending>): Books
    requires i < |b.known|
  {
    b.(known := b.known[i := RanInfo(b.known[i])], history := b.history + [Fired(b.known[i].name, cause, sent)])
  }

  /** What executing a routine comes to: the books, whether it went well, and what was sent. */
  ghost function Executed(b: Books, i: nat, scheduled: bool, stream: seq<byte>, cause: Cause, aims: seq<Text>)
    : (Books, bool, seq<Sending>)
    requires i < |b.known| && Loadable(stream)
  {
    if scheduled && ArgsOf(stream) == [] then (b, false, [])
    else if !Sendable(stream) && aims != [] then (b.(lastID := NextID(b.lastID)), false, [])
    else
      var sent := Sendings(stream, NextID(b.lastID), aims);
      (Ran(b, i, cause, sent).(lastID := NextID(b.lastID)), true, sent)
  }

  /** The stream a size field marks off at the front of some octets. */
  function StreamIn(data: seq<byte>): (octets: seq<byte>)
    requires 17 <= |data| && 17 + Streams.SizeField(data) <= |data|
    ensures octets <= data && |octets| == 17 + Streams.SizeField(data)
  {
    data[..17 + Streams.SizeField(data)]
  }

  lemma StreamInData(data: seq<byte>)
    requires 17 <= |data| && 17 + Streams.SizeField(data) <= |data|
    ensures StreamIn(data)[17..] == data[17..17 + Streams.SizeField(data)]
    ensures Streams.SizeField(StreamIn(data)) == Streams.SizeField(data)
  {
    assert StreamIn(data)[1..9] == data[1..9];
  }

  class RoutineTable {
    var known: seq<RoutineInfo>
    var disk: map<Text, RoutineRow>
    var routineIDCounter: bv64
    ghost var history: seq<Event>

    ghost predicate Valid()
      reads this
    {
      Sound(known, disk, history)
    }

    constructor ()
      ensures Valid() && known == [] && disk == map[] && history == [] && routineIDCounter == 0
    {
      known, disk, history, routineIDCounter := [], map[], [], 0;
    }

    /** What the table amounts to: on disk, only the streams are not told by the list. */
    ghost function AsBooks(): Books
      reads this
    {
      Books(known, StreamsOf(disk), history, routineIDCounter)
    }

    method AllocateRoutineID() returns (ident: bv64)
      requires Valid()
      modifies this`routineIDCounter
      ensures Valid() && ident == routineIDCounter == NextID(old(routineIDCounter))
      ensures AsBooks() == old(AsBooks()).(lastID := ident)
    {
      routineIDCounter := NextID(routineIDCounter);
      ident := routineIDCounter;
    }

    method LookupRoutineDBEntry(name: Text) returns (entry: Option<RoutineDBEntry>)
      ensures entry == if name in disk then Some(RoutineDBEntry(Loaded(name, disk[name]), disk[name].stream)) else None
    {
      if name !in disk {
        return None;
      }
      var row := disk[name];
      var targets := SplitTextByCharacter(row.targets, COMMA);
      entry := Some(RoutineDBEntry(RoutineInfo(name, targets, row.schedule, row.flags), row.stream));
    }

    /** Insert or update: either way the row is what the entry stores as. */
    method UpdateRoutineDB(entry: RoutineDBEntry)
      modifies this`disk
      ensures disk == old(disk)[entry.info.name := Stored(entry)]
    {
      var targets := JoinTextByCharacter(entry.info.targets, COMMA);
      disk := disk[entry.info.name := RoutineRow(entry.stream, entry.info.schedule, entry.info.flags, targets)];
    }

    method Find(name: Text) returns (at: Option<nat>)
      ensures at == IndexOf(known, name)
    {
      for i := 0 to |known|
        invariant forall k :: 0 <= k < i ==> known[k].name != name
      {
        if known[i].name == name {
          return Some(i);
        }
      }
      at := None;
    }

    method AddRoutine(routine: RoutineInfo)
      modifies this`known
      ensures known == Placed(old(known), routine)
    {
      var target := Find(routine.name);
      if target.Some? {
        known := known[target.value := routine];
      } else {
        known := known + [routine];
      }
    }

    method DeleteRoutine(name: Text) returns (deleted: bool)
      modifies this`known
      ensures known == Without(old(known), name) && deleted == IndexOf(old(known), name).Some?
    {
      var target := Find(name);
      if target.Some? {
        known := known[..target.value] + known[target.value + 1..];
        return true;
      }
      deleted := false;
    }

    // ------------------------------------------ the administrator's requests

    /**
     * A routine is added, or written over; its flags are cut to eight bits, and its stream to what its own size field
     * says. A stream whose arguments are not whole throws.
     */
    method HandleAdd(name: Text, schedule: Text, flags: uint32, data: seq<byte>, targets: Text) returns (ok: bool)
      requires Valid() && 17 <= |data| < UINT64_LIMIT && 17 + Streams.SizeField(data) <= |data|
      modifies this
      ensures Valid() && ok == Validation.WholeArguments(StreamIn(data)[17..])
      ensures !ok ==> known == old(known) && disk == old(disk) && history == old(history)
      ensures ok ==>
                var e := RoutineDBEntry(RoutineInfo(name, SplitText(targets, COMMA), schedule, (flags % 256) as bv8),
                                        StreamIn(data));
                && known == Placed(old(known), e.info) && disk == old(disk)[name := Stored(e)]
                && history == old(history) + [Written(name, (flags % 256) as bv8)]
      ensures routineIDCounter == old(routineIDCounter)
    {
      var r, s := Streams.ConationStream.FromOctets(data);
      StreamInData(data);
      ok := s != null;
      if ok {
        var targetNodes := SplitTextByCharacter(targets, COMMA);
        SplitClean(targets, COMMA);
        Enter(RoutineDBEntry(RoutineInfo(name, targetNodes, schedule, (flags % 256) as bv8), s.bytes));
      }
    }

    /** Memory first, then disk. */
    method Enter(entry: RoutineDBEntry)
      requires Valid() && AllClean(entry.info.targets, COMMA)
      modifies this`known, this`disk, this`history
      ensures Valid() && history == old(history) + [Written(entry.info.name, entry.info.flags)]
      ensures known == Placed(old(known), entry.info) && disk == old(disk)[entry.info.name := Stored(entry)]
    {
      PlacedCoherent(known, disk, entry);
      WriteKeepsOnce(disk, history, entry.info.name, Stored(entry));
      AddRoutine(entry.info);
      UpdateRoutineDB(entry);
      history := history + [Written(entry.info.name, entry.info.flags)];
    }

    method HandleDelete(name: Text) returns (deleted: bool)
      requires Valid()
      modifies this`known, this`disk
      ensures Valid() && deleted == (name in old(disk))
      ensures disk == old(disk) - {name} && known == Without(old(known), name)
    {
      WithoutCoherent(known, disk, name);
      deleted := DeleteRoutine(name);
      if deleted {
        disk := disk - {name};
      } else {
        assert disk == disk - {name};
      }
    }

    /** Looks the routine up on disk and changes what was asked for. */
    method Edit(name: Text, change: Change) returns (entry: Option<RoutineDBEntry>)
      ensures entry ==
              if name in disk then Some(RoutineDBEntry(Changed(Loaded(name, disk[name]), change), disk[name].stream)) else None
    {
      entry := LookupRoutineDBEntry(name);
      if entry == None {
        return;
      }
      var info := entry.value.info;
      match change {
        case ChangeFlags(value) => info := info.(flags := (value % 256) as bv8);
        case ChangeSchedule(schedule) => info := info.(schedule := schedule);
        case ChangeTargets(list) =>
          var targets := SplitTextByCharacter(list, COMMA);
          info := info.(targets := targets);
      }
      entry := Some(RoutineDBEntry(info, entry.value.stream));
    }

    /** The entry on disk is changed and written back, and the one in memory is made its copy. */
    method HandleChange(name: Text, change: Change) returns (worked: bool)
      requires Valid()
      modifies this`known, this`disk, this`history
      ensures Valid() && worked == (name in old(disk))
      ensures !worked ==> known == old(known) && disk == old(disk) && history == old(history)
      ensures worked ==>
                var e := RoutineDBEntry(Changed(Loaded(name, old(disk)[name]), change), old(disk)[name].stream);
                && known == Placed(old(known), e.info) && disk == old(disk)[name := Stored(e)]
                && history == old(history) + (if change.ChangeFlags? then [Written(name, e.info.flags)] else [])
    {
      var entry := Edit(name, change);
      WithoutCoherent(known, disk, name);
      if entry == None {
        return false;
      }
      var changed := entry.value;
      ChangedClean(name, disk[name], change);
      PlacedCoherent(known, disk, changed);
      if change.ChangeFlags? {
        WriteKeepsOnce(disk, history, name, Stored(changed));
        history := history + [Written(name, changed.info.flags)];
      } else {
        RewriteKeepsOnce(disk, history, name, Stored(changed));
      }
      var at := Find(name);
      UpdateRoutineDB(changed);
      known := known[at.value := changed.info];
      worked := true;
    }

    // ------------------------------------------------------------ scanning

    /** At start-up the list is made anew from the table, in whatever order the rows come. */
    method ScanRoutineDB()
      requires OnceKept(disk, history) && OnceAlways(history)
      modifies this`known
      ensures Valid()
    {
      known := [];
      var todo := disk.Keys;
      while todo != {}
        invariant todo <= disk.Keys
        invariant Mirrors(known, map name | name in disk && name !in todo :: Loaded(name, disk[name]))
      {
        var name :| name in todo;
        var entry := LookupRoutineDBEntry(name);
        PlacedMirrors(known, map name | name in disk && name !in todo :: Loaded(name, disk[name]), entry.value.info);
        LoadedMore(disk, todo, name);
        AddRoutine(entry.value.info);
        todo := todo - {name};
      }
    }

    // ----------------------------------------------------------- execution

    /** A routine that is to run once has run: it is switched off on disk and in memory. */
    method TurnOff(i: nat, onDisk: RoutineDBEntry, ghost cause: Cause, ghost sent: seq<Sending>)
      requires Valid() && i < |known| && !Off(known[i].flags) && RunsOnce(known[i].flags)
      requires known[i].name in disk && onDisk == RoutineDBEntry(known[i], disk[known[i].name].stream)
      modifies this`known, this`disk, this`history
      ensures Valid() && AsBooks() == Ran(old(AsBooks()), i, cause, sent)
    {
      var routine := known[i];
      var after := RoutineDBEntry(RanInfo(onDisk.info), onDisk.stream);
      TurnedOff(known, disk, history, i, after, cause, sent);
      known := known[i := after.info];
      UpdateRoutineDB(after);
      history := history + [Fired(routine.name, cause, sent)];
    }

    /** A routine has run; only one that is to run once changes. */
    method SwitchOff(i: nat, onDisk: RoutineDBEntry, ghost cause: Cause, ghost sent: seq<Sending>)
      requires Valid() && i < |known| && !Off(known[i].flags)
      requires known[i].name in disk && onDisk == RoutineDBEntry(known[i], disk[known[i].name].stream)
      modifies this`known, this`disk, this`history
      ensures Valid() && AsBooks() == Ran(old(AsBooks()), i, cause, sent)
    {
      var routine := known[i];
      if routine.flags & RUNONCE != 0 {
        TurnOff(i, onDisk, cause, sent);
      } else {
        FireChangesNothing(known, disk, history, i, Fired(routine.name, cause, sent));
        history := history + [Fired(routine.name, cause, sent)];
      }
    }

    /** Sends a loaded stream on under a fresh ident. */
    method SendOut(stored: Streams.ConationStream, ghost stream: seq<byte>, targets: seq<Text>, connected: set<Text>)
      returns (ok: bool, sent: seq<Sending>)
      requires Valid() && Loadable(stream) && AllSmall(targets) && stored.Valid() && stored.index.None?
      requires stored.bytes == stream && stored.args == ArgsOf(stream)
      modifies this`routineIDCounter, stored`index, stored`popped
      ensures Valid() && AsBooks() == old(AsBooks()).(lastID := NextID(old(routineIDCounter)))
      ensures ok == (Sendable(stream) || Among(targets, connected) == [])
      ensures sent == if ok then Sendings(stream, NextID(old(routineIDCounter)), Among(targets, connected)) else []
    {
      var ident := AllocateRoutineID();
      var hasODHeader := SeekPastHeader(stored, stream);
      ok, sent := SendAll(stored, stream, hasODHeader, ident, targets, connected);
    }

    /**
     * Sends the stored stream, readdressed, to those of the targets that are connected. A stream that cannot be copied
     * fails at the first of them, and a scheduled one without arguments at once, when the type of the first is looked
     * at through a null pointer; otherwise the routine has run.
     */
    method Execute(i: nat, scheduled: bool, targets: seq<Text>, connected: set<Text>, ghost cause: Cause)
      returns (ok: bool, sent: seq<Sending>)
      requires Valid() && i < |known| && !Off(known[i].flags) && AllSmall(targets)
      requires known[i].name in disk && Loadable(disk[known[i].name].stream)
      modifies this
      ensures Valid()
      ensures var b, stream := old(AsBooks()), old(disk[known[i].name].stream);
              (AsBooks(), ok, sent) == Executed(b, i, scheduled, stream, cause, Among(targets, connected))
    {
      var onDisk := LookupRoutineDBEntry(known[i].name);
      var stored := Load(onDisk.value.stream);
      if scheduled {
        var bare := HasNoArguments(stored);
        if bare {
          return false, [];
        }
      }
      ok, sent := SendOut(stored, onDisk.value.stream, targets, connected);
      if ok {
        KnownAsStored(known, disk, i);
        SwitchOff(i, onDisk.value, cause, sent);
      }
    }
  }

  lemma KnownAsStored(known: seq<RoutineInfo>, disk: map<Text, RoutineRow>, i: nat)
    requires Coherent(known, disk) && i < |known|
    ensures known[i].name in disk && known[i] == Loaded(known[i].name, disk[known[i].name])
  {
  }

  lemma PlacedHere(known: seq<RoutineInfo>, i: nat, r: RoutineInfo)
    requires Unique(known) && i < |known| && known[i].name == r.name
    ensures Placed(known, r) == known[i := r]
  {
    IndexUnique(known, i);
  }

  /** Switching a routine off in both places keeps them together, and counts its one activation. */
  lemma TurnedOff(known: seq<RoutineInfo>, disk: map<Text, RoutineRow>, history: seq<Event>, i: nat, after: RoutineDBEntry,
                  cause: Cause, sent: seq<Sending>)
    requires Sound(known, disk, history)
    requires i < |known| && known[i].name in disk && RunsOnce(known[i].flags) && !Off(known[i].flags)
    requires after == RoutineDBEntry(RanInfo(known[i]), disk[known[i].name].stream)
    ensures Sound(known[i := after.info], disk[known[i].name := Stored(after)], history + [Fired(known[i].name, cause, sent)])
    ensures StreamsOf(disk[known[i].name := Stored(after)]) == StreamsOf(disk)
  {
    var name := known[i].name;
    KnownAsStored(known, disk, i);
    SplitClean(disk[name].targets, COMMA);
    PlacedHere(known, i, after.info);
    PlacedCoherent(known, disk, after);
    FireKeepsOnce(disk, history, Fired(name, cause, sent), Stored(after));
  }

  /** The activation of a routine that does not run once changes neither list nor table. */
  lemma FireChangesNothing(known: seq<RoutineInfo>, disk: map<Text, RoutineRow>, history: seq<Event>, i: nat, e: Event)
    requires Sound(known, disk, history) && i < |known| && !RunsOnce(known[i].flags) && !Off(known[i].flags)
    requires e.Fired? && e.name == known[i].name
    ensures Sound(known, disk, history + [e]) && known[i := RanInfo(known[i])] == known
  {
    KnownAsStored(known, disk, i);
    FireKeepsOnce(disk, history, e, disk[e.name]);
    assert disk[e.name := disk[e.name]] == disk;
  }

  /** A row rewritten with the same flags counts as before. */
  lemma RewriteKeepsOnce(disk: map<Text, RoutineRow>, history: seq<Event>, name: Text, row: RoutineRow)
    requires OnceKept(disk, history) && name in disk && row.flags == disk[name].flags
    ensures OnceKept(disk[name := row], history)
  {
  }

  function Changed(info: RoutineInfo, change: Change): RoutineInfo {
    match change
    case ChangeFlags(value) => info.(flags := (value % 256) as bv8)
    case ChangeSchedule(schedule) => info.(schedule := schedule)
    case ChangeTargets(list) => info.(targets := SplitText(list, COMMA))
  }

  /** A change reaches one field and no other; flags are cut to their lowest octet. */
  lemma ChangedExactly(info: RoutineInfo, change: Change)
    ensures Changed(info, change).name == info.name
    ensures if change.ChangeFlags? then Changed(info, change).flags == (change.value % 256) as bv8
            else Changed(info, change).flags == info.flags
    ensures Changed(info, change).schedule == if change.ChangeSchedule? then change.schedule else info.schedule
    ensures if change.ChangeTargets? then Changed(info, change).targets == Split(change.list, 44)
            else Changed(info, change).targets == info.targets
  {
  }

  lemma ChangedClean(name: Text, row: RoutineRow, change: Change)
    ensures AllClean(Changed(Loaded(name, row), change).targets, COMMA)
  {
    SplitClean(row.targets, COMMA);
    if change.ChangeTargets? {
      SplitClean(change.list, COMMA);
    }
  }

  /** A write of a routine's flags starts its count afresh. */
  lemma WriteKeepsOnce(disk: map<Text, RoutineRow>, history: seq<Event>, name: Text, row: RoutineRow)
    requires OnceKept(disk, history) && OnceAlways(history)
    ensures OnceKept(disk[name := row], history + [Written(name, row.flags)])
    ensures OnceAlways(history + [Written(name, row.flags)])
  {
    var e := Written(name, row.flags);
    forall other | RunsOnce(LastWritten(history + [e], other))
      ensures SinceWrite(history + [e], other) <= 1
      ensures other in disk[name := row] ==>
                RunsOnce(disk[name := row][other].flags)
                && (SinceWrite(history + [e], other) == 1 ==> Off(disk[name := row][other].flags))
    {
      HistoryGrows(history, e, other);
    }
    OnceStill(disk[name := row], history, e);
  }

  /** A routine that is not off is activated; if it is to run once, its row is switched off behind it. */
  lemma FireKeepsOnce(disk: map<Text, RoutineRow>, history: seq<Event>, e: Event, row: RoutineRow)
    requires OnceKept(disk, history) && OnceAlways(history) && e.Fired? && e.name in disk && !Off(disk[e.name].flags)
    requires row.flags == if RunsOnce(disk[e.name].flags) then disk[e.name].flags | DISABLED else disk[e.name].flags
    ensures OnceKept(disk[e.name := row], history + [e])
    ensures OnceAlways(history + [e])
  {
    var after := disk[e.name := row];
    FlagBits(disk[e.name].flags);
    forall other | RunsOnce(LastWritten(history + [e], other))
      ensures SinceWrite(history + [e], other) <= 1
      ensures other in after ==>
                RunsOnce(after[other].flags) && (SinceWrite(history + [e], other) == 1 ==> Off(after[other].flags))
    {
      HistoryGrows(history, e, other);
    }
    OnceStill(after, history, e);
  }

  lemma {:induction false} SinceAtLeast(history: seq<Event>, name: Text, j: nat, k: nat)
    requires j < k <= |history| && history[j].Fired? && history[j].name == name
    requires forall m :: j < m < k ==> !(history[m].Written? && history[m].name == name)
    ensures SinceWrite(history[..k], name) >= 1
    decreases k
  {
    assert history[..k][..k - 1] == history[..k - 1];
    if j == k - 1 {
    } else {
      SinceAtLeast(history, name, j, k - 1);
    }
  }

  /** Between two activations of a routine that was last written to run once, the administrator has written its flags. */
  lemma OnceBetweenWrites(table: RoutineTable, name: Text, j: nat, k: nat)
    requires table.Valid() && j < k < |table.history|
    requires table.history[j].Fired? && table.history[k].Fired? && table.history[j].name == table.history[k].name == name
    requires RunsOnce(LastWritten(table.history[..k], name))
    ensures exists m :: j < m < k && table.history[m].Written? && table.history[m].name == name
  {
    var h := table.history;
    assert h[..k + 1] == h[..k] + [h[k]];
    HistoryGrows(h[..k], h[k], name);
    assert SinceWrite(h[..k + 1], name) <= 1;
    if forall m :: j < m < k ==> !(h[m].Written? && h[m].name == name) {
      SinceAtLeast(h, name, j, k);
      assert false;
    }
  }
}
