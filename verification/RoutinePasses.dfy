/** Passes over the list of routines: every second or so for those that are scheduled, and when a node connects. */
module RoutinePasses {
  import opened Bytes
  import opened Arguments
  import opened TextTools
  import opened Schedule
  import opened RoutineStreams
  import opened Routines

  /** A scheduled routine whose time has come. */
  ghost predicate Due(info: RoutineInfo, t: BrokenTime) {
    !Off(info.flags) && info.schedule != [] && Verdict(SplitText(info.schedule, SPACE), t, 0) == Some(true)
  }

  /** A schedule that is looked at, accepts as far as it goes, and has too few fields. */
  ghost predicate FallsShort(info: RoutineInfo, t: BrokenTime) {
    !Off(info.flags) && info.schedule != [] && Verdict(SplitText(info.schedule, SPACE), t, 0) == None
  }

  /** A routine to be run when one of its targets connects. */
  predicate OnConnect(info: RoutineInfo, node: Text) {
    info.flags & ONCONNECT != 0 && !Off(info.flags) && node in info.targets
  }

  /** A stored stream without arguments. */
  predicate Bare(info: RoutineInfo, streams: map<Text, seq<byte>>) {
    info.name in streams && Loadable(streams[info.name]) && ArgsOf(streams[info.name]) == []
  }

  /**
   * Some target is connected, and the stream cannot be sent to it: the copied length is negative, or what would be
   * copied does not split into arguments.
   */
  predicate Blocked(info: RoutineInfo, streams: map<Text, seq<byte>>, aims: seq<Text>) {
    info.name in streams && Loadable(streams[info.name]) && !Sendable(streams[info.name]) && aims != []
  }

  /**
   * What a pass goes by: which routines it runs, at which it fails, whom each is for, and why. The scheduled pass fails
   * at a routine without arguments before it has given it an ident, at one whose stream cannot be sent behind that.
   */
  datatype Order = Order(pick: RoutineInfo -> bool, stops: RoutineInfo -> bool, aims: RoutineInfo -> seq<Text>, cause: Cause)

  ghost function Scheduled(t: BrokenTime, time: int, streams: map<Text, seq<byte>>, connected: set<Text>): Order {
    Order((info: RoutineInfo) => Due(info, t) && !Bare(info, streams),
          (info: RoutineInfo) =>
            FallsShort(info, t)
            || (Due(info, t) && (Bare(info, streams) || Blocked(info, streams, Among(info.targets, connected)))),
          (info: RoutineInfo) => Among(info.targets, connected),
          BySchedule(time))
  }

  ghost function Connected(node: Text, streams: map<Text, seq<byte>>): Order {
    Order((info: RoutineInfo) => OnConnect(info, node),
          (info: RoutineInfo) => OnConnect(info, node) && Blocked(info, streams, Among([node], {node})),
          (info: RoutineInfo) => Among([node], {node}),
          ByConnection(node))
  }

  /** The first routine at which a pass fails, or the length of the list. */
  ghost function FirstStop(known: seq<RoutineInfo>, stops: RoutineInfo -> bool): (n: nat)
    ensures n <= |known|
  {
    if known == [] || stops(known[0]) then 0 else 1 + FirstStop(known[1..], stops)
  }

  lemma {:induction false} FirstStopMeans(known: seq<RoutineInfo>, stops: RoutineInfo -> bool)
    ensures var n := FirstStop(known, stops);
            (n < |known| ==> stops(known[n])) && forall i :: 0 <= i < n ==> !stops(known[i])
  {
    if known == [] || stops(known[0]) {
    } else {
      FirstStopMeans(known[1..], stops);
      var n := FirstStop(known[1..], stops);
      assert forall i :: 0 < i <= n && i < |known| ==> known[i] == known[1..][i - 1];
    }
  }

  lemma {:induction false} FirstStopIs(known: seq<RoutineInfo>, stops: RoutineInfo -> bool, n: nat)
    requires n <= |known| && (n < |known| ==> stops(known[n])) && forall i :: 0 <= i < n ==> !stops(known[i])
    ensures FirstStop(known, stops) == n
  {
    if n == 0 {
    } else {
      FirstStopIs(known[1..], stops, n - 1);
    }
  }

  /** The list when those of its first n routines that are picked have run. */
  ghost function RanFirst(known: seq<RoutineInfo>, n: nat, pick: RoutineInfo -> bool): (r: seq<RoutineInfo>)
    ensures |r| == |known|
    ensures forall i :: 0 <= i < |known| ==> r[i] == if i < n && pick(known[i]) then RanInfo(known[i]) else known[i]
  {
    seq(|known|, i requires 0 <= i < |known| => if i < n && pick(known[i]) then RanInfo(known[i]) else known[i])
  }

  /** One fresh ident each. */
  ghost function IdentsFirst(known: seq<RoutineInfo>, n: nat, o: Order, id: bv64): bv64
    requires n <= |known|
  {
    if n == 0 then id
    else if o.pick(known[n - 1]) then NextID(IdentsFirst(known, n - 1, o, id)) else IdentsFirst(known, n - 1, o, id)
  }

  /** Of two routines that run one right after the other, the later is given the larger ident, or nought. */
  lemma {:induction false} NeighboursGrow(known: seq<RoutineInfo>, i: nat, j: nat, o: Order, id: bv64)
    requires i < j < |known| && o.pick(known[i]) && o.pick(known[j])
    requires forall k :: i < k < j ==> !o.pick(known[k])
    ensures var first, second := IdentsFirst(known, i + 1, o, id), IdentsFirst(known, j + 1, o, id);
            first != second && (second == 0 || first < second)
  {
    IdentsStay(known, i + 1, j, o, id);
    NextIDLarger(IdentsFirst(known, j, o, id));
  }

  lemma {:induction false} IdentsStay(known: seq<RoutineInfo>, i: nat, j: nat, o: Order, id: bv64)
    requires i <= j <= |known| && forall k :: i <= k < j ==> !o.pick(known[k])
    ensures IdentsFirst(known, i, o, id) == IdentsFirst(known, j, o, id)
    decreases j
  {
    if i == j {
    } else {
      IdentsStay(known, i, j - 1, o, id);
    }
  }

  /** What one routine sends. */
  ghost function SentBy(info: RoutineInfo, streams: map<Text, seq<byte>>, ident: bv64, aims: seq<Text>): seq<Sending> {
    if info.name in streams && Loadable(streams[info.name]) then Sendings(streams[info.name], ident, aims) else []
  }

  /** One routine's activation, and what it sends under its ident. */
  ghost function FiredBy(b: Books, i: nat, o: Order): Event
    requires i < |b.known|
  {
    var info := b.known[i];
    Fired(info.name, o.cause, SentBy(info, b.streams, IdentsFirst(b.known, i + 1, o, b.lastID), o.aims(info)))
  }

  /** One activation each, in the order of the list. */
  ghost function FiredFirst(b: Books, n: nat, o: Order): seq<Event>
    requires n <= |b.known|
  {
    if n == 0 then []
    else FiredFirst(b, n - 1, o) + (if o.pick(b.known[n - 1]) then [FiredBy(b, n - 1, o)] else [])
  }

  ghost function SentFirst(b: Books, n: nat, o: Order): seq<Sending>
    requires n <= |b.known|
  {
    if n == 0 then [] else SentFirst(b, n - 1, o) + (if o.pick(b.known[n - 1]) then FiredBy(b, n - 1, o).sent else [])
  }

  /** The books when those of the first n routines that are picked have run. */
  ghost function FirstRan(b: Books, n: nat, o: Order): Books
    requires n <= |b.known|
  {
    Books(RanFirst(b.known, n, o.pick), b.streams, b.history + FiredFirst(b, n, o),
          IdentsFirst(b.known, n, o, b.lastID))
  }

  datatype Passed = Passed(books: Books, n: nat, sent: seq<Sending>)

  /**
   * What a pass comes to: the routines before the first at which it fails have run if they are picked, each once; the
   * one at which it fails may have used up an ident.
   */
  ghost function Pass(b: Books, o: Order): Passed {
    var n := FirstStop(b.known, o.stops);
    var r := FirstRan(b, n, o);
    Passed(if n < |b.known| && o.pick(b.known[n]) then r.(lastID := NextID(r.lastID)) else r, n, SentFirst(b, n, o))
  }

  /** A pass activates no routine twice, and none that is not picked. */
  lemma {:induction false} FiredDistinct(b: Books, n: nat, o: Order)
    requires n <= |b.known| && Unique(b.known)
    ensures forall e :: e in FiredFirst(b, n, o) ==> exists i :: 0 <= i < n && o.pick(b.known[i]) && e == FiredBy(b, i, o)
    ensures forall j, k :: 0 <= j < k < |FiredFirst(b, n, o)| ==> FiredFirst(b, n, o)[j].name != FiredFirst(b, n, o)[k].name
  {
    if n == 0 {
    } else {
      FiredDistinct(b, n - 1, o);
      var before := FiredFirst(b, n - 1, o);
      forall j | 0 <= j < |before| ensures before[j].name != b.known[n - 1].name {
        assert before[j] in before;
      }
    }
  }

  /** And it activates every routine that is picked before the first at which it fails. */
  lemma {:induction false} FiredAll(b: Books, n: nat, o: Order, i: nat)
    requires i < n <= |b.known| && o.pick(b.known[i])
    ensures FiredBy(b, i, o) in FiredFirst(b, n, o)
  {
    if i == n - 1 {
    } else {
      FiredAll(b, n - 1, o, i);
    }
  }

  /** Some of these events are of a routine. */
  ghost predicate OfRoutine(events: seq<Event>, name: Text) { exists k :: 0 <= k < |events| && events[k].name == name }

  /** The activations in a pass are of the routines that are picked: which, and of none other. */
  lemma FiredExactly(b: Books, n: nat, o: Order, i: nat)
    requires i < n <= |b.known| && Unique(b.known)
    ensures o.pick(b.known[i]) <==> OfRoutine(FiredFirst(b, n, o), b.known[i].name)
    ensures forall k :: 0 <= k < |FiredFirst(b, n, o)| && FiredFirst(b, n, o)[k].name == b.known[i].name ==>
              FiredFirst(b, n, o)[k] == FiredBy(b, i, o)
  {
    var fired := FiredFirst(b, n, o);
    FiredDistinct(b, n, o);
    if o.pick(b.known[i]) {
      FiredAll(b, n, o, i);
    }
    forall k | 0 <= k < |fired| && fired[k].name == b.known[i].name
      ensures fired[k] == FiredBy(b, i, o) && o.pick(b.known[i])
    {
      assert fired[k] in fired;
      var j :| 0 <= j < n && o.pick(b.known[j]) && fired[k] == FiredBy(b, j, o);
      assert j == i;
    }
  }

  /** The activations a pass has added to the history. */
  ghost function NewIn(b: Books, o: Order): seq<Event> {
    FiredFirst(b, Pass(b, o).n, o)
  }

  /**
   * When a node connects, a routine that the pass gets past is activated exactly if its on-connect flag is on, it is not
   * off, and it names the node.
   */
  lemma ConnectFiresExactly(b: Books, node: Text, i: nat)
    requires Unique(b.known) && i < Pass(b, Connected(node, b.streams)).n
    ensures Pass(b, Connected(node, b.streams)).books.history == b.history + NewIn(b, Connected(node, b.streams))
    ensures var added, info := NewIn(b, Connected(node, b.streams)), b.known[i];
            OfRoutine(added, info.name) <==>
            info.flags & 2 != 0 && info.flags & 4 == 0 && node in info.targets
  {
    var o := Connected(node, b.streams);
    FiredExactly(b, Pass(b, o).n, o, i);
    assert o.pick(b.known[i]) <==> OnConnect(b.known[i], node);
  }

  /**
   * A look at a time activates a routine that it gets past exactly if the routine is not off and its schedule, which has
   * seven fields or more, accepts the time in each of the first seven.
   */
  lemma LookFiresExactly(b: Books, t: BrokenTime, time: int, connected: set<Text>, i: nat)
    requires Unique(b.known) && i < Pass(b, Scheduled(t, time, b.streams, connected)).n
    ensures var o := Scheduled(t, time, b.streams, connected); Pass(b, o).books.history == b.history + NewIn(b, o)
    ensures var added, info := NewIn(b, Scheduled(t, time, b.streams, connected)), b.known[i];
            var fields := SplitText(info.schedule, SPACE);
            OfRoutine(added, info.name) <==>
            && info.flags & 4 == 0 && |fields| >= 7
            && TextAccepts(fields[0], t.wday + 1) && TextAccepts(fields[1], t.year + 1900)
            && TextAccepts(fields[2], t.mon + 1) && TextAccepts(fields[3], t.mday)
            && TextAccepts(fields[4], t.hour) && TextAccepts(fields[5], t.min) && TextAccepts(fields[6], t.sec)
  {
    var o, info := Scheduled(t, time, b.streams, connected), b.known[i];
    var n := Pass(b, o).n;
    FirstStopMeans(b.known, o.stops);
    FiredExactly(b, n, o, i);
    AcceptsExactly(SplitText(info.schedule, SPACE), t);
    assert !o.stops(info);
    assert o.pick(info) <==> Due(info, t);
    assert info.schedule == [] ==> SplitText(info.schedule, SPACE) == [];
  }

  /** What one of these activations sends reaches every target that is connected, and nobody else. */
  lemma FiredDelivers(b: Books, o: Order, i: nat)
    requires i < |b.known| && Stocked(b.known[i], b.streams) && o.pick(b.known[i]) && !o.stops(b.known[i])
    requires AllSmall(o.aims(b.known[i])) && (Sendable(b.streams[b.known[i].name]) || o.aims(b.known[i]) == [])
    ensures var e, stored := FiredBy(b, i, o), b.streams[b.known[i].name];
            && e.cause == o.cause && |e.sent| == |o.aims(b.known[i])|
            && forall k :: 0 <= k < |e.sent| ==>
                 && e.sent[k].target == o.aims(b.known[i])[k]
                 && Delivers(e.sent[k], stored, IdentsFirst(b.known, i + 1, o, b.lastID))
  {
    var stored, aims := b.streams[b.known[i].name], o.aims(b.known[i]);
    if aims != [] {
      SendingsDeliver(stored, IdentsFirst(b.known, i + 1, o, b.lastID), aims);
    }
  }

  /** A pass gets to the end exactly when it fails at no routine. */
  lemma EndsExactly(known: seq<RoutineInfo>, stops: RoutineInfo -> bool)
    ensures FirstStop(known, stops) == |known| <==> forall i :: 0 <= i < |known| ==> !stops(known[i])
  {
    FirstStopMeans(known, stops);
  }

  // ------------------------------------------------------- one routine's turn

  /** What one routine's turn makes of the books, whether it goes well, and what it sends. */
  ghost function TurnOf(b: Books, i: nat, o: Order): (Books, bool, seq<Sending>)
    requires i < |b.known|
  {
    var info := b.known[i];
    if o.stops(info) then (if o.pick(info) then b.(lastID := NextID(b.lastID)) else b, false, [])
    else if o.pick(info) then
      var sent := SentBy(info, b.streams, NextID(b.lastID), o.aims(info));
      (Ran(b, i, o.cause, sent).(lastID := NextID(b.lastID)), true, sent)
    else (b, true, [])
  }

  /** A pass that has got as far as the n-th routine. */
  ghost predicate InPass(start: Books, n: nat, o: Order, b: Books, sent: seq<Sending>) {
    && n <= |start.known| && (forall i :: 0 <= i < n ==> !o.stops(start.known[i]))
    && b == FirstRan(start, n, o) && sent == SentFirst(start, n, o)
  }

  lemma PassStart(start: Books, o: Order)
    ensures InPass(start, 0, o, start, [])
  {
    assert RanFirst(start.known, 0, o.pick) == start.known;
  }

  lemma PassStep(start: Books, n: nat, o: Order, b: Books, sent: seq<Sending>)
    requires InPass(start, n, o, b, sent) && n < |start.known|
    ensures |b.known| == |start.known| && b.known[n] == start.known[n] && b.streams == start.streams
    ensures var (after, ok, more) := TurnOf(b, n, o);
            if ok then InPass(start, n + 1, o, after, sent + more) else Pass(start, o) == Passed(after, n, sent)
  {
    var info := start.known[n];
    if o.stops(info) {
      FirstStopIs(start.known, o.stops, n);
    } else if o.pick(info) {
      assert RanFirst(start.known, n + 1, o.pick) == b.known[n := RanInfo(info)];
    } else {
      assert RanFirst(start.known, n + 1, o.pick) == b.known;
    }
  }

  lemma PassEnd(start: Books, n: nat, o: Order, b: Books, sent: seq<Sending>)
    requires InPass(start, n, o, b, sent) && n == |start.known|
    ensures Pass(start, o) == Passed(b, n, sent)
  {
    FirstStopIs(start.known, o.stops, n);
  }

  /** A routine as it can have come in a request: its stream is well formed, and nothing of it is too large. */
  ghost predicate Stocked(info: RoutineInfo, streams: map<Text, seq<byte>>) {
    info.name in streams && Loadable(streams[info.name]) && AllSmall(info.targets)
  }

  ghost predicate AllStocked(b: Books) {
    forall i :: 0 <= i < |b.known| ==> Stocked(b.known[i], b.streams)
  }

  lemma StillStocked(b: Books, n: nat, o: Order)
    requires n <= |b.known| && AllStocked(b)
    ensures AllStocked(FirstRan(b, n, o))
  {
    var r := FirstRan(b, n, o);
    forall i | 0 <= i < |b.known| ensures Stocked(r.known[i], r.streams) {
      assert Stocked(b.known[i], b.streams);
    }
  }

  /** What the list says of a routine, the table says too. */
  lemma InBooks(table: RoutineTable, i: nat)
    requires table.Valid() && i < |table.known|
    ensures table.known[i].name in table.disk
    ensures table.AsBooks().streams[table.known[i].name] == table.disk[table.known[i].name].stream
  {
    KnownAsStored(table.known, table.disk, i);
  }

  /** A routine is run. */
  method RunOne(table: RoutineTable, i: nat, scheduled: bool, targets: seq<Text>, connected: set<Text>, ghost cause: Cause)
    returns (ok: bool, sent: seq<Sending>)
    requires table.Valid() && i < |table.known| && !Off(table.known[i].flags) && AllSmall(targets)
    requires Stocked(table.known[i], table.AsBooks().streams)
    modifies table
    ensures table.Valid()
    ensures var b := old(table.AsBooks());
            (table.AsBooks(), ok, sent) ==
            Executed(b, i, scheduled, b.streams[b.known[i].name], cause, Among(targets, connected))
  {
    InBooks(table, i);
    ok, sent := table.Execute(i, scheduled, targets, connected, cause);
  }

  /** The three ways a routine's turn in the scheduled pass can go. */
  lemma ScheduledTurn(b: Books, i: nat, t: BrokenTime, time: int, connected: set<Text>)
    requires i < |b.known| && Stocked(b.known[i], b.streams)
    ensures var info, turn := b.known[i], TurnOf(b, i, Scheduled(t, time, b.streams, connected));
            if FallsShort(info, t) then turn == (b, false, [])
            else if Due(info, t) then
              turn == Executed(b, i, true, b.streams[info.name], BySchedule(time), Among(info.targets, connected))
            else turn == (b, true, [])
  {
  }

  lemma ConnectedTurn(b: Books, i: nat, node: Text)
    requires i < |b.known| && Stocked(b.known[i], b.streams)
    ensures var info, turn := b.known[i], TurnOf(b, i, Connected(node, b.streams));
            if OnConnect(info, node) then
              turn == Executed(b, i, false, b.streams[info.name], ByConnection(node), Among([node], {node}))
            else turn == (b, true, [])
  {
  }

  /** A disabled or unscheduled routine is passed over; another runs if its schedule accepts the time. */
  method RunIfDue(table: RoutineTable, i: nat, cache: TimeCache, time: int, connected: set<Text>)
    returns (ok: bool, sent: seq<Sending>)
    requires table.Valid() && cache.Valid() && i < |table.known| && AllStocked(table.AsBooks())
    modifies table, cache
    ensures table.Valid() && cache.Valid() && cache.Seen(time) == old(cache.Seen(time))
    ensures var b := old(table.AsBooks());
            (table.AsBooks(), ok, sent) == TurnOf(b, i, Scheduled(old(cache.Seen(time)), time, b.streams, connected))
  {
    var routine := table.known[i];
    ScheduledTurn(table.AsBooks(), i, cache.Seen(time), time, connected);
    if routine.flags & DISABLED != 0 || routine.schedule == [] {
      return true, [];
    }
    var matches := CheckRoutineTimer(cache, routine.schedule, time);
    if matches == None {
      return false, [];
    }
    if !matches.value {
      return true, [];
    }
    ok, sent := RunOne(table, i, true, routine.targets, connected, BySchedule(time));
  }

  method RunIfOnConnect(table: RoutineTable, i: nat, node: Text) returns (ok: bool, sent: seq<Sending>)
    requires table.Valid() && i < |table.known| && AllStocked(table.AsBooks()) && Small(node)
    modifies table
    ensures table.Valid()
    ensures var b := old(table.AsBooks()); (table.AsBooks(), ok, sent) == TurnOf(b, i, Connected(node, b.streams))
  {
    var routine := table.known[i];
    ConnectedTurn(table.AsBooks(), i, node);
    if routine.flags & ONCONNECT == 0 || routine.flags & DISABLED != 0 || node !in routine.targets {
      return true, [];
    }
    ok, sent := RunOne(table, i, false, [node], {node}, ByConnection(node));
  }

  // ------------------------------------------------------------------ passes

  /** The n-th routine's turn in the scheduled pass: the pass has got one further, or is over. */
  method NextScheduled(table: RoutineTable, n: nat, cache: TimeCache, time: int, connected: set<Text>, ghost start: Books,
                       ghost o: Order, ghost sent: seq<Sending>)
    returns (ok: bool, more: seq<Sending>)
    requires table.Valid() && cache.Valid() && n < |start.known| && AllStocked(start)
    requires o == Scheduled(cache.Seen(time), time, start.streams, connected) && InPass(start, n, o, table.AsBooks(), sent)
    modifies table, cache
    ensures table.Valid() && cache.Valid() && cache.Seen(time) == old(cache.Seen(time))
    ensures ok ==> InPass(start, n + 1, o, table.AsBooks(), sent + more)
    ensures !ok ==> Pass(start, o) == Passed(table.AsBooks(), n, sent)
  {
    PassStep(start, n, o, table.AsBooks(), sent);
    StillStocked(start, n, o);
    ok, more := RunIfDue(table, n, cache, time, connected);
  }

  method NextConnected(table: RoutineTable, n: nat, node: Text, ghost start: Books, ghost o: Order, ghost sent: seq<Sending>)
    returns (ok: bool, more: seq<Sending>)
    requires table.Valid() && n < |start.known| && AllStocked(start) && Small(node)
    requires o == Connected(node, start.streams) && InPass(start, n, o, table.AsBooks(), sent)
    modifies table
    ensures table.Valid()
    ensures ok ==> InPass(start, n + 1, o, table.AsBooks(), sent + more)
    ensures !ok ==> Pass(start, o) == Passed(table.AsBooks(), n, sent)
  {
    PassStep(start, n, o, table.AsBooks(), sent);
    StillStocked(start, n, o);
    ok, more := RunIfOnConnect(table, n, node);
  }

  /** In the middle of a pass the list is as long as it was. */
  lemma SameLength(start: Books, n: nat, o: Order, b: Books, sent: seq<Sending>)
    requires InPass(start, n, o, b, sent)
    ensures |b.known| == |start.known|
  {
  }

  /**
   * The scheduled pass: every routine that is due runs once, in the order of the list, and no other, up to the first
   * whose schedule has too few fields, which has no arguments, or whose stream cannot be sent to a connected target.
   */
  method ProcessScheduledRoutines(table: RoutineTable, cache: TimeCache, time: int, connected: set<Text>)
    returns (ok: bool, n: nat, sent: seq<Sending>)
    requires table.Valid() && cache.Valid() && AllStocked(table.AsBooks())
    modifies table, cache
    ensures table.Valid() && cache.Valid() && ok == (n == |old(table.known)|)
    ensures var b := old(table.AsBooks());
            Pass(b, Scheduled(old(cache.Seen(time)), time, b.streams, connected)) == Passed(table.AsBooks(), n, sent)
  {
    ghost var start := table.AsBooks();
    ghost var o := Scheduled(cache.Seen(time), time, start.streams, connected);
    PassStart(start, o);
    ok, n, sent := true, 0, [];
    while n < |table.known|
      invariant table.Valid() && cache.Valid() && cache.Seen(time) == old(cache.Seen(time))
      invariant n <= |start.known| == |table.known| && InPass(start, n, o, table.AsBooks(), sent)
      decreases |start.known| - n
    {
      var more;
      ok, more := NextScheduled(table, n, cache, time, connected, start, o, sent);
      if !ok {
        return;
      }
      n, sent := n + 1, sent + more;
      SameLength(start, n, o, table.AsBooks(), sent);
    }
    PassEnd(start, n, o, table.AsBooks(), sent);
  }

  /** A node has connected: every routine that runs on connection and names it runs once, up to the first that throws. */
  method ProcessOnConnectRoutines(table: RoutineTable, node: Text) returns (ok: bool, n: nat, sent: seq<Sending>)
    requires table.Valid() && AllStocked(table.AsBooks()) && Small(node)
    modifies table
    ensures table.Valid() && ok == (n == |old(table.known)|)
    ensures var b := old(table.AsBooks()); Pass(b, Connected(node, b.streams)) == Passed(table.AsBooks(), n, sent)
  {
    ghost var start := table.AsBooks();
    ghost var o := Connected(node, start.streams);
    PassStart(start, o);
    ok, n, sent := true, 0, [];
    while n < |table.known|
      invariant table.Valid()
      invariant n <= |start.known| == |table.known| && InPass(start, n, o, table.AsBooks(), sent)
      decreases |start.known| - n
    {
      var more;
      ok, more := NextConnected(table, n, node, start, o, sent);
      if !ok {
        return;
      }
      n, sent := n + 1, sent + more;
      SameLength(start, n, o, table.AsBooks(), sent);
    }
    PassEnd(start, n, o, table.AsBooks(), sent);
  }
}
