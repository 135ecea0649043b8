/** Whole runs of the routine side of the server: passes of the core loop, and what happens to routines between them. */
module ScheduledRuns {
  import opened Bytes
  import opened Arguments
  import opened Splitting
  import opened TextTools
  import opened Schedule
  import opened RoutineStreams
  import opened Routines
  import opened RoutinePasses
  import opened Pacing
  import Streams
  import Validation

  /** What may come between two passes: a request of the administrator's, or a node that connects. */
  datatype Between =
    | Add(name: Text, schedule: Text, flags: uint32, data: seq<byte>, targets: Text)
    | Delete(name: Text)
    | Alter(name: Text, change: Change)
    | Connects(node: Text)

  /** One pass of the core loop: what comes before its tail, in order, who is connected, and how long it takes. */
  datatype LoopPass = LoopPass(before: seq<Between>, connected: set<Text>, ms: nat)

  // ------------------------------------------------------- what a run comes to

  /** What happens between two passes, and whether it goes well: a stream that is not whole throws, and so may a routine. */
  ghost function Happened(b: Books, x: Between): (Books, bool)
    requires Brings(x)
  {
    match x
    case Add(name, schedule, flags, data, targets) =>
      if !Validation.WholeArguments(StreamIn(data)[17..]) then (b, false)
      else
        var info := RoutineInfo(name, SplitText(targets, COMMA), schedule, (flags % 256) as bv8);
        (Books(Placed(b.known, info), b.streams[name := StreamIn(data)], b.history + [Written(name, info.flags)], b.lastID),
         true)
    case Delete(name) => (b.(known := Without(b.known, name), streams := b.streams - {name}), true)
    case Alter(name, change) => (Altered(b, name, change), true)
    case Connects(node) =>
      var p := Pass(b, Connected(node, b.streams));
      (p.books, p.n == |b.known|)
  }

  ghost function Altered(b: Books, name: Text, change: Change): Books {
    var at := IndexOf(b.known, name);
    if at == None then b
    else
      var info := Changed(b.known[at.value], change);
      b.(known := b.known[at.value := info],
         history := b.history + (if change.ChangeFlags? then [Written(name, info.flags)] else []))
  }

  /** The first k of the things that come before a pass; the first that throws is the last. */
  ghost function HappenedFirst(b: Books, xs: seq<Between>, k: nat): (Books, bool)
    requires k <= |xs| && AllBring(xs)
  {
    if k == 0 then (b, true)
    else
      var (c, went) := HappenedFirst(b, xs, k - 1);
      if went then Happened(c, xs[k - 1]) else (c, false)
  }

  /** A look at the routines. */
  ghost function Looked(b: Books, clock: int -> BrokenTime, second: nat, connected: set<Text>): (Books, bool) {
    var p := Pass(b, Scheduled(clock(second), second, b.streams, connected));
    (p.books, p.n == |b.known|)
  }

  /** Books, loop counter and clock behind some passes; a pass that throws is the last. */
  datatype World = World(books: Books, counter: nat, now: nat, passed: nat, ok: bool)

  ghost function AfterPass(w: World, clock: int -> BrokenTime, p: LoopPass): World
    requires AllBring(p.before)
  {
    var (b, went) := HappenedFirst(w.books, p.before, |p.before|);
    if !went then w.(books := b, ok := false)
    else if w.counter != PASSES then World(b, w.counter + 1, w.now + p.ms, w.passed + 1, true)
    else
      var (c, saw) := Looked(b, clock, Seconds(w.now), p.connected);
      if saw then World(c, 0, w.now + p.ms, w.passed + 1, true) else w.(books := c, ok := false)
  }

  ghost function After(b: Books, start: nat, clock: int -> BrokenTime, passes: seq<LoopPass>, i: nat): World
    requires i <= |passes| && EachBrings(passes)
  {
    if i == 0 then World(b, 0, start, 0, true)
    else
      var w := After(b, start, clock, passes, i - 1);
      if w.ok then AfterPass(w, clock, passes[i - 1]) else w
  }

  function Sleeps(passes: seq<LoopPass>): (ms: seq<nat>)
    ensures |ms| == |passes| && forall i :: 0 <= i < |passes| ==> ms[i] == passes[i].ms
  {
    seq(|passes|, i requires 0 <= i < |passes| => passes[i].ms)
  }

  /** The octets handed over hold the stream they say they hold. */
  predicate Brings(x: Between) {
    x.Add? ==> 17 <= |x.data| < UINT64_LIMIT && 17 + Streams.SizeField(x.data) <= |x.data|
  }

  predicate AllBring(xs: seq<Between>) { forall k :: 0 <= k < |xs| ==> Brings(xs[k]) }
  predicate EachBrings(passes: seq<LoopPass>) { forall k :: 0 <= k < |passes| ==> AllBring(passes[k].before) }

  /** A run that has been stopped stays as it is. */
  lemma {:induction false} Stopped(b: Books, start: nat, clock: int -> BrokenTime, passes: seq<LoopPass>, i: nat, j: nat)
    requires i <= j <= |passes| && EachBrings(passes) && !After(b, start, clock, passes, i).ok
    ensures After(b, start, clock, passes, j) == After(b, start, clock, passes, i)
    decreases j
  {
    if i == j {
    } else {
      Stopped(b, start, clock, passes, i, j - 1);
    }
  }

  lemma PassCounts(w: World, clock: int -> BrokenTime, p: LoopPass)
    requires AllBring(p.before)
    ensures var a := AfterPass(w, clock, p);
            if a.ok then
              && a.passed == w.passed + 1 && a.now == w.now + p.ms
              && a.counter == (if w.counter == PASSES then 0 else w.counter + 1)
            else a.passed == w.passed
  {
  }

  /** While all goes well, the counter and the clock are those of the pass. */
  lemma {:induction false} OnTime(b: Books, start: nat, clock: int -> BrokenTime, passes: seq<LoopPass>, i: nat)
    requires i <= |passes| && EachBrings(passes)
    ensures var w := After(b, start, clock, passes, i);
            && w.passed <= i && (w.ok <==> w.passed == i)
            && (w.ok ==> w.counter == i % 201 && w.now == Elapsed(start, Sleeps(passes), i))
  {
    if i == 0 {
    } else {
      OnTime(b, start, clock, passes, i - 1);
      PassCounts(After(b, start, clock, passes, i - 1), clock, passes[i - 1]);
      NextInTurn(i - 1);
    }
  }

  lemma NextInTurn(i: nat)
    ensures (i + 1) % 201 == if i % 201 == 200 then 0 else i % 201 + 1
    ensures i % 201 == 200 ==> i == CallPass(i / 201)
  {
  }

  lemma InTurn(j: nat)
    ensures CallPass(j) % 201 == 200
  {
  }

  // --------------------------------------------------------- what is activated

  predicate ByTimer(e: Event) { e.Fired? && e.cause.BySchedule? }

  /** Two activations of one routine by schedule. */
  predicate Again(e: Event, f: Event) { ByTimer(e) && ByTimer(f) && e.name == f.name }

  /** The second is that of a look at the routines in one of the first passes. */
  ghost predicate SecondOfLook(second: int, start: nat, ms: seq<nat>, i: nat) {
    exists j: nat :: CallPass(j) < i <= |ms| && second == Seconds(Elapsed(start, ms, CallPass(j)))
  }

  /**
   * From some place in the history on, every activation by schedule was made in the second of a look, and of two of the
   * same routine the later was made in a later second.
   */
  ghost predicate OncePerSecond(history: seq<Event>, from: nat, start: nat, ms: seq<nat>, i: nat) {
    && (forall g :: from <= g < |history| && ByTimer(history[g]) ==> SecondOfLook(history[g].cause.time, start, ms, i))
    && (forall g, h :: from <= g < h < |history| && Again(history[g], history[h]) ==>
                         history[g].cause.time < history[h].cause.time)
  }

  lemma LaterLook(second: int, start: nat, ms: seq<nat>, i: nat, later: nat)
    requires SecondOfLook(second, start, ms, i) && i <= later <= |ms|
    ensures SecondOfLook(second, start, ms, later)
  {
    var j: nat :| CallPass(j) < i <= |ms| && second == Seconds(Elapsed(start, ms, CallPass(j)));
    assert CallPass(j) < later;
  }

  /** A history has grown, and not by a look. */
  ghost predicate GrowsAside(before: seq<Event>, after: seq<Event>) {
    before <= after && forall g :: |before| <= g < |after| ==> !ByTimer(after[g])
  }

  /** What does not come of a look adds nothing to the account. */
  lemma NothingByTimer(before: seq<Event>, after: seq<Event>, from: nat, start: nat, ms: seq<nat>, i: nat)
    requires OncePerSecond(before, from, start, ms, i) && GrowsAside(before, after) && from <= |before|
    ensures OncePerSecond(after, from, start, ms, i)
  {
  }

  /** A look activates routines in its own second, each once, and that second is later than any before. */
  lemma OneLook(history: seq<Event>, fired: seq<Event>, from: nat, start: nat, ms: seq<nat>, j: nat)
    requires CallPass(j) < |ms| && forall k :: 0 <= k < |ms| ==> ms[k] >= SERVER_CORE_FREQUENCY_MS
    requires OncePerSecond(history, from, start, ms, CallPass(j)) && from <= |history|
    requires forall k :: 0 <= k < |fired| ==>
               fired[k].Fired? && fired[k].cause == BySchedule(Seconds(Elapsed(start, ms, CallPass(j))))
    requires forall a, b :: 0 <= a < b < |fired| ==> fired[a].name != fired[b].name
    ensures OncePerSecond(history + fired, from, start, ms, CallPass(j) + 1)
  {
    var all, second, i := history + fired, Seconds(Elapsed(start, ms, CallPass(j))), CallPass(j);
    assert forall g :: |history| <= g < |all| ==> all[g] == fired[g - |history|];
    assert CallPass(j) < i + 1 <= |ms|;
    forall g | from <= g < |history| && ByTimer(history[g])
      ensures SecondOfLook(history[g].cause.time, start, ms, i + 1) && history[g].cause.time < second
    {
      LaterLook(history[g].cause.time, start, ms, i, i + 1);
      EarlierLook(history[g].cause.time, start, ms, j);
    }
    forall g, h | |history| <= g < h < |all| ensures !Again(all[g], all[h]) {
      assert all[g].name != all[h].name;
    }
  }

  lemma EarlierLook(second: int, start: nat, ms: seq<nat>, j: nat)
    requires CallPass(j) < |ms| && forall k :: 0 <= k < |ms| ==> ms[k] >= SERVER_CORE_FREQUENCY_MS
    requires SecondOfLook(second, start, ms, CallPass(j))
    ensures second < Seconds(Elapsed(start, ms, CallPass(j)))
  {
    var k: nat :| CallPass(k) < CallPass(j) <= |ms| && second == Seconds(Elapsed(start, ms, CallPass(k)));
    SecondsIncrease(start, ms, k, j);
  }

  lemma {:induction false} Causes(b: Books, n: nat, o: Order)
    requires n <= |b.known|
    ensures forall k :: 0 <= k < |FiredFirst(b, n, o)| ==>
              FiredFirst(b, n, o)[k].Fired? && FiredFirst(b, n, o)[k].cause == o.cause
  {
    if n == 0 {
    } else {
      Causes(b, n - 1, o);
    }
  }

  /** What happens between two passes only adds to the history, and nothing that comes of a look. */
  lemma HappenedAside(b: Books, x: Between)
    requires Brings(x)
    ensures GrowsAside(b.history, Happened(b, x).0.history)
  {
    if x.Connects? {
      var o := Connected(x.node, b.streams);
      Causes(b, FirstStop(b.known, o.stops), o);
    }
  }

  lemma {:induction false} AllAside(b: Books, xs: seq<Between>, k: nat)
    requires k <= |xs| && AllBring(xs)
    ensures GrowsAside(b.history, HappenedFirst(b, xs, k).0.history)
  {
    if k == 0 {
    } else {
      AllAside(b, xs, k - 1);
      HappenedAside(HappenedFirst(b, xs, k - 1).0, xs[k - 1]);
    }
  }

  lemma LookedMore(b: Books, clock: int -> BrokenTime, second: nat, connected: set<Text>) returns (fired: seq<Event>)
    requires Unique(b.known)
    ensures Looked(b, clock, second, connected).0.history == b.history + fired
    ensures forall k :: 0 <= k < |fired| ==> fired[k].Fired? && fired[k].cause == BySchedule(second)
    ensures forall a, c :: 0 <= a < c < |fired| ==> fired[a].name != fired[c].name
  {
    var o := Scheduled(clock(second), second, b.streams, connected);
    var n := FirstStop(b.known, o.stops);
    fired := FiredFirst(b, n, o);
    Causes(b, n, o);
    FiredDistinct(b, n, o);
  }

  /** What a look adds to the history. */
  ghost function AddedBy(b: Books, clock: int -> BrokenTime, second: nat, connected: set<Text>): seq<Event> {
    var o := Scheduled(clock(second), second, b.streams, connected);
    FiredFirst(b, FirstStop(b.known, o.stops), o)
  }

  /**
   * A look activates exactly the routines that are due then, up to the first at which it fails, and each sends its
   * stream to its connected targets.
   */
  lemma LookFires(b: Books, clock: int -> BrokenTime, second: nat, connected: set<Text>, e: Event)
    requires Unique(b.known)
    ensures Looked(b, clock, second, connected).0.history == b.history + AddedBy(b, clock, second, connected)
    ensures var o := Scheduled(clock(second), second, b.streams, connected);
            e in AddedBy(b, clock, second, connected) <==>
            exists i :: 0 <= i < FirstStop(b.known, o.stops) && Due(b.known[i], clock(second)) && e == FiredBy(b, i, o)
  {
    var o := Scheduled(clock(second), second, b.streams, connected);
    var n := FirstStop(b.known, o.stops);
    FiredDistinct(b, n, o);
    FirstStopMeans(b.known, o.stops);
    if i :| 0 <= i < n && Due(b.known[i], clock(second)) && e == FiredBy(b, i, o) {
      assert !o.stops(b.known[i]);
      FiredAll(b, n, o, i);
    }
  }

  /** One pass keeps the account. */
  lemma PassOnce(w: World, clock: int -> BrokenTime, p: LoopPass, from: nat, start: nat, ms: seq<nat>, i: nat)
    requires AllBring(p.before) && Unique(HappenedFirst(w.books, p.before, |p.before|).0.known)
    requires from <= |w.books.history|
    requires i < |ms| && forall k :: 0 <= k < |ms| ==> ms[k] >= SERVER_CORE_FREQUENCY_MS
    requires w.counter == i % 201 && w.now == Elapsed(start, ms, i)
    requires OncePerSecond(w.books.history, from, start, ms, i)
    ensures OncePerSecond(AfterPass(w, clock, p).books.history, from, start, ms, i + 1)
    ensures w.books.history <= AfterPass(w, clock, p).books.history
  {
    AllAside(w.books, p.before, |p.before|);
    var (b, went) := HappenedFirst(w.books, p.before, |p.before|);
    NothingByTimer(w.books.history, b.history, from, start, ms, i);
    if went && w.counter == PASSES {
      NextInTurn(i);
      var fired := LookedMore(b, clock, Seconds(w.now), p.connected);
      OneLook(b.history, fired, from, start, ms, i / 201);
    } else {
      OneMorePass(b.history, from, start, ms, i);
    }
  }

  lemma OneMorePass(history: seq<Event>, from: nat, start: nat, ms: seq<nat>, i: nat)
    requires OncePerSecond(history, from, start, ms, i) && i < |ms|
    ensures OncePerSecond(history, from, start, ms, i + 1)
  {
    forall g | from <= g < |history| && ByTimer(history[g]) ensures SecondOfLook(history[g].cause.time, start, ms, i + 1) {
      LaterLook(history[g].cause.time, start, ms, i, i + 1);
    }
  }

  // ------------------------------------------------------------------ streams

  /** What comes with a request or a connection is of a size that can have come in a stream. */
  ghost predicate BringsFit(x: Between) {
    && Brings(x)
    && (x.Add? ==> Small(x.targets) && Small(x.data))
    && (x.Alter? && x.change.ChangeTargets? ==> Small(x.change.list))
    && (x.Connects? ==> Small(x.node))
  }

  ghost predicate AllBringFit(xs: seq<Between>) { AllBring(xs) && forall k :: 0 <= k < |xs| ==> BringsFit(xs[k]) }

  ghost predicate EachFits(passes: seq<LoopPass>) {
    EachBrings(passes)
    && forall k :: 0 <= k < |passes| ==> AllBringFit(passes[k].before) && passes[k].ms >= SERVER_CORE_FREQUENCY_MS
  }

  lemma SplitSmall(t: Text)
    requires Small(t)
    ensures AllSmall(SplitText(t, COMMA))
  {
    SplitShorter(t, COMMA);
  }

  lemma FitPass(b: Books, o: Order)
    requires AllStocked(b)
    ensures AllStocked(Pass(b, o).books)
  {
    var r := Pass(b, o).books;
    forall i | 0 <= i < |r.known| ensures Stocked(r.known[i], r.streams) {
      assert Stocked(b.known[i], b.streams);
    }
  }

  lemma FitPlaced(b: Books, info: RoutineInfo, stream: seq<byte>)
    requires AllStocked(b) && AllSmall(info.targets) && Loadable(stream)
    ensures AllStocked(b.(known := Placed(b.known, info), streams := b.streams[info.name := stream]))
  {
    var known, streams := Placed(b.known, info), b.streams[info.name := stream];
    forall i | 0 <= i < |known| ensures Stocked(known[i], streams) {
      assert known[i] == info || Stocked(b.known[i], b.streams);
    }
  }

  /** What a request stores can be loaded again. */
  lemma StoredLoadable(data: seq<byte>)
    requires 17 <= |data| && 17 + Streams.SizeField(data) <= |data| && Small(data)
    requires Validation.WholeArguments(StreamIn(data)[17..])
    ensures Loadable(StreamIn(data))
  {
    StreamInData(data);
    Validation.WholeArgumentsParse(StreamIn(data)[17..]);
  }

  lemma FitAdded(b: Books, x: Between)
    requires AllStocked(b) && BringsFit(x) && x.Add?
    ensures AllStocked(Happened(b, x).0)
  {
    SplitSmall(x.targets);
    if Validation.WholeArguments(StreamIn(x.data)[17..]) {
      StoredLoadable(x.data);
      FitPlaced(b, RoutineInfo(x.name, SplitText(x.targets, COMMA), x.schedule, (x.flags % 256) as bv8), StreamIn(x.data));
    }
  }

  lemma FitAltered(b: Books, x: Between)
    requires AllStocked(b) && BringsFit(x) && x.Alter?
    ensures AllStocked(Altered(b, x.name, x.change))
  {
    if x.change.ChangeTargets? {
      SplitSmall(x.change.list);
    }
  }

  lemma FitHappened(b: Books, x: Between)
    requires AllStocked(b) && BringsFit(x) && Unique(b.known)
    ensures AllStocked(Happened(b, x).0)
  {
    match x
    case Add(_, _, _, _, _) => FitAdded(b, x);
    case Delete(_) => FitLess(b, x.name);
    case Alter(_, _) => FitAltered(b, x);
    case Connects(node) => FitPass(b, Connected(node, b.streams));
  }

  lemma FitLess(b: Books, name: Text)
    requires AllStocked(b) && Unique(b.known)
    ensures AllStocked(b.(known := Without(b.known, name), streams := b.streams - {name}))
  {
    var at, rest := IndexOf(b.known, name), Without(b.known, name);
    if at.Some? {
      forall i | 0 <= i < |rest| ensures rest[i].name != name && rest[i] in b.known {
        assert rest[i] == b.known[if i < at.value then i else i + 1];
      }
    }
  }

  // -------------------------------------------------------------------- runs

  method Happen(table: RoutineTable, x: Between) returns (ok: bool)
    requires table.Valid() && AllStocked(table.AsBooks()) && BringsFit(x)
    modifies table
    ensures table.Valid() && (table.AsBooks(), ok) == Happened(old(table.AsBooks()), x)
  {
    ok := true;
    match x
    case Add(_, _, _, _, _) => ok := AddOne(table, x);
    case Delete(name) => DeleteOne(table, name);
    case Alter(name, change) => AlterOne(table, name, change);
    case Connects(node) =>
      var n, sent;
      ok, n, sent := ProcessOnConnectRoutines(table, node);
  }

  lemma StreamsWith(rows: map<Text, RoutineRow>, name: Text, row: RoutineRow)
    ensures StreamsOf(rows[name := row]) == StreamsOf(rows)[name := row.stream]
  {
  }

  lemma StreamsLess(rows: map<Text, RoutineRow>, name: Text)
    ensures StreamsOf(rows - {name}) == StreamsOf(rows) - {name}
  {
  }

  /** What adding a routine does to list, table and history is what it does to the books. */
  lemma AddedBooks(b: Books, rows: map<Text, RoutineRow>, x: Between)
    requires x.Add? && Brings(x) && Validation.WholeArguments(StreamIn(x.data)[17..]) && b.streams == StreamsOf(rows)
    ensures var e := RoutineDBEntry(RoutineInfo(x.name, SplitText(x.targets, COMMA), x.schedule, (x.flags % 256) as bv8),
                                    StreamIn(x.data));
            Happened(b, x) == (Books(Placed(b.known, e.info), StreamsOf(rows[x.name := Stored(e)]),
                                     b.history + [Written(x.name, (x.flags % 256) as bv8)], b.lastID), true)
  {
    var info := RoutineInfo(x.name, SplitText(x.targets, COMMA), x.schedule, (x.flags % 256) as bv8);
    StreamsWith(rows, x.name, Stored(RoutineDBEntry(info, StreamIn(x.data))));
  }

  method AddOne(table: RoutineTable, x: Between) returns (ok: bool)
    requires table.Valid() && x.Add? && Brings(x)
    modifies table
    ensures table.Valid() && (table.AsBooks(), ok) == Happened(old(table.AsBooks()), x)
  {
    if Validation.WholeArguments(StreamIn(x.data)[17..]) {
      AddedBooks(table.AsBooks(), table.disk, x);
    }
    ok := table.HandleAdd(x.name, x.schedule, x.flags, x.data, x.targets);
  }

  method DeleteOne(table: RoutineTable, name: Text)
    requires table.Valid()
    modifies table
    ensures table.Valid() && table.AsBooks() == Happened(old(table.AsBooks()), Delete(name)).0
  {
    StreamsLess(table.disk, name);
    var _ := table.HandleDelete(name);
  }

  /** Changing a routine that the table has changes it in the list, and its stream stays. */
  lemma AlteredAsStored(known: seq<RoutineInfo>, rows: map<Text, RoutineRow>, name: Text, change: Change)
    requires Coherent(known, rows)
    ensures name in rows <==> IndexOf(known, name).Some?
    ensures name in rows ==>
              var at := IndexOf(known, name).value;
              var e := RoutineDBEntry(Changed(Loaded(name, rows[name]), change), rows[name].stream);
              && Changed(known[at], change) == e.info && Placed(known, e.info) == known[at := e.info]
              && StreamsOf(rows[name := Stored(e)]) == StreamsOf(rows)
  {
    WithoutCoherent(known, rows, name);
    if name in rows {
      KnownAsStored(known, rows, IndexOf(known, name).value);
    }
  }

  lemma AlteredBooks(b: Books, rows: map<Text, RoutineRow>, name: Text, change: Change)
    requires Coherent(b.known, rows) && b.streams == StreamsOf(rows)
    ensures name !in rows ==> Altered(b, name, change) == b
    ensures name in rows ==>
              var e := RoutineDBEntry(Changed(Loaded(name, rows[name]), change), rows[name].stream);
              Altered(b, name, change) ==
              Books(Placed(b.known, e.info), StreamsOf(rows[name := Stored(e)]),
                    b.history + (if change.ChangeFlags? then [Written(name, e.info.flags)] else []), b.lastID)
  {
    AlteredAsStored(b.known, rows, name, change);
  }

  method AlterOne(table: RoutineTable, name: Text, change: Change)
    requires table.Valid()
    modifies table
    ensures table.Valid() && table.AsBooks() == Altered(old(table.AsBooks()), name, change)
  {
    AlteredBooks(table.AsBooks(), table.disk, name, change);
    var worked := table.HandleChange(name, change);
  }

  /** What comes before a pass, in order, up to the first that throws. */
  method HappenAll(table: RoutineTable, xs: seq<Between>) returns (ok: bool)
    requires table.Valid() && AllStocked(table.AsBooks()) && AllBringFit(xs)
    modifies table
    ensures table.Valid() && AllStocked(table.AsBooks())
    ensures (table.AsBooks(), ok) == HappenedFirst(old(table.AsBooks()), xs, |xs|)
  {
    ok := true;
    for k := 0 to |xs|
      invariant table.Valid() && AllStocked(table.AsBooks()) && ok
      invariant (table.AsBooks(), true) == HappenedFirst(old(table.AsBooks()), xs, k)
    {
      FitHappened(table.AsBooks(), xs[k]);
      ok := Happen(table, xs[k]);
      if !ok {
        StoppedBefore(old(table.AsBooks()), xs, k + 1, |xs|);
        return;
      }
    }
  }

  lemma {:induction false} StoppedBefore(b: Books, xs: seq<Between>, k: nat, m: nat)
    requires k <= m <= |xs| && AllBring(xs) && !HappenedFirst(b, xs, k).1
    ensures HappenedFirst(b, xs, m) == HappenedFirst(b, xs, k)
    decreases m
  {
    if k == m {
    } else {
      StoppedBefore(b, xs, k, m - 1);
    }
  }

  /** What the cache will answer for a second not looked at before. */
  ghost function ClockOf(cache: TimeCache): int -> BrokenTime
    reads cache
  {
    var zero, localtime := cache.Seen(0), cache.localtime;
    (second: int) => if second == 0 then zero else localtime(second)
  }

  /** A look at the routines at a second later than any before. */
  method Look(table: RoutineTable, cache: TimeCache, second: nat, connected: set<Text>, ghost clock: int -> BrokenTime)
    returns (ok: bool)
    requires table.Valid() && cache.Valid() && AllStocked(table.AsBooks()) && cache.Seen(second) == clock(second)
    modifies table, cache
    ensures table.Valid() && cache.Valid() && AllStocked(table.AsBooks())
    ensures (table.AsBooks(), ok) == Looked(old(table.AsBooks()), clock, second, connected)
  {
    FitPass(table.AsBooks(), Scheduled(clock(second), second, table.AsBooks().streams, connected));
    var n, sent;
    ok, n, sent := ProcessScheduledRoutines(table, cache, second, connected);
  }

  ghost predicate InStep(w: World, b: Books, counter: nat, now: nat, i: nat) {
    w.ok && w.books == b && w.counter == counter && w.now == now && w.passed == i
  }

  ghost predicate Outcome(w: World, b: Books, counter: nat, ok: bool) {
    w.ok == ok && w.books == b && (ok ==> w.counter == counter)
  }

  /** One pass of the core loop. */
  method TakePass(table: RoutineTable, cache: TimeCache, core: Core, now: nat, p: LoopPass, ghost clock: int -> BrokenTime,
                  ghost w: World)
    returns (ok: bool)
    requires table.Valid() && cache.Valid() && core.iterCounter <= PASSES
    requires AllStocked(table.AsBooks()) && AllBringFit(p.before)
    requires InStep(w, table.AsBooks(), core.iterCounter, now, w.passed)
    requires core.iterCounter == PASSES ==> cache.Seen(Seconds(now)) == clock(Seconds(now))
    modifies table, cache, core
    ensures table.Valid() && cache.Valid() && core.iterCounter <= PASSES && AllStocked(table.AsBooks())
    ensures Outcome(AfterPass(w, clock, p), table.AsBooks(), core.iterCounter, ok)
    ensures old(core.iterCounter) != PASSES ==> unchanged(cache)
    ensures ok ==> core.iterCounter == if old(core.iterCounter) == PASSES then 0 else old(core.iterCounter) + 1
  {
    ok := HappenAll(table, p.before);
    if !ok {
      return;
    }
    var due := core.Tick();
    if due {
      ok := Look(table, cache, Seconds(now), p.connected, clock);
    }
  }

  /**
   * A cache whose second zero is still to come answers as at the start; any other second is broken down afresh. The
   * clock and the counter go on.
   */
  lemma AsClock(cache: TimeCache, clock: int -> BrokenTime, start: nat, ms: seq<nat>, i: nat, counter: nat, now: nat)
    requires cache.Valid() && i < |ms| && forall k :: 0 <= k < |ms| ==> ms[k] >= SERVER_CORE_FREQUENCY_MS
    requires forall second :: second != 0 ==> clock(second) == cache.localtime(second)
    requires i <= 200 ==> cache.Seen(0) == clock(0)
    requires counter == i % 201 && now == Elapsed(start, ms, i)
    ensures counter == PASSES ==> cache.Seen(Seconds(now)) == clock(Seconds(now))
    ensures (i + 1) % 201 == (if counter == PASSES then 0 else counter + 1) && Elapsed(start, ms, i + 1) == now + ms[i]
    ensures i + 1 <= 200 ==> counter != PASSES
  {
    NextInTurn(i);
    if counter == PASSES && i > 200 {
      SecondsIncrease(start, ms, 0, i / 201);
    }
    if Seconds(now) != 0 {
      cache.SeenRight(Seconds(now));
    }
  }

  /** A name stands in the list at most once, whatever happens. */
  lemma UniqueHappened(b: Books, x: Between)
    requires Unique(b.known) && Brings(x)
    ensures Unique(Happened(b, x).0.known)
  {
    match x
    case Add(name, schedule, flags, _, targets) =>
      UniquePlaced(b.known, RoutineInfo(name, SplitText(targets, COMMA), schedule, (flags % 256) as bv8));
    case Delete(name) => UniqueLess(b.known, name);
    case Alter(name, change) => UniqueAltered(b, name, change);
    case Connects(node) => UniqueRan(b, Connected(node, b.streams));
  }

  lemma UniquePlaced(known: seq<RoutineInfo>, info: RoutineInfo)
    requires Unique(known)
    ensures Unique(Placed(known, info))
  {
  }

  lemma UniqueAltered(b: Books, name: Text, change: Change)
    requires Unique(b.known)
    ensures Unique(Altered(b, name, change).known)
  {
  }

  lemma UniqueRan(b: Books, o: Order)
    requires Unique(b.known)
    ensures Unique(Pass(b, o).books.known)
  {
  }

  lemma UniqueLess(known: seq<RoutineInfo>, name: Text)
    requires Unique(known)
    ensures Unique(Without(known, name))
  {
    var at, rest := IndexOf(known, name), Without(known, name);
    if at.Some? {
      forall i, j | 0 <= i < j < |rest| ensures rest[i].name != rest[j].name {
        assert rest[i] == known[if i < at.value then i else i + 1] && rest[j] == known[if j < at.value then j else j + 1];
      }
    }
  }

  lemma {:induction false} UniqueAll(b: Books, xs: seq<Between>, k: nat)
    requires Unique(b.known) && k <= |xs| && AllBring(xs)
    ensures Unique(HappenedFirst(b, xs, k).0.known)
  {
    if k == 0 {
    } else {
      UniqueAll(b, xs, k - 1);
      UniqueHappened(HappenedFirst(b, xs, k - 1).0, xs[k - 1]);
    }
  }

  lemma UniquePass(w: World, clock: int -> BrokenTime, p: LoopPass)
    requires Unique(w.books.known) && AllBring(p.before)
    ensures Unique(HappenedFirst(w.books, p.before, |p.before|).0.known) && Unique(AfterPass(w, clock, p).books.known)
  {
    UniqueAll(w.books, p.before, |p.before|);
    var b := HappenedFirst(w.books, p.before, |p.before|).0;
    UniqueRan(b, Scheduled(clock(Seconds(w.now)), Seconds(w.now), b.streams, p.connected));
  }

  /**
   * In a run from any books, every activation by schedule was made in the second of a look, and no two of the same
   * routine in the same second.
   */
  lemma {:induction false} RunOnce(b: Books, start: nat, clock: int -> BrokenTime, passes: seq<LoopPass>, i: nat)
    requires EachBrings(passes) && forall k :: 0 <= k < |passes| ==> passes[k].ms >= SERVER_CORE_FREQUENCY_MS
    requires Unique(b.known) && i <= |passes|
    ensures var books := After(b, start, clock, passes, i).books;
            && Unique(books.known) && b.history <= books.history
            && OncePerSecond(books.history, |b.history|, start, Sleeps(passes), i)
  {
    if i == 0 {
    } else {
      RunOnce(b, start, clock, passes, i - 1);
      OnTime(b, start, clock, passes, i - 1);
      var w, ms := After(b, start, clock, passes, i - 1), Sleeps(passes);
      UniquePass(w, clock, passes[i - 1]);
      if w.ok {
        PassOnce(w, clock, passes[i - 1], |b.history|, start, ms, i - 1);
      } else {
        OneMorePass(w.books.history, |b.history|, start, ms, i - 1);
      }
    }
  }

  lemma AtLook(w: World, clock: int -> BrokenTime, p: LoopPass)
    requires AllBring(p.before) && w.counter == PASSES && HappenedFirst(w.books, p.before, |p.before|).1
    ensures AfterPass(w, clock, p).books ==
            Looked(HappenedFirst(w.books, p.before, |p.before|).0, clock, Seconds(w.now), p.connected).0
  {
  }

  /**
   * The j-th look of a run that gets as far: it is made in the 201st pass of its turn, in the second to which the
   * sleeps have brought the clock, and activates exactly the routines that are due then, up to the first that throws.
   */
  lemma LookInRun(b: Books, start: nat, clock: int -> BrokenTime, passes: seq<LoopPass>, j: nat, e: Event)
    requires EachBrings(passes) && forall k :: 0 <= k < |passes| ==> passes[k].ms >= SERVER_CORE_FREQUENCY_MS
    requires Unique(b.known) && CallPass(j) < |passes| && After(b, start, clock, passes, CallPass(j)).ok
    requires var p := passes[CallPass(j)].before;
             HappenedFirst(After(b, start, clock, passes, CallPass(j)).books, p, |p|).1
    ensures var p, second := passes[CallPass(j)], Seconds(Elapsed(start, Sleeps(passes), CallPass(j)));
            var c := HappenedFirst(After(b, start, clock, passes, CallPass(j)).books, p.before, |p.before|).0;
            var o := Scheduled(clock(second), second, c.streams, p.connected);
            var added := AddedBy(c, clock, second, p.connected);
            && After(b, start, clock, passes, CallPass(j) + 1).books.history == c.history + added
            && (e in added <==>
                exists i :: 0 <= i < FirstStop(c.known, o.stops) && Due(c.known[i], clock(second)) && e == FiredBy(c, i, o))
  {
    OnTime(b, start, clock, passes, CallPass(j));
    InTurn(j);
    RunOnce(b, start, clock, passes, CallPass(j));
    var p, second := passes[CallPass(j)], Seconds(Elapsed(start, Sleeps(passes), CallPass(j)));
    var c := HappenedFirst(After(b, start, clock, passes, CallPass(j)).books, p.before, |p.before|).0;
    UniquePass(After(b, start, clock, passes, CallPass(j)), clock, p);
    AtLook(After(b, start, clock, passes, CallPass(j)), clock, p);
    LookFires(c, clock, second, p.connected, e);
  }

  lemma StoppedAt(b: Books, start: nat, clock: int -> BrokenTime, passes: seq<LoopPass>, i: nat)
    requires EachFits(passes) && Unique(b.known) && i < |passes|
    requires After(b, start, clock, passes, i).ok && !After(b, start, clock, passes, i + 1).ok
    ensures After(b, start, clock, passes, |passes|) == After(b, start, clock, passes, i + 1)
    ensures var w := After(b, start, clock, passes, i + 1);
            && w.passed == i && b.history <= w.books.history
            && OncePerSecond(w.books.history, |b.history|, start, Sleeps(passes), i + 1)
  {
    Stopped(b, start, clock, passes, i + 1, |passes|);
    RunOnce(b, start, clock, passes, i + 1);
    OnTime(b, start, clock, passes, i);
  }

  lemma NextIs(b: Books, start: nat, clock: int -> BrokenTime, passes: seq<LoopPass>, i: nat, books: Books, counter: nat,
               ok: bool)
    requires EachBrings(passes) && i < |passes| && After(b, start, clock, passes, i).ok
    requires Outcome(AfterPass(After(b, start, clock, passes, i), clock, passes[i]), books, counter, ok)
    ensures var w, a := After(b, start, clock, passes, i), After(b, start, clock, passes, i + 1);
            Outcome(a, books, counter, ok) && (ok ==> a.now == w.now + passes[i].ms && a.passed == w.passed + 1)
  {
  }

  /** The next pass of a run. */
  method NextPass(table: RoutineTable, cache: TimeCache, core: Core, now: nat, passes: seq<LoopPass>, i: nat, ghost b: Books,
                  ghost start: nat, ghost clock: int -> BrokenTime)
    returns (ok: bool)
    requires table.Valid() && cache.Valid() && core.iterCounter <= PASSES && AllStocked(table.AsBooks())
    requires EachFits(passes) && i < |passes|
    requires InStep(After(b, start, clock, passes, i), table.AsBooks(), core.iterCounter, now, i)
    requires core.iterCounter == PASSES ==> cache.Seen(Seconds(now)) == clock(Seconds(now))
    modifies table, cache, core
    ensures table.Valid() && cache.Valid() && core.iterCounter <= PASSES && AllStocked(table.AsBooks())
    ensures var a := After(b, start, clock, passes, i + 1);
            Outcome(a, table.AsBooks(), core.iterCounter, ok) && (ok ==> a.now == now + passes[i].ms && a.passed == i + 1)
    ensures old(core.iterCounter) != PASSES ==> unchanged(cache)
    ensures ok ==> core.iterCounter == if old(core.iterCounter) == PASSES then 0 else old(core.iterCounter) + 1
  {
    ok := TakePass(table, cache, core, now, passes[i], clock, After(b, start, clock, passes, i));
    NextIs(b, start, clock, passes, i, table.AsBooks(), core.iterCounter, ok);
  }

  ghost predicate RunsTo(w: World, b: Books, i: nat) { w.ok && w.books == b && w.passed == i }

  /** Where the loop stands in front of a pass. */
  ghost predicate Standing(table: RoutineTable, cache: TimeCache, core: Core, now: nat, w: World, start: nat, ms: seq<nat>,
                           clock: int -> BrokenTime, i: nat)
    requires i <= |ms|
    reads table, cache, core
  {
    && table.Valid() && cache.Valid() && AllStocked(table.AsBooks())
    && RunsTo(w, table.AsBooks(), i) && w.counter == core.iterCounter && w.now == now
    && core.iterCounter == i % 201 && now == Elapsed(start, ms, i) && (i <= 200 ==> cache.Seen(0) == clock(0))
  }

  /** The states of a run by their number; the passes are taken without going into what they come to. */
  ghost predicate Along(states: nat -> World, b: Books, start: nat, clock: int -> BrokenTime, passes: seq<LoopPass>) {
    EachBrings(passes)
    && forall i: nat {:trigger After(b, start, clock, passes, i)} :: i <= |passes| ==>
         states(i) == After(b, start, clock, passes, i)
  }

  method Step(table: RoutineTable, cache: TimeCache, core: Core, now: nat, passes: seq<LoopPass>, i: nat, ghost b: Books,
              ghost start: nat, ghost clock: int -> BrokenTime, ghost states: nat -> World)
    returns (ok: bool, next: nat)
    requires EachFits(passes) && i < |passes| && Along(states, b, start, clock, passes)
    requires forall second :: second != 0 ==> clock(second) == cache.localtime(second)
    requires Standing(table, cache, core, now, states(i), start, Sleeps(passes), clock, i)
    modifies table, cache, core
    ensures table.Valid() && AllStocked(table.AsBooks()) && states(i + 1).ok == ok && states(i + 1).books == table.AsBooks()
    ensures ok ==> Standing(table, cache, core, next, states(i + 1), start, Sleeps(passes), clock, i + 1)
  {
    assert states(i) == After(b, start, clock, passes, i) && states(i + 1) == After(b, start, clock, passes, i + 1);
    AsClock(cache, clock, start, Sleeps(passes), i, core.iterCounter, now);
    ok := NextPass(table, cache, core, now, passes, i, b, start, clock);
    next := now + passes[i].ms;
  }

  /** The loop, pass after pass; a pass that throws ends it. */
  method TakePasses(table: RoutineTable, cache: TimeCache, start: nat, passes: seq<LoopPass>, ghost b: Books,
                    ghost clock: int -> BrokenTime, ghost states: nat -> World)
    returns (ok: bool, got: nat)
    requires table.Valid() && cache.Valid() && AllStocked(table.AsBooks()) && EachFits(passes)
    requires cache.Seen(0) == clock(0) && forall second :: second != 0 ==> clock(second) == cache.localtime(second)
    requires Along(states, b, start, clock, passes) && states(0) == World(table.AsBooks(), 0, start, 0, true)
    modifies table, cache
    ensures table.Valid() && AllStocked(table.AsBooks())
    ensures got <= |passes| && ok == (got == |passes|) && states(got).ok
    ensures if ok then RunsTo(states(got), table.AsBooks(), got)
            else !states(got + 1).ok && states(got + 1).books == table.AsBooks()
  {
    var core := new Core();
    var now: nat := start;
    ok, got := true, 0;
    while got < |passes|
      invariant fresh(core) && got <= |passes|
      invariant Standing(table, cache, core, now, states(got), start, Sleeps(passes), clock, got)
    {
      ok, now := Step(table, cache, core, now, passes, got, b, start, clock, states);
      if !ok {
        return;
      }
      got := got + 1;
    }
  }

  /**
   * Any number of passes of the core loop, up to the first that throws. The books are what the passes make of them,
   * and of the activations by schedule in the run each was made in the second of a look, and no two of the same
   * routine in the same second.
   */
  method Run(table: RoutineTable, cache: TimeCache, start: nat, passes: seq<LoopPass>) returns (ok: bool, got: nat)
    requires table.Valid() && cache.Valid() && AllStocked(table.AsBooks()) && EachFits(passes)
    modifies table, cache
    ensures table.Valid() && AllStocked(table.AsBooks()) && got <= |passes| && ok == (got == |passes|)
    ensures var w := After(old(table.AsBooks()), start, old(ClockOf(cache)), passes, |passes|);
            table.AsBooks() == w.books && ok == w.ok && got == w.passed
    ensures old(table.history) <= table.history
    ensures OncePerSecond(table.history, |old(table.history)|, start, Sleeps(passes), if ok then got else got + 1)
  {
    ghost var b, clock := table.AsBooks(), ClockOf(cache);
    ghost var states :=
      (i: nat) => if i <= |passes| then After(b, start, clock, passes, i) else After(b, start, clock, passes, 0);
    ok, got := TakePasses(table, cache, start, passes, b, clock, states);
    if ok {
      RunOnce(b, start, clock, passes, got);
    } else {
      StoppedAt(b, start, clock, passes, got);
    }
  }
}
