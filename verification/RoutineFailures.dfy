/** What the server accepts as a routine, and exactly when its activation fails. */
module RoutineFailures {
  import opened Bytes
  import opened Arguments
  import opened TextTools
  import opened Schedule
  import opened RoutineStreams
  import opened Routines
  import opened RoutinePasses
  import Splitting
  import Streams
  import StreamRuns
  import Validation

  const NAME: Text := [114]
  const NODE: Text := [110]

  /** Octets that hold one stream of some arguments. */
  function StreamOf(rs: seq<RawArg>): seq<byte> {
    Streams.HeaderBytes(Streams.Header(0, |Joined(rs)| % UINT64_LIMIT, 0, 0)) + Joined(rs)
  }

  lemma StreamOfSize(rs: seq<RawArg>)
    requires Small(Joined(rs))
    ensures var s := StreamOf(rs);
            && |s| == 17 + |Joined(rs)| && 17 + Streams.SizeField(s) == |s| && s[17..] == Joined(rs) && StreamIn(s) == s
  {
    var h, s := Streams.Header(0, |Joined(rs)| % UINT64_LIMIT, 0, 0), StreamOf(rs);
    SmallWord(|Joined(rs)|);
    Streams.HeaderRoundTrip(h, Joined(rs));
    assert |Streams.HeaderBytes(h)| == 17 && s[..|s|] == s;
  }

  lemma StreamOfStored(rs: seq<RawArg>)
    requires Sized(rs) && Small(Joined(rs))
    ensures var s := StreamOf(rs);
            && Loadable(s) && ArgsOf(s) == rs && StreamIn(s) == s && 17 + Streams.SizeField(s) == |s|
            && Validation.WholeArguments(s[17..])
  {
    StreamOfSize(rs);
    ParseJoined(rs);
    Validation.WholeArgumentsParse(Joined(rs));
  }

  lemma OneTarget()
    ensures SplitText(NODE, COMMA) == [NODE]
  {
    Splitting.SplitJoin([NODE], COMMA);
    assert Splitting.Join([NODE], COMMA) == NODE;
  }

  /** The books of a table with nothing but this routine. */
  ghost predicate Holds(b: Books, schedule: Text, flags: bv8, rs: seq<RawArg>) {
    && b.known == [RoutineInfo(NAME, [NODE], schedule, flags)]
    && NAME in b.streams && Loadable(b.streams[NAME]) && ArgsOf(b.streams[NAME]) == rs
  }

  /** The table of a server that has been asked to add one routine. */
  method AddToEmpty(schedule: Text, flags: uint32, rs: seq<RawArg>) returns (table: RoutineTable, added: bool)
    requires Sized(rs) && Small(Joined(rs)) && flags < 256
    ensures fresh(table) && table.Valid() && added
    ensures Holds(table.AsBooks(), schedule, flags as bv8, rs) && AllStocked(table.AsBooks())
  {
    StreamOfStored(rs);
    OneTarget();
    table := new RoutineTable();
    added := table.HandleAdd(NAME, schedule, flags, StreamOf(rs), NODE);
  }

  /** Seven stars. */
  const ALWAYS: seq<Field> := seq(7, _ => Any)

  lemma AlwaysAccepts(t: BrokenTime)
    ensures PrintSchedule(ALWAYS) != [] && Verdict(SplitText(PrintSchedule(ALWAYS), SPACE), t, 0) == Some(true)
  {
    PrintedSchedule(ALWAYS, t);
    JoinNotEmpty(PrintFields(ALWAYS), SPACE);
  }

  /** A list of one routine, at which a pass fails, or which it runs or passes over. */
  lemma OnePass(b: Books, o: Order)
    requires |b.known| == 1
    ensures o.stops(b.known[0]) ==> Pass(b, o).n == 0 && Pass(b, o).sent == []
    ensures !o.stops(b.known[0]) && o.pick(b.known[0]) ==> Pass(b, o).n == 1 && Pass(b, o).sent == FiredBy(b, 0, o).sent
  {
    if o.stops(b.known[0]) {
    } else {
      FirstStopIs(b.known, o.stops, 1);
      assert SentFirst(b, 0, o) == [];
    }
  }

  /** The arguments can be sent behind a header of the target's own. */
  predicate CanBeSent(rs: seq<RawArg>) { !TooShort(rs) && Parse(Copied(rs)).Some? }

  lemma ConnectedPass(b: Books, rs: seq<RawArg>)
    requires Holds(b, [], ONCONNECT, rs)
    ensures var p := Pass(b, Connected(NODE, b.streams));
            if CanBeSent(rs) then p.n == 1 && |p.sent| == 1 && p.sent[0].target == NODE else p.n == 0 && p.sent == []
  {
    var o, info := Connected(NODE, b.streams), b.known[0];
    assert Among([NODE], {NODE}) == [NODE] by {
      assert [NODE][1..] == [];
    }
    assert o.pick(info) && (o.stops(info) <==> !CanBeSent(rs));
    OnePass(b, o);
  }

  /**
   * Any routine that is to run on connection and names the node is accepted. When the node connects it is sent, or the
   * pass fails: exactly when its arguments begin with an origin/destination header, something is behind it, and the
   * last 17 octets of that are not whole arguments.
   */
  method AddThenConnect(rs: seq<RawArg>) returns (added: bool, ok: bool, n: nat, sent: seq<Sending>)
    requires Sized(rs) && Small(Joined(rs))
    ensures added && (ok <==> !StartsWithODHeader(rs) || |rs| == 1 || EndsInLeftOff(rs[1..]))
    ensures if ok then n == 1 && |sent| == 1 && sent[0].target == NODE else n == 0 && sent == []
  {
    SendableExactly(rs);
    var table;
    table, added := AddToEmpty([], 2, rs);
    ConnectedPass(table.AsBooks(), rs);
    ok, n, sent := ProcessOnConnectRoutines(table, NODE);
  }

  lemma ScheduledPass(b: Books, rs: seq<RawArg>, t: BrokenTime, time: int, connected: set<Text>)
    requires Holds(b, PrintSchedule(ALWAYS), 0, rs)
    ensures var p := Pass(b, Scheduled(t, time, b.streams, connected));
            p.n == if rs != [] && (NODE !in connected || CanBeSent(rs)) then 1 else 0
  {
    var o, info := Scheduled(t, time, b.streams, connected), b.known[0];
    AlwaysAccepts(t);
    assert Among([NODE], connected) == (if NODE in connected then [NODE] else []) by {
      assert [NODE][1..] == [];
    }
    assert Due(info, t) && !FallsShort(info, t);
    assert o.stops(info) <==> rs == [] || (NODE in connected && !CanBeSent(rs));
    OnePass(b, o);
  }

  /**
   * Any routine with a schedule that always accepts is accepted itself. When its schedule is looked at the pass fails
   * exactly when it has no arguments, or its target is connected and it cannot be sent.
   */
  method AddThenLook(rs: seq<RawArg>, cache: TimeCache, time: int, connected: set<Text>)
    returns (added: bool, ok: bool, n: nat, sent: seq<Sending>)
    requires Sized(rs) && Small(Joined(rs)) && cache.Valid()
    modifies cache
    ensures added && (ok <==> rs != [] && (NODE !in connected || CanBeSent(rs)))
  {
    var table;
    table, added := AddToEmpty(PrintSchedule(ALWAYS), 0, rs);
    ScheduledPass(table.AsBooks(), rs, cache.Seen(time), time, connected);
    ok, n, sent := ProcessScheduledRoutines(table, cache, time, connected);
  }

  /** An empty pair of names and a truth value. */
  const SHORT: seq<RawArg> := [RawArg(ARGTYPE_ODHEADER, [0, 0]), RawArg(ARGTYPE_BOOL, [1])]

  lemma ShortIsShort()
    ensures Sized(SHORT) && |Joined(SHORT)| == 23 && |Behind(SHORT)| == 11 && TooShort(SHORT)
  {
    assert SHORT[1..] == [SHORT[1]];
    JoinedOne(SHORT[1]);
  }

  /** Eleven octets behind the header: the routine is accepted, and the connection of its target ends the pass. */
  method TooShortFails() returns (added: bool, ok: bool)
    ensures Sized(SHORT) && |Behind(SHORT)| == 11 && added && !ok
  {
    ShortIsShort();
    SendableExactly(SHORT);
    var n, sent;
    added, ok, n, sent := AddThenConnect(SHORT);
  }

  /** No arguments: the routine is accepted, and a look at its schedule ends the pass though nobody is connected. */
  method BareFails(cache: TimeCache, time: int) returns (added: bool, ok: bool)
    requires cache.Valid()
    modifies cache
    ensures added && !ok
  {
    var n, sent;
    added, ok, n, sent := AddThenLook([], cache, time, {});
  }
}
