/** Which routines may be activated, told by the flags the administrator last wrote, over whole runs. */
module RoutineHistories {
  import opened Bytes
  import opened Arguments
  import opened TextTools
  import opened Schedule
  import opened RoutineStreams
  import opened Routines
  import opened RoutinePasses
  import opened ScheduledRuns
  import Validation
  import opened Pacing

  /** A routine's flags are those last written, but that it may have been switched off since. */
  ghost predicate FlagsTell(b: Books) {
    forall i :: 0 <= i < |b.known| ==> FlagsAs(b.known[i].flags, LastWritten(b.history, b.known[i].name))
  }

  predicate FlagsAs(flags: bv8, written: bv8) { flags == written || flags == written | 4 }

  lemma FlagsRan(info: RoutineInfo, written: bv8)
    requires FlagsAs(info.flags, written)
    ensures FlagsAs(RanInfo(info).flags, written)
    ensures !Off(info.flags) ==> info.flags == written && written & 4 == 0
  {
  }

  /** An activation of a routine that was last written to be on, and by a connection only if it was to run on connection. */
  ghost predicate Rightly(history: seq<Event>, g: int)
    requires 0 <= g < |history|
  {
    history[g].Fired? ==>
      var written := LastWritten(history[..g], history[g].name);
      written & 4 == 0 && (history[g].cause.ByConnection? ==> written & 2 != 0)
  }

  ghost predicate AllRightly(history: seq<Event>, from: int) {
    forall g :: 0 <= from <= g < |history| ==> Rightly(history, g)
  }

  lemma RightlyMore(history: seq<Event>, e: Event, from: nat)
    requires AllRightly(history, from)
    requires e.Fired? ==>
               var written := LastWritten(history, e.name);
               written & 4 == 0 && (e.cause.ByConnection? ==> written & 2 != 0)
    ensures AllRightly(history + [e], from)
  {
    var h := history + [e];
    forall g | from <= g < |h| ensures Rightly(h, g) {
      if g < |history| {
        assert h[..g] == history[..g] && Rightly(history, g);
      } else {
        assert h[..g] == history;
      }
    }
  }

  // ------------------------------------------------------------------- passes

  /** A pass that runs only what may be run. */
  ghost predicate PicksRightly(b: Books, o: Order) {
    forall i :: 0 <= i < |b.known| && o.pick(b.known[i]) ==>
      !Off(b.known[i].flags) && (o.cause.ByConnection? ==> b.known[i].flags & 2 != 0)
  }

  lemma {:induction false} FirstRightly(b: Books, n: nat, o: Order, from: nat)
    requires n <= |b.known| && FlagsTell(b) && PicksRightly(b, o) && AllRightly(b.history, from)
    ensures AllRightly(b.history + FiredFirst(b, n, o), from)
    ensures forall name :: LastWritten(b.history + FiredFirst(b, n, o), name) == LastWritten(b.history, name)
  {
    if n == 0 {
      assert b.history + [] == b.history;
    } else {
      FirstRightly(b, n - 1, o, from);
      var before := b.history + FiredFirst(b, n - 1, o);
      if o.pick(b.known[n - 1]) {
        var e := FiredBy(b, n - 1, o);
        FlagsRan(b.known[n - 1], LastWritten(b.history, b.known[n - 1].name));
        RightlyMore(before, e, from);
        assert b.history + FiredFirst(b, n, o) == before + [e];
        forall name ensures LastWritten(before + [e], name) == LastWritten(b.history, name) {
          HistoryGrows(before, e, name);
        }
      } else {
        assert FiredFirst(b, n - 1, o) + [] == FiredFirst(b, n - 1, o);
      }
    }
  }

  lemma PassRightly(b: Books, o: Order, from: nat)
    requires FlagsTell(b) && PicksRightly(b, o) && AllRightly(b.history, from)
    ensures FlagsTell(Pass(b, o).books) && AllRightly(Pass(b, o).books.history, from)
  {
    var n := FirstStop(b.known, o.stops);
    FirstRightly(b, n, o, from);
    var r := RanFirst(b.known, n, o.pick);
    forall i | 0 <= i < |r| ensures FlagsAs(r[i].flags, LastWritten(b.history, r[i].name)) {
      FlagsRan(b.known[i], LastWritten(b.history, b.known[i].name));
    }
  }

  // ------------------------------------------------------------- between passes

  /** What an event that is a write of flags does to what was last written. */
  lemma WrittenNow(history: seq<Event>, name: Text, flags: bv8)
    ensures forall other :: LastWritten(history + [Written(name, flags)], other) ==
                            if other == name then flags else LastWritten(history, other)
  {
    forall other ensures LastWritten(history + [Written(name, flags)], other) ==
                         if other == name then flags else LastWritten(history, other) {
      HistoryGrows(history, Written(name, flags), other);
    }
  }

  lemma PlacedTell(b: Books, info: RoutineInfo, history: seq<Event>)
    requires FlagsTell(b) && Unique(b.known) && FlagsAs(info.flags, LastWritten(history, info.name))
    requires forall other :: other != info.name ==> LastWritten(history, other) == LastWritten(b.history, other)
    ensures forall i :: 0 <= i < |Placed(b.known, info)| ==>
              FlagsAs(Placed(b.known, info)[i].flags, LastWritten(history, Placed(b.known, info)[i].name))
  {
    var placed := Placed(b.known, info);
    forall i | 0 <= i < |placed| ensures FlagsAs(placed[i].flags, LastWritten(history, placed[i].name)) {
      if placed[i] != info {
        assert placed[i] == b.known[i] && placed[i].name != info.name;
      }
    }
  }

  lemma AddRightly(b: Books, x: Between, from: nat)
    requires x.Add? && Brings(x) && FlagsTell(b) && Unique(b.known) && AllRightly(b.history, from)
    ensures FlagsTell(Happened(b, x).0) && AllRightly(Happened(b, x).0.history, from)
  {
    var info := RoutineInfo(x.name, SplitText(x.targets, COMMA), x.schedule, (x.flags % 256) as bv8);
    if Validation.WholeArguments(StreamIn(x.data)[17..]) {
      WrittenNow(b.history, x.name, info.flags);
      RightlyMore(b.history, Written(x.name, info.flags), from);
      PlacedTell(b, info, b.history + [Written(x.name, info.flags)]);
    }
  }

  lemma AlterRightly(b: Books, name: Text, change: Change, from: nat)
    requires FlagsTell(b) && Unique(b.known) && AllRightly(b.history, from)
    ensures FlagsTell(Altered(b, name, change)) && AllRightly(Altered(b, name, change).history, from)
  {
    var at := IndexOf(b.known, name);
    if at.Some? {
      var info := Changed(b.known[at.value], change);
      PlacedHere(b.known, at.value, info);
      if change.ChangeFlags? {
        WrittenNow(b.history, name, info.flags);
        RightlyMore(b.history, Written(name, info.flags), from);
        PlacedTell(b, info, b.history + [Written(name, info.flags)]);
      } else {
        PlacedTell(b, info, b.history);
        assert b.history + [] == b.history;
      }
    }
  }

  lemma DeleteRightly(b: Books, name: Text)
    requires FlagsTell(b)
    ensures forall i :: 0 <= i < |Without(b.known, name)| ==>
              FlagsAs(Without(b.known, name)[i].flags, LastWritten(b.history, Without(b.known, name)[i].name))
  {
    var at, rest := IndexOf(b.known, name), Without(b.known, name);
    if at.Some? {
      forall i | 0 <= i < |rest| ensures FlagsAs(rest[i].flags, LastWritten(b.history, rest[i].name)) {
        assert rest[i] == b.known[if i < at.value then i else i + 1];
      }
    }
  }

  lemma HappenedRightly(b: Books, x: Between, from: nat)
    requires Brings(x) && FlagsTell(b) && Unique(b.known) && AllRightly(b.history, from)
    ensures FlagsTell(Happened(b, x).0) && AllRightly(Happened(b, x).0.history, from)
  {
    match x
    case Add(_, _, _, _, _) => AddRightly(b, x, from);
    case Delete(name) => DeleteRightly(b, name);
    case Alter(name, change) => AlterRightly(b, name, change, from);
    case Connects(node) => PassRightly(b, Connected(node, b.streams), from);
  }

  lemma {:induction false} AllHappenedRightly(b: Books, xs: seq<Between>, k: nat, from: nat)
    requires k <= |xs| && AllBring(xs) && FlagsTell(b) && Unique(b.known) && AllRightly(b.history, from)
    ensures var c := HappenedFirst(b, xs, k).0; FlagsTell(c) && Unique(c.known) && AllRightly(c.history, from)
  {
    if k == 0 {
    } else {
      AllHappenedRightly(b, xs, k - 1, from);
      HappenedRightly(HappenedFirst(b, xs, k - 1).0, xs[k - 1], from);
      UniqueHappened(HappenedFirst(b, xs, k - 1).0, xs[k - 1]);
    }
  }

  // --------------------------------------------------------------------- runs

  lemma OnePassRightly(w: World, clock: int -> BrokenTime, p: LoopPass, from: nat)
    requires AllBring(p.before) && FlagsTell(w.books) && Unique(w.books.known) && AllRightly(w.books.history, from)
    ensures var c := AfterPass(w, clock, p).books; FlagsTell(c) && Unique(c.known) && AllRightly(c.history, from)
  {
    AllHappenedRightly(w.books, p.before, |p.before|, from);
    UniquePass(w, clock, p);
    var b := HappenedFirst(w.books, p.before, |p.before|).0;
    PassRightly(b, Scheduled(clock(Seconds(w.now)), Seconds(w.now), b.streams, p.connected), from);
  }

  /**
   * In every run, a routine is activated only while the flags last written for it have it on, and by a connection only if
   * they have it run on connection.
   */
  lemma {:induction false} RunRightly(b: Books, start: nat, clock: int -> BrokenTime, passes: seq<LoopPass>, i: nat)
    requires EachBrings(passes) && i <= |passes| && FlagsTell(b) && Unique(b.known)
    ensures var c := After(b, start, clock, passes, i).books;
            FlagsTell(c) && Unique(c.known) && AllRightly(c.history, |b.history|)
  {
    if i == 0 {
    } else {
      RunRightly(b, start, clock, passes, i - 1);
      OnePassRightly(After(b, start, clock, passes, i - 1), clock, passes[i - 1], |b.history|);
    }
  }
}
