/** The control program's side: its table of client records, and how streams from the server change it. */
module ControlProgram {
  import opened Bytes
  import opened Arguments
  import opened ReplicaModel
  import opened NodeRecords

  class ClientTracker {
    var records: map<Text, Record>

    constructor ()
      ensures records == map[]
    {
      records := map[];
    }

    /** Files a record under its name, over whatever was there. */
    method Add(r: Record)
      modifies this
      ensures records == old(records)[r.id := r]
    {
      records := records[r.id := r];
    }

    method Delete(id: Text) returns (deleted: bool)
      modifies this
      ensures deleted == (id in old(records)) && records == old(records) - {id}
    {
      if id !in records {
        return false;
      }
      records := records - {id};
      deleted := true;
    }

    /** Looks through the table from its beginning for a record that is not in the index. */
    method FindStale(keep: set<Text>) returns (stale: Option<Text>)
      ensures stale == None ==> records.Keys <= keep
      ensures stale.Some? ==> stale.value in records && stale.value !in keep
    {
      var todo := records.Keys;
      while todo != {}
        invariant todo <= records.Keys && records.Keys - todo <= keep
      {
        var id :| id in todo;
        if id !in keep {
          return Some(id);
        }
        todo := todo - {id};
      }
      stale := None;
    }

    /** Deletes what is not in the index, starting over behind every deletion. */
    method DeleteStale(keep: set<Text>)
      modifies this
      ensures records == map id | id in old(records) && id in keep :: old(records)[id]
    {
      ghost var all := records;
      var stale := FindStale(keep);
      while stale.Some?
        invariant records.Keys <= all.Keys && forall id :: id in records ==> records[id] == all[id]
        invariant forall id :: id in all && id in keep ==> id in records
        invariant stale == None ==> records.Keys <= keep
        invariant stale.Some? ==> stale.value in records && stale.value !in keep
        decreases |records|
      {
        var deleted := Delete(stale.value);
        stale := FindStale(keep);
      }
    }
  }

  /** The record that eight pops yield, or None where a pop meets another type and throws. */
  method PopRecord(args: seq<Arg>, at: nat) returns (r: Option<Record>)
    requires at + PIECES_PER_NODE <= |args|
    ensures var eight := args[at..at + PIECES_PER_NODE]; r == if IsRecord(eight) then Some(RecordOf(eight)) else None
  {
    if !args[at].String? || !args[at + 1].String? || !args[at + 2].String? || !args[at + 3].String?
       || !args[at + 4].Int64? || !args[at + 5].String? || !args[at + 6].Int64? || !args[at + 7].Bool? {
      return None;
    }
    r := Some(Record(args[at].text, Row(args[at + 1].text, args[at + 2].text, args[at + 4].i64, args[at + 3].text),
                     args[at + 5].text, args[at + 6].i64, args[at + 7].flag));
  }

  /** A notification replaces one record; anything but eight arguments of the right types throws. */
  method ProcessNodeChange(tracker: ClientTracker, args: seq<Arg>) returns (ok: bool)
    modifies tracker
    ensures ok == IsRecord(args)
    ensures tracker.records == if ok then old(tracker.records)[RecordOf(args).id := RecordOf(args)] else old(tracker.records)
  {
    if |args| != PIECES_PER_NODE {
      return false;
    }
    var r := PopRecord(args, 0);
    assert args[0..PIECES_PER_NODE] == args;
    if r.None? {
      return false;
    }
    tracker.Add(r.value);
    ok := true;
  }

  /** The done-th eight of the arguments. */
  function Eight(args: seq<Arg>, done: nat): (eight: seq<Arg>)
    requires PIECES_PER_NODE * (done + 1) <= |args|
    ensures |eight| == PIECES_PER_NODE
  {
    args[PIECES_PER_NODE * done..PIECES_PER_NODE * done + PIECES_PER_NODE]
  }

  lemma EightShift(args: seq<Arg>, done: nat)
    requires done > 0 && PIECES_PER_NODE * (done + 1) <= |args|
    ensures Eight(args[PIECES_PER_NODE..], done - 1) == Eight(args, done)
  {
  }

  lemma {:induction false} RecordsAt(args: seq<Arg>, done: nat)
    requires PIECES_PER_NODE * (done + 1) <= |args| && done <= |RecordsOf(args)|
    ensures IsRecord(Eight(args, done)) ==> done < |RecordsOf(args)| && RecordsOf(args)[done] == RecordOf(Eight(args, done))
    ensures !IsRecord(Eight(args, done)) ==> done == |RecordsOf(args)|
    decreases |args|
  {
    if done == 0 {
      assert Eight(args, 0) == args[..PIECES_PER_NODE];
    } else {
      var rest := args[PIECES_PER_NODE..];
      RecordsAt(rest, done - 1);
      EightShift(args, done);
      assert RecordsOf(args)[1..] == RecordsOf(rest);
    }
  }

  lemma {:induction false} RecordsCount(args: seq<Arg>)
    ensures PIECES_PER_NODE * |RecordsOf(args)| <= |args|
    decreases |args|
  {
    if |args| < PIECES_PER_NODE || !IsRecord(args[..PIECES_PER_NODE]) {
    } else {
      RecordsCount(args[PIECES_PER_NODE..]);
    }
  }

  lemma FiledLast(a: map<Text, Record>, rs: seq<Record>, i: nat)
    requires i < |rs|
    ensures a + Table(rs[..i + 1]) == (a + Table(rs[..i]))[rs[i].id := rs[i]]
    ensures Table(rs[..i + 1]).Keys == Table(rs[..i]).Keys + {rs[i].id}
  {
    assert rs[..i + 1] == rs[..i] + [rs[i]];
    TableAppend(rs[..i], rs[i]);
  }

  method PopEight(args: seq<Arg>, i: nat) returns (r: Option<Record>)
    requires PIECES_PER_NODE * (i + 1) <= |args|
    ensures r == if IsRecord(Eight(args, i)) then Some(RecordOf(Eight(args, i))) else None
  {
    r := PopRecord(args, PIECES_PER_NODE * i);
  }

  /** Files the records one after another, until one of them throws. */
  method AddRecords(tracker: ClientTracker, args: seq<Arg>) returns (ok: bool, checkAfter: set<Text>)
    requires |args| % PIECES_PER_NODE == 0
    modifies tracker
    ensures ok == AllRecords(args)
    ensures tracker.records == old(tracker.records) + Table(RecordsOf(args))
    ensures ok ==> checkAfter == Table(RecordsOf(args)).Keys
  {
    checkAfter := {};
    ghost var rs := RecordsOf(args);
    RecordsCount(args);
    assert rs[..0] == [] && old(tracker.records) + Table([]) == old(tracker.records);
    var i := 0;
    while i < |args| / PIECES_PER_NODE
      invariant i <= |rs| && PIECES_PER_NODE * i <= |args|
      invariant tracker.records == old(tracker.records) + Table(rs[..i])
      invariant checkAfter == Table(rs[..i]).Keys
    {
      RecordsAt(args, i);
      var r := PopEight(args, i);
      if r.None? {
        assert rs[..i] == rs;
        return false, {};
      }
      FiledLast(old(tracker.records), rs, i);
      tracker.Add(r.value);
      checkAfter := checkAfter + {r.value.id};
      i := i + 1;
    }
    assert rs[..i] == rs;
    ok := true;
  }

  /**
   * An index whose count is no multiple of eight throws at once; one with a misplaced type throws behind the records
   * before it; any other becomes the table, and what it does not name is deleted.
   */
  method ProcessIndex(tracker: ClientTracker, args: seq<Arg>) returns (ok: bool)
    modifies tracker
    ensures ok == AllRecords(args)
    ensures tracker.records == Fold(old(tracker.records), DecodedIndex(args))
  {
    if |args| % PIECES_PER_NODE != 0 {
      return false;
    }
    var checkAfter;
    ok, checkAfter := AddRecords(tracker, args);
    if ok {
      tracker.DeleteStale(checkAfter);
    }
  }

  /** What any stream does to the tracker is what folding its meaning does. */
  method Receive(tracker: ClientTracker, s: Stream)
    modifies tracker
    ensures tracker.records == Fold(old(tracker.records), Decoded(s))
  {
    if IsReportStream(s) {
      if s.cmd == CMDCODE_A2S_INDEXDL {
        var _ := ProcessIndex(tracker, s.args);
      }
    } else if s.cmd == CMDCODE_S2A_NOTIFY_NODECHG {
      var _ := ProcessNodeChange(tracker, s.args);
    }
  }
}
