/** How node records travel: eight arguments a record, in notifications and in index responses. */
module NodeRecords {
  import opened Bytes
  import opened Arguments
  import opened Ident
  import opened ReplicaModel

  const CMDCODE_ANY_PING: byte := 3
  const CMDCODE_B2S_AUTH: byte := 4
  const CMDCODE_ANY_DISCONNECT: byte := 5
  const CMDCODE_A2S_INDEXDL: byte := 9
  const CMDCODE_S2A_ADMINDEAUTH: byte := 10
  const CMDCODE_S2A_NOTIFY_NODECHG: byte := 21
  const CMDCODE_A2S_CHGNODEGROUP: byte := 24
  const CMDCODE_A2S_FORGETNODE: byte := 41
  const CMDCODE_A2S_AUTHTOKEN_REVOKE: byte := 44

  const PIECES_PER_NODE: nat := 8

  /** A stream as its two ends see it: header fields and argument list. */
  datatype Stream = Stream(cmd: byte, flags: bv8, args: seq<Arg>)

  predicate IsReportStream(s: Stream) { s.flags & IDENT_ISREPORT_BIT != 0 }

  function RecordArgs(r: Record): (args: seq<Arg>)
    ensures |args| == PIECES_PER_NODE
  {
    [String(r.id), String(r.row.platform), String(r.row.revision), String(r.row.group), Int64(r.row.time),
     String(r.ip), Int64(r.latency), Bool(r.online)]
  }

  predicate IsRecord(args: seq<Arg>) {
    && |args| == PIECES_PER_NODE
    && args[0].String? && args[1].String? && args[2].String? && args[3].String? && args[4].Int64?
    && args[5].String? && args[6].Int64? && args[7].Bool?
  }

  function RecordOf(args: seq<Arg>): (r: Record)
    requires IsRecord(args)
    ensures RecordArgs(r) == args
  {
    Record(args[0].text, Row(args[1].text, args[2].text, args[4].i64, args[3].text), args[5].text, args[6].i64, args[7].flag)
  }

  /** The records of a list of arguments, up to the first eight that do not make one. */
  function RecordsOf(args: seq<Arg>): seq<Record>
    decreases |args|
  {
    if |args| < PIECES_PER_NODE || !IsRecord(args[..PIECES_PER_NODE]) then []
    else [RecordOf(args[..PIECES_PER_NODE])] + RecordsOf(args[PIECES_PER_NODE..])
  }

  function ListArgs(rs: seq<Record>): seq<Arg>
    decreases |rs|
  {
    if rs == [] then [] else RecordArgs(rs[0]) + ListArgs(rs[1..])
  }

  lemma {:induction false} ListArgsAppend(rs: seq<Record>, r: Record)
    ensures ListArgs(rs + [r]) == ListArgs(rs) + RecordArgs(r)
    decreases |rs|
  {
    if rs == [] {
      assert rs + [r] == [r] && [r][1..] == [];
      assert ListArgs([r]) == RecordArgs(r) + ListArgs([]);
    } else {
      ListArgsAppend(rs[1..], r);
      assert (rs + [r])[1..] == rs[1..] + [r];
    }
  }

  lemma {:induction false} ListRoundTrip(rs: seq<Record>)
    ensures RecordsOf(ListArgs(rs)) == rs
    ensures |ListArgs(rs)| == PIECES_PER_NODE * |rs|
    decreases |rs|
  {
    if rs == [] {
    } else {
      ListRoundTrip(rs[1..]);
      var args := ListArgs(rs);
      assert args[..PIECES_PER_NODE] == RecordArgs(rs[0]) && args[PIECES_PER_NODE..] == ListArgs(rs[1..]);
      assert RecordOf(RecordArgs(rs[0])) == rs[0];
      assert rs == [rs[0]] + rs[1..];
    }
  }

  /** Records filed under their names, later ones over earlier ones. */
  function Table(rs: seq<Record>): map<Text, Record>
    decreases |rs|
  {
    if rs == [] then map[] else Table(rs[..|rs| - 1])[rs[|rs| - 1].id := rs[|rs| - 1]]
  }

  lemma TableAppend(rs: seq<Record>, r: Record)
    ensures Table(rs + [r]) == Table(rs)[r.id := r]
  {
    assert (rs + [r])[..|rs|] == rs;
  }

  lemma {:induction false} TableConcat(a: seq<Record>, b: seq<Record>)
    ensures Table(a + b) == Table(a) + Table(b)
    decreases |b|
  {
    if b == [] {
      assert a + b == a;
    } else {
      var last := |b| - 1;
      TableConcat(a, b[..last]);
      assert (a + b)[..|a| + last] == a + b[..last];
      assert (a + b)[|a| + last] == b[last];
    }
  }

  /** Nothing but whole records. */
  predicate AllRecords(args: seq<Arg>) {
    |args| == PIECES_PER_NODE * |RecordsOf(args)|
  }

  /** What a stream means to the tracker. */
  function Decoded(s: Stream): Message {
    if IsReportStream(s) && s.cmd == CMDCODE_A2S_INDEXDL then DecodedIndex(s.args)
    else if !IsReportStream(s) && s.cmd == CMDCODE_S2A_NOTIFY_NODECHG && IsRecord(s.args) then Change(RecordOf(s.args))
    else Unrelated
  }

  function DecodedIndex(args: seq<Arg>): Message {
    if |args| % PIECES_PER_NODE != 0 then Unrelated
    else if AllRecords(args) then Index(Table(RecordsOf(args)))
    else BrokenIndex(Table(RecordsOf(args)))
  }

  function DecodedAll(ss: seq<Stream>): seq<Message> {
    if ss == [] then [] else DecodedAll(ss[..|ss| - 1]) + [Decoded(ss[|ss| - 1])]
  }

  lemma DecodedAppend(ss: seq<Stream>, s: Stream)
    ensures DecodedAll(ss + [s]) == DecodedAll(ss) + [Decoded(s)]
  {
    assert (ss + [s])[..|ss|] == ss;
  }

  lemma {:induction false} DecodedFirst(ss: seq<Stream>)
    requires ss != []
    ensures DecodedAll(ss) == [Decoded(ss[0])] + DecodedAll(ss[1..])
  {
    var last := |ss| - 1;
    if last > 0 {
      DecodedFirst(ss[..last]);
      assert ss[1..][..last - 1] == ss[..last][1..];
    } else {
      assert ss[..0] == [] && ss[1..] == [];
    }
  }

  /** A notification means its record. */
  lemma DecodedChange(r: Record)
    ensures Decoded(Stream(CMDCODE_S2A_NOTIFY_NODECHG, 0, RecordArgs(r))) == Change(r)
  {
    assert RecordOf(RecordArgs(r)) == r;
  }

  /** An index response means the table of its records. */
  lemma DecodedIndexOf(rs: seq<Record>)
    ensures Decoded(Stream(CMDCODE_A2S_INDEXDL, IDENT_ISREPORT_BIT, ListArgs(rs))) == Index(Table(rs))
  {
    ListRoundTrip(rs);
    assert AllRecords(ListArgs(rs));
  }

  lemma {:induction false} RecordsUpTo(rs: seq<Record>, behind: seq<Arg>)
    requires |behind| >= PIECES_PER_NODE && !IsRecord(behind[..PIECES_PER_NODE])
    ensures RecordsOf(ListArgs(rs) + behind) == rs && |ListArgs(rs)| == PIECES_PER_NODE * |rs|
    decreases |rs|
  {
    var args := ListArgs(rs) + behind;
    if rs == [] {
      assert args == behind;
    } else {
      RecordsUpTo(rs[1..], behind);
      assert args[..PIECES_PER_NODE] == RecordArgs(rs[0]);
      assert args[PIECES_PER_NODE..] == ListArgs(rs[1..]) + behind;
      assert RecordOf(RecordArgs(rs[0])) == rs[0];
      assert rs == [rs[0]] + rs[1..];
    }
  }

  /**
   * What a malformed index does to a tracker: nothing when it is no whole number of records, and otherwise the records
   * in front of the first that is none are filed, and nothing is deleted.
   */
  lemma MalformedIndex(tracker: map<Text, Record>, rs: seq<Record>, behind: seq<Arg>)
    requires |behind| >= PIECES_PER_NODE && !IsRecord(behind[..PIECES_PER_NODE])
    ensures Fold(tracker, DecodedIndex(ListArgs(rs) + behind)) ==
            if |behind| % PIECES_PER_NODE == 0 then tracker + Table(rs) else tracker
  {
    RecordsUpTo(rs, behind);
    Multiples(|rs|, |behind|);
  }

  lemma Multiples(n: nat, more: nat)
    ensures (PIECES_PER_NODE * n + more) % PIECES_PER_NODE == more % PIECES_PER_NODE
  {
  }
}
