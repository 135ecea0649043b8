/**
 * The admin's replica of the node list, as values: what the server knows, what it has sent and not yet delivered, and
 * what the control program has folded into its tracker.
 */
module ReplicaModel {
  import opened Bytes

  /** "ADMIN", the name under which an administrator is mapped. */
  const ADMIN: Text := [65, 68, 77, 73, 78]

  /** A row of the nodeinfo table. */
  datatype Row = Row(platform: Text, revision: Text, time: int64, group: Text)

  /** What the server keeps of a connected node. */
  datatype Node = Node(row: Row, ip: Text, latency: int64, token: Text)

  /** A record of the control program's tracker. */
  datatype Record = Record(id: Text, row: Row, ip: Text, latency: int64, online: bool)

  /** A stream on its way to the admin, as far as the tracker is concerned. */
  datatype Message =
    | Index(records: map<Text, Record>)
    | BrokenIndex(records: map<Text, Record>)  // an index that goes wrong behind these records
    | Change(record: Record)
    | Unrelated

  datatype State = State(
    live: map<Text, Node>,
    rows: map<Text, Row>,
    admin: bool,
    indexed: bool,
    inFlight: seq<Message>,
    tracker: map<Text, Record>)

  function Online(id: Text, n: Node): Record { Record(id, n.row, n.ip, n.latency, true) }
  function Offline(id: Text, r: Row): Record { Record(id, r, [], 0, false) }

  /** The node list as the server sees it: connected nodes, and known nodes that are not connected. */
  function View(live: map<Text, Node>, rows: map<Text, Row>): map<Text, Record> {
    map id | id in live.Keys + rows.Keys && id != ADMIN :: if id in live then Online(id, live[id]) else Offline(id, rows[id])
  }

  /** What one message does to the tracker. */
  function Fold(tracker: map<Text, Record>, m: Message): map<Text, Record> {
    match m
    case Index(records) => records
    case BrokenIndex(records) => tracker + records
    case Change(record) => tracker[record.id := record]
    case Unrelated => tracker
  }

  function FoldAll(tracker: map<Text, Record>, ms: seq<Message>): map<Text, Record>
    decreases |ms|
  {
    if ms == [] then tracker else FoldAll(Fold(tracker, ms[0]), ms[1..])
  }

  lemma {:induction false} FoldAppend(tracker: map<Text, Record>, ms: seq<Message>, m: Message)
    ensures FoldAll(tracker, ms + [m]) == Fold(FoldAll(tracker, ms), m)
    decreases |ms|
  {
    if ms == [] {
      assert ms + [m] == [m] && [m][1..] == [];
      assert FoldAll(tracker, [m]) == FoldAll(Fold(tracker, m), []);
    } else {
      FoldAppend(Fold(tracker, ms[0]), ms[1..], m);
      assert (ms + [m])[1..] == ms[1..] + [m];
    }
  }

  datatype Event =
    | AcceptNode(id: Text, platform: Text, revision: Text, time: int64, ip: Text, token: Text)
    | AcceptAdmin(tracker: map<Text, Record>)  // a control program connects, with whatever its tracker holds
    | Disconnect(id: Text)
    | DisconnectAdmin
    | TurnedAway(id: Text)  // a node's login fails; it is reported offline though it never was online
    | PingReply(id: Text, latency: int64)
    | UpdateReport(id: Text, worked: bool, revision: Text, routine: bool)
    | ChangeGroup(id: Text, group: Text)
    | Forget(id: Text)
    | IndexRequest
    | RevokeAndKill(token: Text, order: seq<Text>)
    | OtherTraffic
    | Deliver

  /** NotifyAdmin_NodeChange: the record is made from the table row; without an admin or a row nothing is sent. */
  function Notify(s: State, id: Text, online: bool): State
    requires online ==> id in s.live
  {
    if !s.admin || id !in s.rows then s
    else
      var client := if online then Record(id, s.rows[id], s.live[id].ip, s.live[id].latency, true) else Offline(id, s.rows[id]);
      s.(inFlight := s.inFlight + [Change(client)])
  }

  /** UpdateNodeDB: fields that are not given keep the stored value; a new row needs platform and revision. */
  datatype Given<+T> = Absent | Given(value: T)

  function Or<T>(g: Given<T>, stored: T): T { if g.Given? then g.value else stored }

  predicate CanUpdate(rows: map<Text, Row>, id: Text, platform: Given<Text>, revision: Given<Text>) {
    id in rows || (platform.Given? && revision.Given?)
  }

  function UpdateRow(rows: map<Text, Row>, id: Text, platform: Given<Text>, revision: Given<Text>, group: Given<Text>,
                     time: int64): map<Text, Row>
    requires CanUpdate(rows, id, platform, revision)
  {
    var stored := if id in rows then rows[id] else Row([], [], 0, []);
    rows[id := Row(Or(platform, stored.platform), Or(revision, stored.revision),
                   if time != 0 then time else stored.time, Or(group, stored.group))]
  }

  /** The connected nodes that hold a token. */
  function Holders(live: map<Text, Node>, token: Text): set<Text> {
    set id | id in live && live[id].token == token
  }

  /** Disconnects nodes one by one and deletes each one's row behind it. */
  function KillEach(s: State, ids: seq<Text>): State
    decreases |ids|
  {
    if ids == [] then s
    else
      KillEach(KillOne(s, ids[0]), ids[1..])
  }

  function KillOne(s: State, id: Text): State {
    var t := Notify(s, id, false);
    t.(live := t.live - {id}, rows := t.rows - {id})
  }

  lemma {:induction false} KillEachAppend(s: State, ids: seq<Text>, id: Text)
    ensures KillEach(s, ids + [id]) == KillOne(KillEach(s, ids), id)
    decreases |ids|
  {
    if ids == [] {
      assert ids + [id] == [id] && [id][1..] == [];
      assert KillEach(s, [id]) == KillEach(KillOne(s, id), []);
    } else {
      KillEachAppend(KillOne(s, ids[0]), ids[1..], id);
      assert (ids + [id])[1..] == ids[1..] + [id];
    }
  }

  ghost predicate Enumerates(ids: seq<Text>, all: set<Text>) {
    && (forall k :: 0 <= k < |ids| ==> ids[k] in all)
    && (forall id :: id in all ==> id in ids)
    && (forall j, k :: 0 <= j < k < |ids| ==> ids[j] != ids[k])
  }

  /** Some holders, each once. */
  ghost predicate SomeHolders(order: seq<Text>, live: map<Text, Node>, token: Text) {
    && (forall k :: 0 <= k < |order| ==> order[k] in Holders(live, token))
    && (forall j, k :: 0 <= j < k < |order| ==> order[j] != order[k])
  }

  lemma OneMoreHolder(order: seq<Text>, live: map<Text, Node>, token: Text, id: Text)
    requires SomeHolders(order, live, token) && id in Holders(live, token) && id !in order
    ensures SomeHolders(order + [id], live, token)
  {
  }

  ghost predicate Possible(s: State, e: Event) {
    match e
    case AcceptNode(id, _, _, time, _, _) => id != ADMIN && id !in s.live && time != 0
    case AcceptAdmin(_) => true
    case Disconnect(id) => id in s.live
    case DisconnectAdmin => s.admin
    case TurnedAway(id) => id != ADMIN && id !in s.live
    case PingReply(id, _) => id in s.live
    case UpdateReport(id, _, _, _) => id in s.live
    case ChangeGroup(id, _) => s.admin && id != ADMIN
    case Forget(id) => s.admin && id != ADMIN
    case IndexRequest => s.admin
    case RevokeAndKill(token, order) => s.admin && Enumerates(order, Holders(s.live, token))
    case OtherTraffic => s.admin
    case Deliver => s.admin && s.inFlight != []
  }

  /** A node is mapped with its stored group, and its row is written. */
  function Entered(s: State, id: Text, platform: Text, revision: Text, time: int64, ip: Text, token: Text): State {
    var group := if id in s.rows then s.rows[id].group else [];
    s.(live := s.live[id := Node(Row(platform, revision, time, group), ip, 0, token)],
       rows := UpdateRow(s.rows, id, Given(platform), Given(revision), Given(group), time))
  }

  /** A node connects and the administrator is told. */
  function Accepted(s: State, id: Text, platform: Text, revision: Text, time: int64, ip: Text, token: Text): State {
    Notify(Entered(s, id, platform, revision, time, ip, token), id, true)
  }

  function AdminCame(s: State, tracker: map<Text, Record>): State {
    s.(admin := true, indexed := false, inFlight := [Unrelated], tracker := tracker)
  }

  function AdminLeft(s: State): State { s.(admin := false, indexed := false, inFlight := []) }

  /** A node is reported offline, and then taken from the map. */
  function Left(s: State, id: Text): State {
    var t := Notify(s, id, false);
    t.(live := t.live - {id})
  }

  function Timed(s: State, id: Text, latency: int64): State
    requires id in s.live
  {
    s.(live := s.live[id := s.live[id].(latency := latency)])
  }

  function Pinged(s: State, id: Text, latency: int64): State
    requires id in s.live
  {
    Notify(Timed(s, id, latency), id, true)
  }

  /** A node's revision changes in its row, if it has one, and with its client. */
  function Revised(s: State, id: Text, revision: Text): State
    requires id in s.live
  {
    s.(rows := if id in s.rows then UpdateRow(s.rows, id, Absent, Given(revision), Absent, 0) else s.rows,
       live := s.live[id := s.live[id].(row := s.live[id].row.(revision := revision))])
  }

  /** A node reports how its update went. */
  function Updated(s: State, id: Text, worked: bool, revision: Text, routine: bool): State
    requires id in s.live
  {
    if !worked then s
    else if routine then Revised(s, id, revision)
    else Notify(Revised(s, id, revision), id, true)
  }

  /** A node's group changes in its row, and with its client if it is connected. */
  function Grouped(s: State, id: Text, group: Text): State
    requires id in s.rows
  {
    s.(rows := UpdateRow(s.rows, id, Absent, Absent, Given(group), 0),
       live := if id in s.live then s.live[id := s.live[id].(row := s.live[id].row.(group := group))] else s.live)
  }

  /** The administrator assigns a node, connected or not, to a group, and gets an answer either way. */
  function Regrouped(s: State, id: Text, group: Text): State {
    if id !in s.rows then Answered(s)
    else Answered(Notify(Grouped(s, id, group), id, id in s.live))
  }

  /** The administrator is sent something its tracker does not look at. */
  function Answered(s: State): State { s.(inFlight := s.inFlight + [Unrelated]) }

  function IndexSent(s: State): State {
    s.(inFlight := s.inFlight + [Index(View(s.live, s.rows))], indexed := true)
  }

  /** A node is disconnected if need be, and its row is deleted. */
  function Removed(s: State, id: Text): State {
    var t := if id in s.live then Left(s, id) else s;
    t.(rows := t.rows - {id})
  }

  /** A fresh index follows the answer to a forget request. */
  function Forgotten(s: State, id: Text): State { IndexSent(Answered(Removed(s, id))) }

  /** Every holder of a revoked token is killed. */
  function Revoked(s: State, order: seq<Text>): State { Answered(KillEach(s, order)) }

  function Delivered(s: State): State
    requires s.inFlight != []
  {
    s.(inFlight := s.inFlight[1..], tracker := Fold(s.tracker, s.inFlight[0]))
  }

  ghost function Do(s: State, e: Event): State
    requires Possible(s, e)
  {
    match e
    case AcceptNode(id, platform, revision, time, ip, token) => Accepted(s, id, platform, revision, time, ip, token)
    case AcceptAdmin(tracker) => AdminCame(s, tracker)
    case Disconnect(id) => Left(s, id)
    case DisconnectAdmin => AdminLeft(s)
    case TurnedAway(id) => Left(s, id)
    case PingReply(id, latency) => Pinged(s, id, latency)
    case UpdateReport(id, worked, revision, routine) => Updated(s, id, worked, revision, routine)
    case ChangeGroup(id, group) => Regrouped(s, id, group)
    case Forget(id) => Forgotten(s, id)
    case IndexRequest => IndexSent(s)
    case RevokeAndKill(_, order) => Revoked(s, order)
    case OtherTraffic => Answered(s)
    case Deliver => Delivered(s)
  }

  // -------------------------------------------------------------- invariants

  /** Every connected node has a row, and the two agree. */
  ghost predicate Coherent(s: State) {
    && ADMIN !in s.live
    && forall id :: id in s.live ==> id in s.rows && s.live[id].row == s.rows[id]
  }

  /** What the tracker will hold when everything sent has been delivered. */
  ghost function Settled(s: State): map<Text, Record> { FoldAll(s.tracker, s.inFlight) }

  /** Once an index response has been queued, what is undelivered turns the tracker into the server's view. */
  ghost predicate Converged(s: State) {
    s.admin && s.indexed ==> Settled(s) == View(s.live, s.rows)
  }

  ghost predicate Inv(s: State) { Coherent(s) && Converged(s) }

  lemma NotifySettles(s: State, id: Text, online: bool)
    requires online ==> id in s.live
    ensures Notify(s, id, online).live == s.live && Notify(s, id, online).rows == s.rows
    ensures Notify(s, id, online).admin == s.admin && Notify(s, id, online).indexed == s.indexed
    ensures s.admin && id in s.rows ==>
              Settled(Notify(s, id, online)) ==
              Settled(s)[id := if online then Record(id, s.rows[id], s.live[id].ip, s.live[id].latency, true)
                               else Offline(id, s.rows[id])]
  {
    if s.admin && id in s.rows {
      var t := Notify(s, id, online);
      FoldAppend(s.tracker, s.inFlight, t.inFlight[|s.inFlight|]);
    }
  }

  lemma UnrelatedSettles(s: State)
    ensures Settled(s.(inFlight := s.inFlight + [Unrelated])) == Settled(s)
  {
    FoldAppend(s.tracker, s.inFlight, Unrelated);
  }

  lemma DeliverSettles(s: State)
    requires s.inFlight != []
    ensures Settled(s.(inFlight := s.inFlight[1..], tracker := Fold(s.tracker, s.inFlight[0]))) == Settled(s)
  {
  }

  /** An index response makes the tracker settle on the view, whatever it held and whatever was sent before. */
  lemma IndexSettles(s: State, records: map<Text, Record>)
    ensures Settled(s.(inFlight := s.inFlight + [Index(records)])) == records
  {
    FoldAppend(s.tracker, s.inFlight, Index(records));
  }

  /** Coherence survives every event. */
  lemma KillKeepsCoherence(s: State, ids: seq<Text>)
    requires Coherent(s)
    ensures Coherent(KillEach(s, ids))
    decreases |ids|
  {
    if ids == [] {
    } else {
      NotifySettles(s, ids[0], false);
      KillKeepsCoherence(KillOne(s, ids[0]), ids[1..]);
    }
  }

  lemma CoherenceKept(s: State, e: Event)
    requires Coherent(s) && Possible(s, e)
    ensures Coherent(Do(s, e))
  {
    match e
    case RevokeAndKill(token, order) => KillKeepsCoherence(s, order);
    case AcceptNode(id, _, _, _, _, _) => RowsKeepCoherence(s, e);
    case UpdateReport(id, _, _, _) => RowsKeepCoherence(s, e);
    case ChangeGroup(id, _) => RowsKeepCoherence(s, e);
    case _ =>
  }

  /** The events that write a table row write the connected node alike. */
  lemma RowsKeepCoherence(s: State, e: Event)
    requires Coherent(s) && Possible(s, e) && (e.AcceptNode? || e.UpdateReport? || e.ChangeGroup?)
    ensures Coherent(Do(s, e))
  {
    var t := Do(s, e);
    forall id | id in t.live ensures id in t.rows && t.live[id].row == t.rows[id] {
      if id != e.id {
        assert id in s.live && t.live[id] == s.live[id] && t.rows[id] == s.rows[id];
      }
    }
  }

  /** The events after which the admin is told nothing, or too little, of a change to the list. */
  ghost predicate Silent(s: State, e: Event) {
    match e
    // a report flagged as a routine's changes the revision without a notification
    case UpdateReport(id, worked, revision, routine) =>
      worked && routine && id in s.live && revision != s.live[id].row.revision
    // killed nodes lose their rows after the notification, and no index follows
    case RevokeAndKill(token, _) => Holders(s.live, token) != {}
    case _ => false
  }

  // ------------------------------------------------------------- convergence

  /** The records an administrator keeps of nodes that were killed. */
  ghost function Remains(rows: map<Text, Row>, ids: set<Text>): map<Text, Record> {
    map id | id in ids * rows.Keys :: Offline(id, rows[id])
  }

  ghost function Names(ids: seq<Text>): set<Text> { set id | id in ids }

  lemma NamesAppend<V>(m: map<Text, V>, ids: seq<Text>, id: Text)
    ensures Names(ids + [id]) == Names(ids) + {id}
    ensures m - Names(ids + [id]) == m - Names(ids) - {id}
  {
  }

  lemma NothingNamed<V>(m: map<Text, V>)
    ensures m - Names([]) == m
  {
  }

  /** When nobody is left who holds the token, all who did have been killed. */
  lemma AllHolders(s: State, order: seq<Text>, token: Text)
    requires SomeHolders(order, s.live, token) && Holders(KillEach(s, order).live, token) == {}
    ensures Enumerates(order, Holders(s.live, token))
  {
    KillShrinks(s, order);
    var left := Holders(s.live, token) - Names(order);
    assert Holders(KillEach(s, order).live, token) == left;
    forall id | id in Holders(s.live, token) ensures id in order {
      assert id !in left;
    }
  }

  lemma Overwritten<V>(m: map<Text, V>, id: Text, v: V, w: V)
    ensures m[id := v][id := w] == m[id := w]
  {
  }

  lemma PutBack<V>(m: map<Text, V>, id: Text, v: V)
    ensures (m - {id})[id := v] == m[id := v]
  {
  }

  lemma {:induction false} KillShrinks(s: State, ids: seq<Text>)
    ensures KillEach(s, ids).live == s.live - Names(ids) && KillEach(s, ids).rows == s.rows - Names(ids)
    ensures KillEach(s, ids).admin == s.admin && KillEach(s, ids).indexed == s.indexed
    decreases |ids|
  {
    if ids == [] {
    } else {
      NotifySettles(s, ids[0], false);
      KillShrinks(KillOne(s, ids[0]), ids[1..]);
      assert Names(ids) == {ids[0]} + Names(ids[1..]);
    }
  }

  lemma ViewLess(live: map<Text, Node>, rows: map<Text, Row>, id: Text)
    ensures View(live - {id}, rows - {id}) == View(live, rows) - {id}
  {
  }

  lemma MoveOver<V>(a: map<Text, V>, b: map<Text, V>, id: Text, v: V)
    ensures (a + b)[id := v] == (a - {id}) + b[id := v]
  {
  }

  /** One kill takes a record out of the view and leaves an offline one in its place with the administrator. */
  lemma KillOneRemains(s: State, id: Text, extra: map<Text, Record>)
    requires Coherent(s) && s.admin && id in s.live
    requires Settled(s) == View(s.live, s.rows) + extra
    ensures var t := KillOne(s, id);
            Coherent(t) && t.admin && Settled(t) == View(t.live, t.rows) + extra[id := Offline(id, s.rows[id])]
  {
    NotifySettles(s, id, false);
    ViewLess(s.live, s.rows, id);
    MoveOver(View(s.live, s.rows), extra, id, Offline(id, s.rows[id]));
    assert Settled(KillOne(s, id)) == Settled(Notify(s, id, false));
  }

  /** Disconnecting nodes and deleting their rows leaves the administrator with an offline record of each. */
  lemma {:induction false} KillRemains(s: State, ids: seq<Text>, extra: map<Text, Record>)
    requires Coherent(s) && s.admin
    requires Settled(s) == View(s.live, s.rows) + extra
    requires forall k :: 0 <= k < |ids| ==> ids[k] in s.live
    requires forall j, k :: 0 <= j < k < |ids| ==> ids[j] != ids[k]
    ensures var t := KillEach(s, ids);
            Settled(t) == View(t.live, t.rows) + (extra + Remains(s.rows, Names(ids)))
    decreases |ids|
  {
    if ids == [] {
      assert extra + Remains(s.rows, Names(ids)) == extra;
    } else {
      var id := ids[0];
      KillOneRemains(s, id, extra);
      NotifySettles(s, id, false);
      KillRemains(KillOne(s, id), ids[1..], extra[id := Offline(id, s.rows[id])]);
      RemainsStep(s.rows, ids, extra);
    }
  }

  lemma RemainsStep(rows: map<Text, Row>, ids: seq<Text>, extra: map<Text, Record>)
    requires ids != [] && ids[0] in rows && ids[0] !in ids[1..]
    ensures extra[ids[0] := Offline(ids[0], rows[ids[0]])] + Remains(rows - {ids[0]}, Names(ids[1..])) ==
            extra + Remains(rows, Names(ids))
  {
    assert Names(ids) == {ids[0]} + Names(ids[1..]);
  }

  lemma EnumeratedNames(ids: seq<Text>, all: set<Text>)
    requires Enumerates(ids, all)
    ensures Names(ids) == all
  {
  }

  /** What a revocation that kills leaves behind: the view, and an offline record of every node it killed. */
  lemma RevocationLeaves(s: State, token: Text, order: seq<Text>)
    requires Inv(s) && s.admin && s.indexed && Enumerates(order, Holders(s.live, token))
    ensures var t := Do(s, RevokeAndKill(token, order));
            && Settled(t) == View(t.live, t.rows) + Remains(s.rows, Holders(s.live, token))
            && t.live == s.live - Holders(s.live, token) && t.rows == s.rows - Holders(s.live, token)
            && t.admin && t.indexed
  {
    var killed := KillEach(s, order);
    EnumeratedNames(order, Holders(s.live, token));
    KillAllRemains(s, order);
    KillShrinks(s, order);
    UnrelatedSettles(killed);
    assert Do(s, RevokeAndKill(token, order)) == killed.(inFlight := killed.inFlight + [Unrelated]);
  }

  lemma NothingAdded<V>(a: map<Text, V>)
    ensures a + map[] == a && map[] + a == a
  {
  }

  lemma KillAllRemains(s: State, ids: seq<Text>)
    requires Inv(s) && s.admin && s.indexed
    requires forall k :: 0 <= k < |ids| ==> ids[k] in s.live
    requires forall j, k :: 0 <= j < k < |ids| ==> ids[j] != ids[k]
    ensures Settled(KillEach(s, ids)) ==
            View(KillEach(s, ids).live, KillEach(s, ids).rows) + Remains(s.rows, Names(ids))
  {
    NothingAdded(View(s.live, s.rows));
    KillRemains(s, ids, map[]);
    NothingAdded(Remains(s.rows, Names(ids)));
  }

  /** Two maps that agree outside one key. */
  ghost predicate SameBut<V>(a: map<Text, V>, b: map<Text, V>, id: Text) {
    forall other :: other != id ==>
      (other in a <==> other in b) && (other in a ==> a[other] == b[other])
  }

  lemma ViewBut(s: State, t: State, id: Text)
    requires SameBut(s.live, t.live, id) && SameBut(s.rows, t.rows, id)
    ensures SameBut(View(s.live, s.rows), View(t.live, t.rows), id)
  {
  }

  lemma SameWith<V>(a: map<Text, V>, b: map<Text, V>, id: Text, v: V)
    requires SameBut(a, b, id) && id in b && b[id] == v
    ensures a[id := v] == b
  {
  }

  /** A change of one node followed by its notification leaves the tracker settling on the new view. */
  lemma ChangeConverges(s: State, t: State, id: Text)
    requires Inv(s) && Coherent(t) && t.admin == s.admin && t.indexed == s.indexed
    requires t.inFlight == s.inFlight && t.tracker == s.tracker && id in t.rows && id != ADMIN
    requires SameBut(s.live, t.live, id) && SameBut(s.rows, t.rows, id)
    ensures Inv(Notify(t, id, id in t.live))
  {
    NotifySettles(t, id, id in t.live);
    if s.admin && s.indexed {
      ViewBut(s, t, id);
      SameWith(View(s.live, s.rows), View(t.live, t.rows), id, View(t.live, t.rows)[id]);
    }
  }

  /** A node is reported offline before it is taken from the map. */
  lemma DisconnectConverges(s: State, id: Text)
    requires Inv(s) && id in s.live
    ensures Inv(Do(s, Disconnect(id)))
  {
    NotifySettles(s, id, false);
    if s.admin && s.indexed {
      var t := Do(s, Disconnect(id));
      ViewBut(s, t, id);
      SameWith(View(s.live, s.rows), View(t.live, t.rows), id, Offline(id, s.rows[id]));
    }
  }

  /** To the view, a node that was turned away is as offline as it was before. */
  lemma TurnedAwayConverges(s: State, id: Text)
    requires Inv(s) && Possible(s, TurnedAway(id))
    ensures Inv(Do(s, TurnedAway(id)))
  {
    NotifySettles(s, id, false);
    assert s.live - {id} == s.live;
    if s.admin && s.indexed && id in s.rows {
      assert View(s.live, s.rows)[id] == Offline(id, s.rows[id]);
    }
  }

  lemma UpdateConverges(s: State, id: Text, worked: bool, revision: Text, routine: bool)
    requires Inv(s) && id in s.live && s.admin && s.indexed
    ensures Converged(Do(s, UpdateReport(id, worked, revision, routine))) <==>
            !Silent(s, UpdateReport(id, worked, revision, routine))
  {
    var t := Do(s, UpdateReport(id, worked, revision, routine));
    if worked && !routine {
      ChangeConverges(s, Revised(s, id, revision), id);
    } else if worked {
      assert Settled(t) == Settled(s);
      assert View(t.live, t.rows)[id].row.revision == revision;
      assert View(s.live, s.rows)[id].row.revision == s.live[id].row.revision;
      if revision == s.live[id].row.revision {
        assert t == s;
      }
    }
  }

  lemma GroupConverges(s: State, id: Text, group: Text)
    requires Inv(s) && Possible(s, ChangeGroup(id, group))
    ensures Inv(Do(s, ChangeGroup(id, group)))
  {
    if id !in s.rows {
      UnrelatedSettles(s);
    } else {
      var t := Grouped(s, id, group);
      ChangeConverges(s, t, id);
      UnrelatedSettles(Notify(t, id, id in t.live));
    }
  }

  lemma AcceptConverges(s: State, e: Event)
    requires Inv(s) && e.AcceptNode? && Possible(s, e)
    ensures Inv(Do(s, e))
  {
    var t := Entered(s, e.id, e.platform, e.revision, e.time, e.ip, e.token);
    ChangeConverges(s, t, e.id);
  }

  lemma IndexConverges(s: State, e: Event)
    requires Coherent(s) && (e.IndexRequest? || e.Forget?) && Possible(s, e)
    ensures Inv(Do(s, e)) && Do(s, e).indexed
  {
    CoherenceKept(s, e);
    if e.Forget? {
      var t := if e.id in s.live then Left(s, e.id) else s;
      var u := Answered(t.(rows := t.rows - {e.id}));
      IndexSettles(u, View(u.live, u.rows));
    } else {
      IndexSettles(s, View(s.live, s.rows));
    }
  }

  /** With an indexed administrator, an event keeps the tracker settling on the view exactly when it is not silent. */
  lemma ConvergesExactly(s: State, e: Event)
    requires Inv(s) && Possible(s, e)
    ensures Coherent(Do(s, e))
    ensures s.admin && s.indexed ==> (Converged(Do(s, e)) <==> !Silent(s, e))
    ensures !Silent(s, e) ==> Inv(Do(s, e))
  {
    CoherenceKept(s, e);
    match e
    case AcceptNode(_, _, _, _, _, _) => AcceptConverges(s, e);
    case AcceptAdmin(_) =>
    case Disconnect(id) => DisconnectConverges(s, id);
    case DisconnectAdmin =>
    case TurnedAway(id) => TurnedAwayConverges(s, id);
    case PingReply(id, latency) =>
      ChangeConverges(s, Timed(s, id, latency), id);
    case UpdateReport(id, worked, revision, routine) =>
      if s.admin && s.indexed {
        UpdateConverges(s, id, worked, revision, routine);
      } else {
        NotAsked(s, e);
      }
    case ChangeGroup(id, group) => GroupConverges(s, id, group);
    case Forget(_) => IndexConverges(s, e);
    case IndexRequest => IndexConverges(s, e);
    case RevokeAndKill(token, order) => RevokeConverges(s, token, order);
    case OtherTraffic => UnrelatedSettles(s);
    case Deliver => DeliverSettles(s);
  }

  /** Without an index response on its way nothing is promised yet. */
  lemma NotAsked(s: State, e: Event)
    requires !(s.admin && s.indexed) && Possible(s, e) && !e.IndexRequest? && !e.Forget?
    ensures Converged(Do(s, e))
  {
    match e
    case RevokeAndKill(_, order) => KillShrinks(s, order);
    case _ =>
  }

  lemma RevokeConverges(s: State, token: Text, order: seq<Text>)
    requires Inv(s) && Possible(s, RevokeAndKill(token, order))
    ensures s.admin && s.indexed ==>
              (Converged(Do(s, RevokeAndKill(token, order))) <==> Holders(s.live, token) == {})
    ensures Holders(s.live, token) == {} ==> Converged(Do(s, RevokeAndKill(token, order)))
  {
    if s.indexed {
      RevocationLeaves(s, token, order);
      var t := Do(s, RevokeAndKill(token, order));
      if Holders(s.live, token) == {} {
        assert View(t.live, t.rows) + Remains(s.rows, {}) == View(t.live, t.rows);
      } else {
        var id :| id in Holders(s.live, token);
        assert id in Settled(t) && id !in View(t.live, t.rows);
      }
    } else {
      NotAsked(s, RevokeAndKill(token, order));
    }
  }

  // ------------------------------------------------------------------- runs

  ghost predicate LegalRun(s: State, events: seq<Event>)
    decreases |events|
  {
    events == [] || (Possible(s, events[0]) && LegalRun(Do(s, events[0]), events[1..]))
  }

  ghost function After(s: State, events: seq<Event>): State
    requires LegalRun(s, events)
    decreases |events|
  {
    if events == [] then s else After(Do(s, events[0]), events[1..])
  }

  /** No silent event has come since the last index response or change of administrator. */
  ghost predicate NothingMissed(s: State, events: seq<Event>, told: bool)
    requires LegalRun(s, events)
    decreases |events|
  {
    if events == [] then told
    else
      var e := events[0];
      NothingMissed(Do(s, e), events[1..],
            e.IndexRequest? || e.Forget? || e.AcceptAdmin? || e.DisconnectAdmin? || (told && !Silent(s, e)))
  }

  lemma {:induction false} RunConverges(s: State, events: seq<Event>, told: bool)
    requires Coherent(s) && (told ==> Converged(s)) && LegalRun(s, events)
    ensures Coherent(After(s, events))
    ensures NothingMissed(s, events, told) ==> Converged(After(s, events))
    decreases |events|
  {
    if events == [] {
    } else {
      var e := events[0];
      CoherenceKept(s, e);
      if e.IndexRequest? || e.Forget? {
        IndexConverges(s, e);
      } else if told {
        ConvergesExactly(s, e);
      }
      RunConverges(Do(s, e), events[1..],
                   e.IndexRequest? || e.Forget? || e.AcceptAdmin? || e.DisconnectAdmin? || (told && !Silent(s, e)));
    }
  }

  const Boot: State := State(map[], map[], false, false, [], map[])

  /**
   * Replica convergence. In every run, once an index response has been queued and unless a silent event has come
   * behind it, folding what is undelivered into the tracker gives the server's view; with nothing undelivered the
   * tracker is the view.
   */
  lemma ReplicaConverges(events: seq<Event>)
    requires LegalRun(Boot, events) && NothingMissed(Boot, events, true)
    ensures var s := After(Boot, events);
            s.admin && s.indexed ==>
              && FoldAll(s.tracker, s.inFlight) == View(s.live, s.rows)
              && (s.inFlight == [] ==> s.tracker == View(s.live, s.rows))
  {
    RunConverges(Boot, events, true);
  }

  /** Whatever has happened before, an index response or forgetting a node brings the replica back. */
  lemma IndexRecovers(events: seq<Event>, e: Event)
    requires LegalRun(Boot, events) && (e.IndexRequest? || e.Forget?) && Possible(After(Boot, events), e)
    ensures var s := Do(After(Boot, events), e);
            FoldAll(s.tracker, s.inFlight) == View(s.live, s.rows)
  {
    RunConverges(Boot, events, false);
    IndexConverges(After(Boot, events), e);
  }

  lemma Prepend(s: State, e: Event, rest: seq<Event>)
    requires Possible(s, e) && LegalRun(Do(s, e), rest)
    ensures LegalRun(s, [e] + rest) && After(s, [e] + rest) == After(Do(s, e), rest)
  {
    assert ([e] + rest)[1..] == rest;
  }

  /** A node whose update report carries the routine flag: the administrator keeps the old revision for good. */
  lemma RoutineUpdateDiverges() returns (events: seq<Event>)
    ensures LegalRun(Boot, events)
    ensures var s := After(Boot, events); s.admin && s.indexed && FoldAll(s.tracker, s.inFlight) != View(s.live, s.rows)
  {
    var id: Text, one: Text, two: Text := [1], [1], [2];
    var e1 := AcceptNode(id, [], one, 1, [], []);
    var e2 := AcceptAdmin(map[]);
    var e3 := IndexRequest;
    var e4 := UpdateReport(id, true, two, true);
    var s1 := Do(Boot, e1);
    var s2 := Do(s1, e2);
    var s3 := Do(s2, e3);
    CoherenceKept(Boot, e1);
    CoherenceKept(s1, e2);
    IndexConverges(s2, e3);
    ConvergesExactly(s3, e4);
    Prepend(s3, e4, []);
    Prepend(s2, e3, [e4] + []);
    Prepend(s1, e2, [e3] + ([e4] + []));
    Prepend(Boot, e1, [e2] + ([e3] + ([e4] + [])));
    events := [e1] + ([e2] + ([e3] + ([e4] + [])));
  }

  /** A node whose token is revoked with the kill flag: the administrator keeps an offline record of it for good. */
  lemma RevocationDiverges() returns (events: seq<Event>)
    ensures LegalRun(Boot, events)
    ensures var s := After(Boot, events); s.admin && s.indexed && FoldAll(s.tracker, s.inFlight) != View(s.live, s.rows)
  {
    var id: Text, token: Text := [1], [7];
    var e1 := AcceptNode(id, [], [1], 1, [], token);
    var e2 := AcceptAdmin(map[]);
    var e3 := IndexRequest;
    var e4 := RevokeAndKill(token, [id]);
    var s1 := Do(Boot, e1);
    var s2 := Do(s1, e2);
    var s3 := Do(s2, e3);
    CoherenceKept(Boot, e1);
    CoherenceKept(s1, e2);
    IndexConverges(s2, e3);
    ConvergesExactly(s3, e4);
    Prepend(s3, e4, []);
    Prepend(s2, e3, [e4] + []);
    Prepend(s1, e2, [e3] + ([e4] + []));
    Prepend(Boot, e1, [e2] + ([e3] + ([e4] + [])));
    events := [e1] + ([e2] + ([e3] + ([e4] + [])));
  }

  // ----------------------------------------------------------- what is stale

  /** The records the administrator will be left with that are not the server's, and what an event makes of them. */
  ghost function StaleAfter(s: State, e: Event, stale: map<Text, Record>): map<Text, Record>
    requires Possible(s, e)
  {
    match e
    case AcceptNode(id, _, _, _, _, _) => stale - {id}
    case AcceptAdmin(_) => map[]
    case Disconnect(id) => stale - {id}
    case DisconnectAdmin => map[]
    case TurnedAway(id) => if id in s.rows then stale - {id} else stale
    case PingReply(id, _) => stale - {id}
    case UpdateReport(id, worked, revision, routine) =>
      if !worked then stale else if routine then Unannounced(s, id, revision, stale) else stale - {id}
    case ChangeGroup(id, _) => if id in s.rows then stale - {id} else stale
    case Forget(_) => map[]
    case IndexRequest => map[]
    case RevokeAndKill(token, _) => stale + Remains(s.rows, Holders(s.live, token))
    case OtherTraffic => stale
    case Deliver => stale
  }

  /** A revision changes without a notification: the record before stays, unless the change brings the view back to it. */
  ghost function Unannounced(s: State, id: Text, revision: Text, stale: map<Text, Record>): map<Text, Record>
    requires id in s.live
  {
    var kept := if id in stale then stale[id] else Online(id, s.live[id]);
    if kept == Online(id, Revised(s, id, revision).live[id]) then stale - {id} else stale[id := kept]
  }

  /** None of these records is in the view. */
  ghost predicate AllStale(stale: map<Text, Record>, view: map<Text, Record>) {
    forall id :: id in stale ==> id !in view || view[id] != stale[id]
  }

  /** With an index response queued, the tracker settles on the view with the stale records laid over it. */
  ghost predicate SettlesOn(s: State, stale: map<Text, Record>) {
    s.admin && s.indexed ==>
      Settled(s) == View(s.live, s.rows) + stale && AllStale(stale, View(s.live, s.rows))
  }

  lemma PutOver<V>(a: map<Text, V>, b: map<Text, V>, id: Text, v: V)
    ensures (a + b)[id := v] == a[id := v] + (b - {id})
  {
  }

  /** One node's record is renewed in the view and announced: if it was stale, it is no more. */
  lemma RenewedSettles(s: State, t: State, id: Text, stale: map<Text, Record>)
    requires s.admin && s.indexed && SettlesOn(s, stale)
    requires SameBut(View(s.live, s.rows), View(t.live, t.rows), id) && id in View(t.live, t.rows)
    requires Settled(t) == Settled(s)[id := View(t.live, t.rows)[id]]
    ensures SettlesOn(t, stale - {id})
  {
    var v := View(t.live, t.rows)[id];
    PutOver(View(s.live, s.rows), stale, id, v);
    SameWith(View(s.live, s.rows), View(t.live, t.rows), id, v);
  }

  /** A change of one node followed by its notification. */
  lemma ChangeSettles(s: State, t: State, id: Text, stale: map<Text, Record>)
    requires Coherent(s) && SettlesOn(s, stale) && s.admin && s.indexed
    requires Coherent(t) && t.admin == s.admin && t.indexed == s.indexed
    requires t.inFlight == s.inFlight && t.tracker == s.tracker && id in t.rows && id != ADMIN
    requires SameBut(s.live, t.live, id) && SameBut(s.rows, t.rows, id)
    ensures SettlesOn(Notify(t, id, id in t.live), stale - {id})
  {
    NotifySettles(t, id, id in t.live);
    ViewBut(s, t, id);
    RenewedSettles(s, Notify(t, id, id in t.live), id, stale);
  }

  /** A node that leaves, or was never there, is announced offline. */
  lemma LeftSettles(s: State, id: Text, stale: map<Text, Record>)
    requires Coherent(s) && SettlesOn(s, stale) && s.admin && s.indexed && id in s.rows && id != ADMIN
    ensures SettlesOn(Left(s, id), stale - {id})
  {
    NotifySettles(s, id, false);
    var t := Left(s, id);
    ViewBut(s, t, id);
    assert View(t.live, t.rows)[id] == Offline(id, s.rows[id]);
    RenewedSettles(s, t, id, stale);
  }

  lemma UnannouncedSettles(s: State, id: Text, revision: Text, stale: map<Text, Record>)
    requires Coherent(s) && SettlesOn(s, stale) && s.admin && s.indexed && id in s.live
    ensures SettlesOn(Revised(s, id, revision), Unannounced(s, id, revision, stale))
  {
    var t := Revised(s, id, revision);
    ViewBut(s, t, id);
    var view, kept := View(s.live, s.rows), if id in stale then stale[id] else Online(id, s.live[id]);
    assert id != ADMIN && view[id] == Online(id, s.live[id]);
    assert (view + stale)[id] == kept;
    SameWith(view, View(t.live, t.rows), id, Online(id, t.live[id]));
    KeptOver(view, stale, id, Online(id, t.live[id]), kept);
  }

  /** A map laid over another keeps its value where that is changed underneath. */
  lemma KeptOver<V>(a: map<Text, V>, b: map<Text, V>, id: Text, v: V, kept: V)
    requires id in a + b && (a + b)[id] == kept
    ensures a[id := v] + b[id := kept] == a + b
    ensures kept == v ==> a[id := v] + (b - {id}) == a + b
  {
  }

  lemma RevokeSettles(s: State, token: Text, order: seq<Text>, stale: map<Text, Record>)
    requires Coherent(s) && SettlesOn(s, stale) && s.admin && s.indexed && Enumerates(order, Holders(s.live, token))
    ensures SettlesOn(Revoked(s, order), stale + Remains(s.rows, Holders(s.live, token)))
  {
    var killed := KillEach(s, order);
    EnumeratedNames(order, Holders(s.live, token));
    KillRemains(s, order, stale);
    KillShrinks(s, order);
    UnrelatedSettles(killed);
    var view := View(killed.live, killed.rows);
    forall id | id in stale + Remains(s.rows, Names(order))
      ensures id !in view || view[id] != (stale + Remains(s.rows, Names(order)))[id]
    {
      if id in view {
        assert id !in Names(order) && id in View(s.live, s.rows) && view[id] == View(s.live, s.rows)[id];
      }
    }
  }

  lemma NoneStale(s: State)
    requires Converged(s)
    ensures SettlesOn(s, map[])
  {
    NothingAdded(View(s.live, s.rows));
  }

  /** The events that come from nodes. */
  predicate FromNode(e: Event) { e.AcceptNode? || e.Disconnect? || e.TurnedAway? || e.PingReply? || e.UpdateReport? }

  lemma NodeSettles(s: State, e: Event, stale: map<Text, Record>)
    requires Coherent(s) && SettlesOn(s, stale) && s.admin && s.indexed && Possible(s, e) && FromNode(e)
    ensures SettlesOn(Do(s, e), StaleAfter(s, e, stale))
  {
    match e
    case AcceptNode(id, platform, revision, time, ip, token) =>
      CoherenceKept(s, e);
      ChangeSettles(s, Entered(s, id, platform, revision, time, ip, token), id, stale);
    case Disconnect(id) => LeftSettles(s, id, stale);
    case TurnedAway(id) => TurnedAwaySettles(s, id, stale);
    case PingReply(id, latency) => PingSettles(s, id, latency, stale);
    case UpdateReport(id, worked, revision, routine) => UpdateSettles(s, id, worked, revision, routine, stale);
  }

  lemma TurnedAwaySettles(s: State, id: Text, stale: map<Text, Record>)
    requires Coherent(s) && SettlesOn(s, stale) && s.admin && s.indexed && Possible(s, TurnedAway(id))
    ensures SettlesOn(Do(s, TurnedAway(id)), StaleAfter(s, TurnedAway(id), stale))
  {
    if id in s.rows {
      LeftSettles(s, id, stale);
    } else {
      assert s.live - {id} == s.live;
    }
  }

  lemma PingSettles(s: State, id: Text, latency: int64, stale: map<Text, Record>)
    requires Coherent(s) && SettlesOn(s, stale) && s.admin && s.indexed && Possible(s, PingReply(id, latency))
    ensures SettlesOn(Do(s, PingReply(id, latency)), StaleAfter(s, PingReply(id, latency), stale))
  {
    CoherenceKept(s, PingReply(id, latency));
    ChangeSettles(s, Timed(s, id, latency), id, stale);
  }

  lemma UpdateSettles(s: State, id: Text, worked: bool, revision: Text, routine: bool, stale: map<Text, Record>)
    requires Coherent(s) && SettlesOn(s, stale) && s.admin && s.indexed && id in s.live
    ensures SettlesOn(Updated(s, id, worked, revision, routine),
                      StaleAfter(s, UpdateReport(id, worked, revision, routine), stale))
  {
    if worked && routine {
      UnannouncedSettles(s, id, revision, stale);
    } else if worked {
      CoherenceKept(s, UpdateReport(id, true, revision, false));
      ChangeSettles(s, Revised(s, id, revision), id, stale);
    }
  }

  /** Every event leaves the tracker settling on the view with exactly those records over it. */
  lemma StepSettles(s: State, e: Event, stale: map<Text, Record>)
    requires Coherent(s) && SettlesOn(s, stale) && Possible(s, e)
    ensures SettlesOn(Do(s, e), StaleAfter(s, e, stale))
  {
    if e.IndexRequest? || e.Forget? {
      IndexConverges(s, e);
      NoneStale(Do(s, e));
    } else if !(s.admin && s.indexed) {
      StillNotAsked(s, e);
    } else if FromNode(e) {
      NodeSettles(s, e, stale);
    } else {
      match e
      case ChangeGroup(id, group) => RegroupSettles(s, id, group, stale);
      case RevokeAndKill(token, order) => RevokeSettles(s, token, order, stale);
      case OtherTraffic => UnrelatedSettles(s);
      case Deliver => DeliverSettles(s);
      case AcceptAdmin(_) =>
      case DisconnectAdmin =>
    }
  }

  lemma StillNotAsked(s: State, e: Event)
    requires !(s.admin && s.indexed) && Possible(s, e) && !e.IndexRequest? && !e.Forget?
    ensures !(Do(s, e).admin && Do(s, e).indexed)
  {
    match e
    case RevokeAndKill(_, order) => KillShrinks(s, order);
    case _ =>
  }

  lemma RegroupSettles(s: State, id: Text, group: Text, stale: map<Text, Record>)
    requires Coherent(s) && SettlesOn(s, stale) && s.admin && s.indexed && Possible(s, ChangeGroup(id, group))
    ensures SettlesOn(Regrouped(s, id, group), if id in s.rows then stale - {id} else stale)
  {
    if id !in s.rows {
      UnrelatedSettles(s);
    } else {
      CoherenceKept(s, ChangeGroup(id, group));
      var t := Grouped(s, id, group);
      NotifySettles(t, id, id in t.live);
      ChangeSettles(s, t, id, stale);
      UnrelatedSettles(Notify(t, id, id in t.live));
    }
  }

  ghost function StaleAfterAll(s: State, events: seq<Event>, stale: map<Text, Record>): map<Text, Record>
    requires LegalRun(s, events)
    decreases |events|
  {
    if events == [] then stale else StaleAfterAll(Do(s, events[0]), events[1..], StaleAfter(s, events[0], stale))
  }

  lemma {:induction false} RunSettles(s: State, events: seq<Event>, stale: map<Text, Record>)
    requires Coherent(s) && SettlesOn(s, stale) && LegalRun(s, events)
    ensures SettlesOn(After(s, events), StaleAfterAll(s, events, stale))
    decreases |events|
  {
    if events == [] {
    } else {
      CoherenceKept(s, events[0]);
      StepSettles(s, events[0], stale);
      RunSettles(Do(s, events[0]), events[1..], StaleAfter(s, events[0], stale));
    }
  }

  lemma NothingOver(view: map<Text, Record>, stale: map<Text, Record>)
    requires AllStale(stale, view)
    ensures view + stale == view <==> stale == map[]
  {
    NothingAdded(view);
    if stale != map[] {
      var id :| id in stale;
      assert (view + stale)[id] == stale[id];
    }
  }

  /**
   * What the tracker settles on, exactly. In every run, once an index response has been queued, folding what is
   * undelivered into the tracker gives the server's view with the stale records over it: those of nodes whose revision
   * has changed unannounced and of nodes that have been killed, each until its node is announced again or an index goes
   * out. So the replica converges exactly when there are none.
   */
  lemma ReplicaSettles(events: seq<Event>)
    requires LegalRun(Boot, events)
    ensures var s, stale := After(Boot, events), StaleAfterAll(Boot, events, map[]);
            s.admin && s.indexed ==>
              && FoldAll(s.tracker, s.inFlight) == View(s.live, s.rows) + stale
              && (FoldAll(s.tracker, s.inFlight) == View(s.live, s.rows) <==> stale == map[])
  {
    RunSettles(Boot, events, map[]);
    var s, stale := After(Boot, events), StaleAfterAll(Boot, events, map[]);
    if s.admin && s.indexed {
      NothingOver(View(s.live, s.rows), stale);
    }
  }
}
