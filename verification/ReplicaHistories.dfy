/** What a run has made of the server's tables, told by the events alone: for every field, the last event that wrote it. */
module ReplicaHistories {
  import opened Bytes
  import opened ReplicaModel

  // ------------------------------------------------------------- who is there

  /** The node is accepted; its connection ends; its row goes as well. */
  predicate Enters(e: Event, id: Text) { e.AcceptNode? && e.id == id }
  predicate Kills(e: Event, id: Text) { e.RevokeAndKill? && id in e.order }
  predicate Drops(e: Event, id: Text) { (e.Forget? && e.id == id) || Kills(e, id) }
  predicate Parts(e: Event, id: Text) { (e.Disconnect? && e.id == id) || Drops(e, id) }

  /** It was accepted, and has not been forgotten or killed since. */
  ghost predicate Known(events: seq<Event>, id: Text) {
    exists k :: 0 <= k < |events| && Enters(events[k], id) && forall j :: k < j < |events| ==> !Drops(events[j], id)
  }

  /** It was accepted, and its connection has not ended since. */
  ghost predicate Connected(events: seq<Event>, id: Text) {
    exists k :: 0 <= k < |events| && Enters(events[k], id) && forall j :: k < j < |events| ==> !Parts(events[j], id)
  }

  lemma KnownMore(events: seq<Event>, e: Event, id: Text)
    ensures Known(events + [e], id) <==> Enters(e, id) || (Known(events, id) && !Drops(e, id))
  {
    var more := events + [e];
    if Enters(e, id) {
      assert Enters(more[|events|], id);
    }
    if k :| 0 <= k < |events| && Enters(events[k], id) && forall j :: k < j < |events| ==> !Drops(events[j], id) {
      assert Enters(more[k], id) && forall j :: k < j < |events| ==> !Drops(more[j], id);
    }
    if k :| 0 <= k < |more| && Enters(more[k], id) && forall j :: k < j < |more| ==> !Drops(more[j], id) {
      if k < |events| {
        assert Enters(events[k], id) && !Drops(more[|events|], id);
        assert forall j :: k < j < |events| ==> events[j] == more[j];
      }
    }
  }

  lemma ConnectedMore(events: seq<Event>, e: Event, id: Text)
    ensures Connected(events + [e], id) <==> Enters(e, id) || (Connected(events, id) && !Parts(e, id))
  {
    var more := events + [e];
    if Enters(e, id) {
      assert Enters(more[|events|], id);
    }
    if k :| 0 <= k < |events| && Enters(events[k], id) && forall j :: k < j < |events| ==> !Parts(events[j], id) {
      assert Enters(more[k], id) && forall j :: k < j < |events| ==> !Parts(more[j], id);
    }
    if k :| 0 <= k < |more| && Enters(more[k], id) && forall j :: k < j < |more| ==> !Parts(more[j], id) {
      if k < |events| {
        assert Enters(events[k], id) && !Parts(more[|events|], id);
        assert forall j :: k < j < |events| ==> events[j] == more[j];
      }
    }
  }

  // ----------------------------------------------------------- what it holds

  function Front(events: seq<Event>): seq<Event>
    requires events != []
  {
    events[..|events| - 1]
  }

  function Last(events: seq<Event>): Event
    requires events != []
  {
    events[|events| - 1]
  }

  /** The last acceptance of the node. */
  function Acceptance(events: seq<Event>, id: Text): (e: Event)
    ensures e.AcceptNode?
  {
    if events == [] then AcceptNode(id, [], [], 0, [], [])
    else if Enters(Last(events), id) then Last(events) else Acceptance(Front(events), id)
  }

  /** The last revision it connected with or reported after an update that worked. */
  function RevisionOf(events: seq<Event>, id: Text): Text {
    if events == [] then []
    else
      var e := Last(events);
      if Enters(e, id) then e.revision
      else if e.UpdateReport? && e.id == id && e.worked then e.revision
      else RevisionOf(Front(events), id)
  }

  /** The last group it was given while it was known; it is nobody's again when its row goes. */
  ghost function GroupOf(events: seq<Event>, id: Text): Text {
    if events == [] then []
    else
      var e := Last(events);
      if Drops(e, id) then []
      else if e.ChangeGroup? && e.id == id && Known(Front(events), id) then e.group
      else GroupOf(Front(events), id)
  }

  /** The last latency of its present connection. */
  function LatencyOf(events: seq<Event>, id: Text): int64 {
    if events == [] then 0
    else
      var e := Last(events);
      if Enters(e, id) then 0
      else if e.PingReply? && e.id == id then e.latency
      else LatencyOf(Front(events), id)
  }

  ghost function RowOf(events: seq<Event>, id: Text): Row {
    var a := Acceptance(events, id);
    Row(a.platform, RevisionOf(events, id), a.time, GroupOf(events, id))
  }

  ghost function NodeOf(events: seq<Event>, id: Text): Node {
    var a := Acceptance(events, id);
    Node(RowOf(events, id), a.ip, LatencyOf(events, id), a.token)
  }

  /** The administrator's place, and whether its last holder has been sent an index. */
  function HasAdmin(events: seq<Event>): bool {
    if events == [] then false
    else if Last(events).AcceptAdmin? then true
    else if Last(events).DisconnectAdmin? then false
    else HasAdmin(Front(events))
  }

  function HasIndex(events: seq<Event>): bool {
    if events == [] then false
    else if Last(events).IndexRequest? || Last(events).Forget? then true
    else if Last(events).AcceptAdmin? || Last(events).DisconnectAdmin? then false
    else HasIndex(Front(events))
  }

  /** Table and map hold of a node what the events say. */
  ghost predicate Tells(s: State, events: seq<Event>, id: Text) {
    && (id in s.rows <==> Known(events, id)) && (id in s.rows ==> s.rows[id] == RowOf(events, id))
    && (id in s.live <==> Connected(events, id)) && (id in s.live ==> s.live[id] == NodeOf(events, id))
    && (id !in s.rows ==> GroupOf(events, id) == [])
  }

  // -------------------------------------------------------------- single steps

  /** How the account goes on when one event more has happened. */
  lemma AccountMore(events: seq<Event>, e: Event, id: Text)
    ensures Known(events + [e], id) <==> Enters(e, id) || (Known(events, id) && !Drops(e, id))
    ensures Connected(events + [e], id) <==> Enters(e, id) || (Connected(events, id) && !Parts(e, id))
    ensures Acceptance(events + [e], id) == if Enters(e, id) then e else Acceptance(events, id)
    ensures RevisionOf(events + [e], id) ==
            if Enters(e, id) || (e.UpdateReport? && e.id == id && e.worked) then e.revision else RevisionOf(events, id)
    ensures GroupOf(events + [e], id) ==
            if Drops(e, id) then []
            else if e.ChangeGroup? && e.id == id && Known(events, id) then e.group else GroupOf(events, id)
    ensures LatencyOf(events + [e], id) ==
            if Enters(e, id) then 0 else if e.PingReply? && e.id == id then e.latency else LatencyOf(events, id)
  {
    KnownMore(events, e, id);
    ConnectedMore(events, e, id);
    assert Front(events + [e]) == events && Last(events + [e]) == e;
  }

  lemma AcceptTells(s: State, events: seq<Event>, e: Event, id: Text)
    requires Coherent(s) && Possible(s, e) && Tells(s, events, id) && e.AcceptNode?
    ensures Tells(Do(s, e), events + [e], id)
  {
    AccountMore(events, e, id);
  }

  lemma PingTells(s: State, events: seq<Event>, e: Event, id: Text)
    requires Coherent(s) && Possible(s, e) && Tells(s, events, id) && e.PingReply?
    ensures Tells(Do(s, e), events + [e], id)
  {
    AccountMore(events, e, id);
  }

  /** A revision is written to row and connection alike. */
  lemma RevisedRow(s: State, node: Text, revision: Text)
    requires Coherent(s) && node in s.live
    ensures var t, n := Revised(s, node, revision), s.live[node];
            && t.rows == s.rows[node := s.rows[node].(revision := revision)]
            && t.live == s.live[node := n.(row := n.row.(revision := revision))]
  {
  }

  lemma UpdateTells(s: State, events: seq<Event>, e: Event, id: Text)
    requires Coherent(s) && Possible(s, e) && Tells(s, events, id) && e.UpdateReport?
    ensures Tells(Do(s, e), events + [e], id)
  {
    AccountMore(events, e, id);
    RevisedRow(s, e.id, e.revision);
  }

  lemma GroupTells(s: State, events: seq<Event>, e: Event, id: Text)
    requires Coherent(s) && Possible(s, e) && Tells(s, events, id) && e.ChangeGroup?
    ensures Tells(Do(s, e), events + [e], id)
  {
    AccountMore(events, e, id);
  }

  lemma KillTells(s: State, events: seq<Event>, e: Event, id: Text)
    requires Coherent(s) && Possible(s, e) && Tells(s, events, id) && e.RevokeAndKill?
    ensures Tells(Do(s, e), events + [e], id)
  {
    AccountMore(events, e, id);
    KillShrinks(s, e.order);
  }

  lemma LeaveTells(s: State, events: seq<Event>, e: Event, id: Text)
    requires Coherent(s) && Possible(s, e) && Tells(s, events, id) && (e.Disconnect? || e.Forget? || e.TurnedAway?)
    ensures Tells(Do(s, e), events + [e], id)
  {
    AccountMore(events, e, id);
  }

  /** What an event does to one node's row and connection, and to nobody else's. */
  lemma TellsNext(s: State, events: seq<Event>, e: Event, id: Text)
    requires Coherent(s) && Possible(s, e) && Tells(s, events, id)
    ensures Tells(Do(s, e), events + [e], id)
  {
    match e
    case AcceptNode(_, _, _, _, _, _) => AcceptTells(s, events, e, id);
    case UpdateReport(_, _, _, _) => UpdateTells(s, events, e, id);
    case PingReply(_, _) => PingTells(s, events, e, id);
    case ChangeGroup(_, _) => GroupTells(s, events, e, id);
    case RevokeAndKill(_, _) => KillTells(s, events, e, id);
    case Disconnect(_) => LeaveTells(s, events, e, id);
    case Forget(_) => LeaveTells(s, events, e, id);
    case TurnedAway(_) => LeaveTells(s, events, e, id);
    case _ => AccountMore(events, e, id);
  }

  // --------------------------------------------------------- what is announced

  /** The events that concern one node and are announced; a report flagged as a routine's is not. */
  predicate Announces(e: Event) {
    e.AcceptNode? || e.Disconnect? || e.TurnedAway? || e.PingReply? || e.ChangeGroup?
    || (e.UpdateReport? && e.worked && !e.routine)
  }

  /** A node's record as it stands in the node list. */
  ghost function RecordNow(t: State, id: Text): seq<Message> {
    if id in View(t.live, t.rows) then [Change(View(t.live, t.rows)[id])] else []
  }

  /** What an administrator is sent of an event, told by the node list behind it. */
  ghost function Told(s: State, e: Event, t: State): seq<Message> {
    (if Announces(e) then RecordNow(t, e.id) else [])
    + (if e.Forget? && e.id in s.live && e.id in s.rows then [Change(Offline(e.id, s.rows[e.id]))] else [])
    + (if e.RevokeAndKill? then Obituaries(s, e.order) else [])
    + (if e.ChangeGroup? || e.Forget? || e.RevokeAndKill? || e.OtherTraffic? then [Unrelated] else [])
    + (if e.IndexRequest? || e.Forget? then [Index(View(t.live, t.rows))] else [])
  }

  ghost function Obituaries(s: State, ids: seq<Text>): (ms: seq<Message>)
    ensures |ms| == |ids|
    ensures forall k :: 0 <= k < |ids| && ids[k] in s.rows ==> ms[k] == Change(Offline(ids[k], s.rows[ids[k]]))
  {
    seq(|ids|, k requires 0 <= k < |ids| => if ids[k] in s.rows then Change(Offline(ids[k], s.rows[ids[k]])) else Unrelated)
  }

  lemma KillOneSends(s: State, id: Text)
    requires s.admin && id in s.rows
    ensures var t := KillOne(s, id);
            && t.inFlight == s.inFlight + [Change(Offline(id, s.rows[id]))] && t.rows == s.rows - {id}
            && t.admin && t.tracker == s.tracker
  {
  }

  /** Nodes that have rows, each named once. */
  ghost predicate Doomed(rows: map<Text, Row>, ids: seq<Text>) {
    && (forall k :: 0 <= k < |ids| ==> ids[k] in rows)
    && forall j, k :: 0 <= j < k < |ids| ==> ids[j] != ids[k]
  }

  lemma ObituariesOneByOne(s: State, t: State, ids: seq<Text>)
    requires ids != [] && t.rows == s.rows - {ids[0]} && Doomed(s.rows, ids)
    ensures Doomed(t.rows, ids[1..])
    ensures Obituaries(s, ids) == [Change(Offline(ids[0], s.rows[ids[0]]))] + Obituaries(t, ids[1..])
  {
    var rest := ids[1..];
    forall k | 0 <= k < |rest| ensures rest[k] in t.rows && t.rows[rest[k]] == s.rows[rest[k]] {
      assert rest[k] == ids[k + 1] != ids[0];
    }
  }

  lemma Behind<T>(a: seq<T>, b: seq<T>, c: seq<T>)
    ensures a + b + c == a + (b + c)
  {
  }

  lemma {:induction false} KillsTold(s: State, ids: seq<Text>)
    requires s.admin && Doomed(s.rows, ids)
    ensures KillEach(s, ids).inFlight == s.inFlight + Obituaries(s, ids) && KillEach(s, ids).tracker == s.tracker
    decreases |ids|
  {
    if ids == [] {
    } else {
      var t := KillOne(s, ids[0]);
      KillOneSends(s, ids[0]);
      ObituariesOneByOne(s, t, ids);
      KillsTold(t, ids[1..]);
      Behind(s.inFlight, [Change(Offline(ids[0], s.rows[ids[0]]))], Obituaries(t, ids[1..]));
    }
  }

  ghost predicate Sends(s: State, e: Event)
    requires Possible(s, e)
  {
    Do(s, e).inFlight == s.inFlight + Told(s, e, Do(s, e)) && Do(s, e).tracker == s.tracker
  }

  lemma ArrivalSends(s: State, e: Event)
    requires Coherent(s) && Possible(s, e) && s.admin && (e.AcceptNode? || e.PingReply?)
    ensures Sends(s, e)
  {
  }

  lemma LeaveSends(s: State, e: Event)
    requires Coherent(s) && Possible(s, e) && s.admin && (e.Disconnect? || e.TurnedAway?)
    ensures Sends(s, e)
  {
  }

  lemma UpdateSends(s: State, e: Event)
    requires Coherent(s) && Possible(s, e) && s.admin && e.UpdateReport?
    ensures Sends(s, e)
  {
    RevisedRow(s, e.id, e.revision);
  }

  lemma GroupSends(s: State, e: Event)
    requires Coherent(s) && Possible(s, e) && s.admin && e.ChangeGroup?
    ensures Sends(s, e)
  {
  }

  lemma ForgetSends(s: State, e: Event)
    requires Coherent(s) && Possible(s, e) && s.admin && e.Forget?
    ensures Sends(s, e)
  {
  }

  lemma KillSends(s: State, e: Event)
    requires Coherent(s) && Possible(s, e) && s.admin && e.RevokeAndKill?
    ensures Sends(s, e)
  {
    KillsTold(s, e.order);
    assert Do(s, e).inFlight == s.inFlight + Obituaries(s, e.order) + [Unrelated];
  }

  /**
   * Every event sends the administrator exactly this, behind what has been sent before: the record that the node now
   * has in the list, if the event is one that is announced; and the tracker is not touched by anything but a delivery.
   */
  lemma SendsExactly(s: State, e: Event)
    requires Coherent(s) && Possible(s, e) && s.admin && !e.AcceptAdmin? && !e.DisconnectAdmin? && !e.Deliver?
    ensures Do(s, e).inFlight == s.inFlight + Told(s, e, Do(s, e)) && Do(s, e).tracker == s.tracker
  {
    match e
    case AcceptNode(_, _, _, _, _, _) => ArrivalSends(s, e);
    case PingReply(_, _) => ArrivalSends(s, e);
    case Disconnect(_) => LeaveSends(s, e);
    case TurnedAway(_) => LeaveSends(s, e);
    case UpdateReport(_, _, _, _) => UpdateSends(s, e);
    case ChangeGroup(_, _) => GroupSends(s, e);
    case Forget(_) => ForgetSends(s, e);
    case RevokeAndKill(_, _) => KillSends(s, e);
    case _ =>
  }

  /** Without an administrator nothing is sent; a new one is greeted, and starts with nothing else under way. */
  lemma SendsNothing(s: State, e: Event)
    requires Possible(s, e)
    ensures !s.admin && !e.AcceptAdmin? ==> Do(s, e).inFlight == (if e.DisconnectAdmin? then [] else s.inFlight)
    ensures e.AcceptAdmin? ==> Do(s, e).inFlight == [Unrelated] && Do(s, e).tracker == e.tracker
    ensures e.DisconnectAdmin? ==> Do(s, e).inFlight == [] && Do(s, e).tracker == s.tracker
  {
  }

  // --------------------------------------------------------------------- runs

  /** All but the last event of a run are a run, behind which the last can happen. */
  lemma {:induction false} AllButLast(s: State, events: seq<Event>)
    requires events != [] && LegalRun(s, events)
    ensures LegalRun(s, Front(events)) && Possible(After(s, Front(events)), Last(events))
    ensures After(s, events) == Do(After(s, Front(events)), Last(events))
    decreases |events|
  {
    if |events| == 1 {
    } else {
      AllButLast(Do(s, events[0]), events[1..]);
      assert Front(events[1..]) == Front(events)[1..];
    }
  }

  /**
   * In every run a node is in the table exactly if it was accepted and has not been forgotten or killed since, with the
   * platform and time it was accepted with, the revision it last had, and the group it was last given; and it is
   * connected exactly if its connection has not ended since, with the address, latency and token of that connection.
   */
  lemma {:induction false} RunTells(events: seq<Event>, id: Text)
    requires LegalRun(Boot, events)
    ensures Tells(After(Boot, events), events, id)
    decreases |events|
  {
    if events == [] {
    } else {
      AllButLast(Boot, events);
      RunTells(Front(events), id);
      RunConverges(Boot, Front(events), false);
      assert events == Front(events) + [Last(events)];
      TellsNext(After(Boot, Front(events)), Front(events), Last(events), id);
    }
  }

  /** In every run, the nodes that a revocation kills are those that are connected with the token. */
  lemma RevokedExactly(events: seq<Event>, e: Event, id: Text)
    requires LegalRun(Boot, events) && Possible(After(Boot, events), e) && e.RevokeAndKill?
    ensures id in e.order <==> Connected(events, id) && Acceptance(events, id).token == e.token
  {
    RunTells(events, id);
  }

  /** There is an administrator, and it has been sent an index, exactly as the events say. */
  lemma {:induction false} RunTellsAdmin(events: seq<Event>)
    requires LegalRun(Boot, events)
    ensures var s := After(Boot, events); (s.admin <==> HasAdmin(events)) && (s.indexed <==> HasIndex(events))
    decreases |events|
  {
    if events == [] {
    } else {
      AllButLast(Boot, events);
      RunTellsAdmin(Front(events));
      AdminNext(After(Boot, Front(events)), Last(events));
    }
  }

  lemma AdminNext(s: State, e: Event)
    requires Possible(s, e)
    ensures Do(s, e).admin <==> e.AcceptAdmin? || (s.admin && !e.DisconnectAdmin?)
    ensures Do(s, e).indexed <==> e.IndexRequest? || e.Forget? || (s.indexed && !e.AcceptAdmin? && !e.DisconnectAdmin?)
  {
    if e.RevokeAndKill? {
      KillShrinks(s, e.order);
    }
  }

  /** A node's record as the events have it: that of its connection, or an offline one of its row. */
  ghost function RecordTold(events: seq<Event>, id: Text): Record {
    if Connected(events, id) then Record(id, RowOf(events, id), Acceptance(events, id).ip, LatencyOf(events, id), true)
    else Record(id, RowOf(events, id), [], 0, false)
  }

  /**
   * The administrator's list, told by the events alone. When it has had an index, and nothing silent has happened since,
   * what it settles on names exactly the nodes that were accepted and not forgotten or killed since, each as its last
   * events have left it, and online exactly if its connection has not ended.
   */
  lemma HistoryReplicated(events: seq<Event>, id: Text)
    requires LegalRun(Boot, events) && NothingMissed(Boot, events, true) && HasAdmin(events) && HasIndex(events)
    ensures var s := After(Boot, events);
            var settled := FoldAll(s.tracker, s.inFlight);
            && (id in settled <==> id != ADMIN && Known(events, id))
            && (id in settled ==> settled[id] == RecordTold(events, id))
            && (s.inFlight == [] ==> s.tracker == settled)
  {
    RunTells(events, id);
    RunTellsAdmin(events);
    ReplicaConverges(events);
    RunConverges(Boot, events, true);
  }

  // --------------------------------------------------------------- forgetting

  /** Nothing is known of a node, and an administrator who has had an index will not hear of it. */
  ghost predicate Unheard(s: State, id: Text) {
    && Coherent(s) && id !in s.rows && id !in s.live
    && (s.admin && s.indexed ==> id !in Settled(s))
  }

  lemma UnheardKill(s: State, order: seq<Text>, id: Text)
    requires Unheard(s, id) && id !in order
    ensures Unheard(KillEach(s, order), id)
    decreases |order|
  {
    if order == [] {
    } else {
      NotifySettles(s, order[0], false);
      UnheardKill(KillOne(s, order[0]), order[1..], id);
    }
  }

  lemma UnheardNext(s: State, e: Event, id: Text)
    requires Unheard(s, id) && Possible(s, e) && !Enters(e, id)
    ensures Unheard(Do(s, e), id)
  {
    CoherenceKept(s, e);
    match e
    case AcceptNode(other, platform, revision, time, ip, token) =>
      NotifySettles(Entered(s, other, platform, revision, time, ip, token), other, true);
    case Disconnect(other) => NotifySettles(s, other, false);
    case TurnedAway(other) => NotifySettles(s, other, false);
    case PingReply(other, latency) => NotifySettles(Timed(s, other, latency), other, true);
    case UpdateReport(other, _, revision, _) => NotifySettles(Revised(s, other, revision), other, true);
    case ChangeGroup(other, group) =>
      UnrelatedSettles(s);
      if other in s.rows {
        var t := Grouped(s, other, group);
        NotifySettles(t, other, other in t.live);
        UnrelatedSettles(Notify(t, other, other in t.live));
      }
    case Forget(_) => IndexConverges(s, e);
    case IndexRequest => IndexConverges(s, e);
    case RevokeAndKill(_, order) =>
      UnheardKill(s, order, id);
      UnrelatedSettles(KillEach(s, order));
    case OtherTraffic => UnrelatedSettles(s);
    case Deliver => DeliverSettles(s);
    case _ =>
  }

  lemma {:induction false} UnheardRun(s: State, events: seq<Event>, id: Text)
    requires Unheard(s, id) && LegalRun(s, events) && forall k :: 0 <= k < |events| ==> !Enters(events[k], id)
    ensures Unheard(After(s, events), id)
    decreases |events|
  {
    if events == [] {
    } else {
      UnheardNext(s, events[0], id);
      UnheardRun(Do(s, events[0]), events[1..], id);
    }
  }

  /**
   * Behind a forget request, whatever was known of the node, and until a node of that name is accepted again, it is in
   * no table; and no administrator who has been sent an index since will settle on a record of it, or hold one when
   * everything sent has been delivered.
   */
  lemma ForgottenStays(before: seq<Event>, id: Text, behind: seq<Event>)
    requires LegalRun(Boot, before) && Possible(After(Boot, before), Forget(id))
    requires LegalRun(Do(After(Boot, before), Forget(id)), behind)
    requires forall k :: 0 <= k < |behind| ==> !Enters(behind[k], id)
    ensures var s := After(Do(After(Boot, before), Forget(id)), behind);
            && id !in s.rows && id !in s.live
            && (s.admin && s.indexed ==>
                  id !in FoldAll(s.tracker, s.inFlight) && (s.inFlight == [] ==> id !in s.tracker))
  {
    var s := After(Boot, before);
    RunConverges(Boot, before, false);
    IndexConverges(s, Forget(id));
    RunTells(before, id);
    LeaveTells(s, before, Forget(id), id);
    KnownMore(before, Forget(id), id);
    ConnectedMore(before, Forget(id), id);
    UnheardRun(Do(s, Forget(id)), behind, id);
  }
}
