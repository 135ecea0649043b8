/** Server and control program together: whatever they are made to do, the replica model describes it. */
module Replica {
  import opened Bytes
  import opened Arguments
  import opened Ident
  import opened ReplicaModel
  import opened ReplicaHistories
  import opened NodeRecords
  import opened Clients
  import opened CmdHandling
  import opened ControlProgram

  /** What can come to the server, and the delivery of one stream to the control program. */
  datatype Command =
    | NodeConnects(node: Text, platform: Text, revision: Text, time: int64, ip: Text, token: Text, now: int64)
    | AdminConnects(ip: Text, time: int64, now: int64)
    | LoginFails(node: Text)
    | Disconnects(id: Text)
    | PingReport(id: Text, now: int64)
    | NodeUpdated(id: Text, worked: bool, revision: Text, flags: bv8)
    | GroupRequest(id: Text, group: Text)
    | ForgetRequest(id: Text)
    | DownloadIndex
    | RevokeRequest(token: Text, deleted: bool, kill: bool)
    | DeliverNext

  /** The control program reads the oldest stream queued to it. */
  method Deliver(server: Server, tracker: ClientTracker)
    requires server.Valid() && server.currentAdmin != null && server.currentAdmin.outbox != []
    modifies server`inFlight, server.Admin()`outbox, tracker
    ensures server.Valid() && old(server.inFlight) != []
    ensures server.Abstract(tracker.records) == Delivered(old(server.Abstract(tracker.records)))
    ensures server.currentAdmin.outbox == old(server.currentAdmin.outbox)[1..]
  {
    var admin := server.currentAdmin;
    var s := admin.outbox[0];
    DecodedFirst(admin.outbox);
    admin.outbox := admin.outbox[1..];
    server.inFlight := server.inFlight[1..];
    Receive(tracker, s);
  }

  /** Everything that has been queued is delivered; then the control program holds the server's node list. */
  method DeliverAll(server: Server, tracker: ClientTracker)
    requires server.Valid() && server.currentAdmin != null && server.indexed
    requires Converged(server.Abstract(tracker.records))
    modifies server`inFlight, server.Admin()`outbox, tracker
    ensures server.Valid() && server.inFlight == []
    ensures tracker.records == View(server.live, server.nodeInfo)
  {
    while server.currentAdmin.outbox != []
      invariant server.Valid() && server.currentAdmin != null && server.indexed
      invariant Converged(server.Abstract(tracker.records))
      decreases |server.currentAdmin.outbox|
    {
      ghost var s := server.Abstract(tracker.records);
      Deliver(server, tracker);
      DeliverSettles(s);
    }
  }

  /** A revocation that is to kill and can. */
  predicate Kills(c: Command) { c.RevokeRequest? && c.deleted && c.kill && c.token != [] }

  /** The event a command makes of a state, if it makes one. Only a latency and an order are left open. */
  ghost predicate Makes(s: State, c: Command, made: Option<Event>) {
    match c
    case NodeConnects(node, platform, revision, time, ip, token, _) =>
      made == if node != ADMIN && time != 0 && node !in s.live then Some(AcceptNode(node, platform, revision, time, ip, token))
              else None
    case AdminConnects(_, _, _) => made == Some(AcceptAdmin(s.tracker))
    case LoginFails(node) => made == if node != ADMIN && node !in s.live then Some(TurnedAway(node)) else None
    case Disconnects(id) =>
      made == if id in s.live then Some(Disconnect(id)) else if id == ADMIN && s.admin then Some(DisconnectAdmin) else None
    case PingReport(id, _) =>
      if id in s.live then made.Some? && made.value.PingReply? && made.value.id == id else made == None
    case NodeUpdated(id, worked, revision, flags) =>
      made == if id in s.live then Some(UpdateReport(id, worked, revision, flags & IDENT_ISROUTINE_BIT != 0))
              else if id == ADMIN && s.admin then Some(DisconnectAdmin) else None
    case GroupRequest(id, group) =>
      made == if !s.admin then None else if id == ADMIN then Some(DisconnectAdmin) else Some(ChangeGroup(id, group))
    case ForgetRequest(id) => made == if s.admin && id != ADMIN then Some(Forget(id)) else None
    case DownloadIndex => made == if s.admin then Some(IndexRequest) else None
    case RevokeRequest(token, deleted, kill) =>
      if s.admin && Kills(c) then made.Some? && made.value.RevokeAndKill? && made.value.token == token
      else made == if s.admin && !(deleted && kill) then Some(OtherTraffic) else None
    case DeliverNext => made == if s.admin && s.inFlight != [] then Some(Event.Deliver) else None
  }

  ghost function Next(s: State, made: Option<Event>): State {
    if made.Some? && Possible(s, made.value) then Do(s, made.value) else s
  }

  /** A command has made what it makes, and that has happened. */
  ghost predicate Made(s: State, c: Command, made: Option<Event>, t: State) {
    Makes(s, c, made) && (made.Some? ==> Possible(s, made.value)) && t == Next(s, made)
  }

  /** One event has happened. */
  ghost predicate Did(s: State, e: Event, t: State) { Possible(s, e) && t == Do(s, e) }

  /** What a command makes has happened, so the command has made it. */
  lemma MadeSome(s: State, c: Command, e: Event, t: State)
    requires Makes(s, c, Some(e)) && Did(s, e, t)
    ensures Made(s, c, Some(e), t)
  {
  }

  method ConnectNode(server: Server, tracker: ClientTracker, c: Command) returns (ghost made: Option<Event>)
    requires server.Valid() && c.NodeConnects? && c.node != ADMIN && c.time != 0
    modifies server`clientMap, server`currentAdmin, server`nodeInfo, server`live, server`inFlight, server.Admin()`outbox
    ensures server.Valid() && fresh(server.clientMap.Values - old(server.clientMap.Values))
    ensures Made(old(server.Abstract(tracker.records)), c, made, server.Abstract(tracker.records))
  {
    var client :=
      CmdHandling.AcceptNode(server, c.node, c.ip, c.token, c.platform, c.revision, c.time, c.now, tracker.records);
    made := if client != null then Some(AcceptNode(c.node, c.platform, c.revision, c.time, c.ip, c.token)) else None;
  }

  method Connect(server: Server, tracker: ClientTracker, c: Command) returns (ghost made: Option<Event>)
    requires server.Valid() && !server.insideHandleInterface && (c.NodeConnects? || c.AdminConnects?)
    modifies server`clientMap, server`currentAdmin, server`nodeInfo, server`live, server`inFlight, server`indexed
    modifies server`skipHeadRelease, server`resetLoopAfter
    modifies server.Admin(), server.clientMap.Values
    ensures server.Valid() && fresh(server.clientMap.Values - old(server.clientMap.Values))
    ensures Made(old(server.Abstract(tracker.records)), c, made, server.Abstract(tracker.records))
  {
    if c.AdminConnects? {
      var _ := CmdHandling.AcceptAdmin(server, c.ip, c.time, c.now, tracker.records, tracker.records);
      made := Some(AcceptAdmin(tracker.records));
    } else if c.node != ADMIN && c.time != 0 {
      made := ConnectNode(server, tracker, c);
    } else {
      made := None;
    }
  }

  /** A node whose token is not known is taken out though it was never let in. */
  method FailLogin(server: Server, tracker: ClientTracker, node: Text) returns (ghost made: Option<Event>)
    requires server.Valid() && !server.insideHandleInterface
    modifies server`clientMap, server`currentAdmin, server`nodeInfo, server`live, server`inFlight, server`indexed
    modifies server`skipHeadRelease, server`resetLoopAfter
    modifies server.Admin(), server.clientMap.Values
    ensures server.Valid() && server.clientMap.Values <= old(server.clientMap.Values)
    ensures Made(old(server.Abstract(tracker.records)), LoginFails(node), made, server.Abstract(tracker.records))
  {
    made := None;
    if node != ADMIN && server.LookupClient(node) == null {
      var stranger := new ClientObj(node, [], [], [], [], 0, 0);
      server.ProcessNodeDisconnect(stranger, tracker.records);
      made := Some(TurnedAway(node));
    }
  }

  /** A client goes, or is taken for malicious and made to go. */
  method Leave(server: Server, tracker: ClientTracker, client: ClientObj) returns (ghost made: Option<Event>)
    requires server.Valid() && Mapped(server, client)
    modifies server`clientMap, server`currentAdmin, server`nodeInfo, server`live, server`inFlight, server`indexed
    modifies server`skipHeadRelease, server`resetLoopAfter
    modifies server.Admin(), server.clientMap.Values
    ensures server.Valid() && server.clientMap.Values <= old(server.clientMap.Values)
    ensures made == if client.id == ADMIN then Some(DisconnectAdmin) else Some(Disconnect(client.id))
    ensures Did(old(server.Abstract(tracker.records)), made.value, server.Abstract(tracker.records))
  {
    server.ProcessNodeDisconnect(client, tracker.records);
    made := if client.id == ADMIN then Some(DisconnectAdmin) else Some(Disconnect(client.id));
  }

  method ReportPing(server: Server, tracker: ClientTracker, client: ClientObj, now: int64) returns (ghost made: Option<Event>)
    requires server.Valid() && Mapped(server, client)
    modifies server`clientMap, server`currentAdmin, server`nodeInfo, server`live, server`inFlight, server`indexed
    modifies server`skipHeadRelease, server`resetLoopAfter
    modifies server.Admin(), server.clientMap.Values
    ensures server.Valid() && server.clientMap.Values <= old(server.clientMap.Values)
    ensures Made(old(server.Abstract(tracker.records)), PingReport(client.id, now), made, server.Abstract(tracker.records))
  {
    HandlePingReport(server, client, now, tracker.records);
    made := if client.id == ADMIN then None else Some(PingReply(client.id, client.latency));
  }

  method Update(server: Server, tracker: ClientTracker, client: ClientObj, worked: bool, revision: Text, flags: bv8)
    requires server.Valid() && Mapped(server, client) && client.id != ADMIN && Coherent(server.Abstract(tracker.records))
    modifies server`clientMap, server`currentAdmin, server`nodeInfo, server`live, server`inFlight, server`indexed
    modifies server`skipHeadRelease, server`resetLoopAfter
    modifies server.Admin(), server.clientMap.Values
    ensures server.Valid() && server.clientMap.Values <= old(server.clientMap.Values)
    ensures Did(old(server.Abstract(tracker.records)),
                UpdateReport(client.id, worked, revision, flags & IDENT_ISROUTINE_BIT != 0),
                server.Abstract(tracker.records))
  {
    ghost var s, routine := server.Abstract(tracker.records), flags & IDENT_ISROUTINE_BIT != 0;
    LiveHasRow(s, client.id);
    HandleUpdateReport(server, client, worked, revision, flags, tracker.records);
    UpdateDone(s, client.id, worked, revision, routine, server.Abstract(tracker.records));
  }

  lemma LiveHasRow(s: State, id: Text)
    requires Coherent(s) && id in s.live
    ensures id in s.rows
  {
  }

  lemma UpdateDone(s: State, id: Text, worked: bool, revision: Text, routine: bool, t: State)
    requires id in s.live && t == Updated(s, id, worked, revision, routine)
    ensures Did(s, UpdateReport(id, worked, revision, routine), t)
  {
  }

  /** A node's account of its update; an administrator that sends one is taken for malicious. */
  method ReportUpdate(server: Server, tracker: ClientTracker, client: ClientObj, worked: bool, revision: Text, flags: bv8)
    returns (ghost made: Option<Event>)
    requires server.Valid() && Mapped(server, client) && Coherent(server.Abstract(tracker.records))
    modifies server`clientMap, server`currentAdmin, server`nodeInfo, server`live, server`inFlight, server`indexed
    modifies server`skipHeadRelease, server`resetLoopAfter
    modifies server.Admin(), server.clientMap.Values
    ensures server.Valid() && server.clientMap.Values <= old(server.clientMap.Values)
    ensures Made(old(server.Abstract(tracker.records)), NodeUpdated(client.id, worked, revision, flags), made,
                 server.Abstract(tracker.records))
  {
    ghost var s, c := server.Abstract(tracker.records), NodeUpdated(client.id, worked, revision, flags);
    if client.id == ADMIN {
      made := Leave(server, tracker, client);
    } else {
      Update(server, tracker, client, worked, revision, flags);
      made := Some(UpdateReport(client.id, worked, revision, flags & IDENT_ISROUTINE_BIT != 0));
    }
    MadeSome(s, c, made.value, server.Abstract(tracker.records));
  }

  method Report(server: Server, tracker: ClientTracker, c: Command) returns (ghost made: Option<Event>)
    requires server.Valid() && Coherent(server.Abstract(tracker.records))
    requires c.Disconnects? || c.PingReport? || c.NodeUpdated?
    modifies server`clientMap, server`currentAdmin, server`nodeInfo, server`live, server`inFlight, server`indexed
    modifies server`skipHeadRelease, server`resetLoopAfter
    modifies server.Admin(), server.clientMap.Values
    ensures server.Valid() && server.clientMap.Values <= old(server.clientMap.Values)
    ensures Made(old(server.Abstract(tracker.records)), c, made, server.Abstract(tracker.records))
  {
    made := None;
    var client := server.LookupClient(c.id);
    if client != null {
      if c.Disconnects? {
        made := Leave(server, tracker, client);
      } else if c.PingReport? {
        made := ReportPing(server, tracker, client, c.now);
      } else {
        made := ReportUpdate(server, tracker, client, c.worked, c.revision, c.flags);
      }
    }
  }

  method Assign(server: Server, tracker: ClientTracker, id: Text, group: Text)
    requires server.Valid() && server.currentAdmin != null && id != ADMIN
    modifies server`clientMap, server`currentAdmin, server`nodeInfo, server`live, server`inFlight, server`indexed
    modifies server`skipHeadRelease, server`resetLoopAfter
    modifies server.Admin(), server.clientMap.Values
    ensures server.Valid() && server.clientMap.Values <= old(server.clientMap.Values)
    ensures Did(old(server.Abstract(tracker.records)), ChangeGroup(id, group), server.Abstract(tracker.records))
  {
    HandleChangeGroup(server, id, group, tracker.records);
  }

  /** The administrator assigns a node to a group; one that names itself is taken for malicious. */
  method RequestGroup(server: Server, tracker: ClientTracker, id: Text, group: Text) returns (ghost made: Option<Event>)
    requires server.Valid() && server.currentAdmin != null
    modifies server`clientMap, server`currentAdmin, server`nodeInfo, server`live, server`inFlight, server`indexed
    modifies server`skipHeadRelease, server`resetLoopAfter
    modifies server.Admin(), server.clientMap.Values
    ensures server.Valid() && server.clientMap.Values <= old(server.clientMap.Values)
    ensures Made(old(server.Abstract(tracker.records)), GroupRequest(id, group), made, server.Abstract(tracker.records))
  {
    ghost var s := server.Abstract(tracker.records);
    if id == ADMIN {
      made := Leave(server, tracker, server.currentAdmin);
    } else {
      Assign(server, tracker, id, group);
      made := Some(ChangeGroup(id, group));
    }
    MadeSome(s, GroupRequest(id, group), made.value, server.Abstract(tracker.records));
  }

  method RequestForget(server: Server, tracker: ClientTracker, id: Text) returns (ghost made: Option<Event>)
    requires server.Valid() && server.currentAdmin != null
    modifies server`clientMap, server`currentAdmin, server`nodeInfo, server`live, server`inFlight, server`indexed
    modifies server`skipHeadRelease, server`resetLoopAfter
    modifies server.Admin(), server.clientMap.Values
    ensures server.Valid() && server.clientMap.Values <= old(server.clientMap.Values)
    ensures Made(old(server.Abstract(tracker.records)), ForgetRequest(id), made, server.Abstract(tracker.records))
  {
    made := None;
    if id != ADMIN {
      HandleForget(server, id, tracker.records);
      made := Some(Forget(id));
    }
  }

  method Revoke(server: Server, tracker: ClientTracker, token: Text, deleted: bool, kill: bool) returns (ghost e: Event)
    requires server.Valid() && server.currentAdmin != null && (deleted && kill ==> token != [])
    modifies server`clientMap, server`currentAdmin, server`nodeInfo, server`live, server`inFlight, server`indexed
    modifies server`skipHeadRelease, server`resetLoopAfter
    modifies server.Admin(), server.clientMap.Values
    ensures server.Valid() && server.clientMap.Values <= old(server.clientMap.Values)
    ensures Did(old(server.Abstract(tracker.records)), e, server.Abstract(tracker.records))
    ensures if deleted && kill then e.RevokeAndKill? && e.token == token else e == OtherTraffic
  {
    ghost var s := server.Abstract(tracker.records);
    var order := HandleRevoke(server, token, deleted, kill, tracker.records);
    e := if deleted && kill then RevokeAndKill(token, order) else OtherTraffic;
    RevokeDone(s, token, deleted && kill, order, server.Abstract(tracker.records));
  }

  lemma RevokeDone(s: State, token: Text, kills: bool, order: seq<Text>, t: State)
    requires s.admin && (kills ==> Enumerates(order, Holders(s.live, token)))
    requires t == if kills then Revoked(s, order) else Answered(s)
    ensures Did(s, if kills then RevokeAndKill(token, order) else OtherTraffic, t)
  {
  }

  method RequestRevoke(server: Server, tracker: ClientTracker, token: Text, deleted: bool, kill: bool)
    returns (ghost made: Option<Event>)
    requires server.Valid() && server.currentAdmin != null
    modifies server`clientMap, server`currentAdmin, server`nodeInfo, server`live, server`inFlight, server`indexed
    modifies server`skipHeadRelease, server`resetLoopAfter
    modifies server.Admin(), server.clientMap.Values
    ensures server.Valid() && server.clientMap.Values <= old(server.clientMap.Values)
    ensures Made(old(server.Abstract(tracker.records)), RevokeRequest(token, deleted, kill), made,
                 server.Abstract(tracker.records))
  {
    ghost var s := server.Abstract(tracker.records);
    made := None;
    if !(deleted && kill) || token != [] {
      ghost var e := Revoke(server, tracker, token, deleted, kill);
      made := Some(e);
      MadeSome(s, RevokeRequest(token, deleted, kill), e, server.Abstract(tracker.records));
    }
  }

  method Request(server: Server, tracker: ClientTracker, c: Command) returns (ghost made: Option<Event>)
    requires server.Valid() && (c.GroupRequest? || c.ForgetRequest? || c.DownloadIndex? || c.RevokeRequest?)
    modifies server`clientMap, server`currentAdmin, server`nodeInfo, server`live, server`inFlight, server`indexed
    modifies server`skipHeadRelease, server`resetLoopAfter
    modifies server.Admin(), server.clientMap.Values
    ensures server.Valid() && server.clientMap.Values <= old(server.clientMap.Values)
    ensures Made(old(server.Abstract(tracker.records)), c, made, server.Abstract(tracker.records))
  {
    made := None;
    if server.currentAdmin == null {
      return;
    }
    if c.GroupRequest? {
      made := RequestGroup(server, tracker, c.id, c.group);
    } else if c.ForgetRequest? {
      made := RequestForget(server, tracker, c.id);
    } else if c.DownloadIndex? {
      AnswerIndexRequest(server, tracker.records);
      made := Some(IndexRequest);
    } else {
      made := RequestRevoke(server, tracker, c.token, c.deleted, c.kill);
    }
  }

  method ReadNext(server: Server, tracker: ClientTracker) returns (ghost made: Option<Event>)
    requires server.Valid()
    modifies server`inFlight, server.Admin()`outbox, tracker
    ensures server.Valid()
    ensures Made(old(server.Abstract(tracker.records)), DeliverNext, made, server.Abstract(tracker.records))
  {
    made := None;
    if server.currentAdmin != null && server.currentAdmin.outbox != [] {
      Deliver(server, tracker);
      made := Some(Event.Deliver);
    }
  }

  method Perform(server: Server, tracker: ClientTracker, c: Command) returns (ghost made: Option<Event>)
    requires server.Valid() && !server.insideHandleInterface && Coherent(server.Abstract(tracker.records))
    modifies server`clientMap, server`currentAdmin, server`nodeInfo, server`live, server`inFlight, server`indexed
    modifies server`skipHeadRelease, server`resetLoopAfter
    modifies server.Admin(), server.clientMap.Values, tracker
    ensures server.Valid() && fresh(server.clientMap.Values - old(server.clientMap.Values))
    ensures Made(old(server.Abstract(tracker.records)), c, made, server.Abstract(tracker.records))
  {
    if c.NodeConnects? || c.AdminConnects? {
      made := Connect(server, tracker, c);
    } else if c.LoginFails? {
      made := FailLogin(server, tracker, c.node);
    } else if c.Disconnects? || c.PingReport? || c.NodeUpdated? {
      made := Report(server, tracker, c);
    } else if !c.DeliverNext? {
      made := Request(server, tracker, c);
    } else {
      made := ReadNext(server, tracker);
    }
  }

  // ------------------------------------------------------- what commands make

  /** What a sequence of commands makes, command by command. */
  ghost predicate RunOf(s: State, commands: seq<Command>, made: seq<Option<Event>>)
    decreases |commands|
  {
    && |made| == |commands|
    && (commands != [] ==>
          && Makes(s, commands[0], made[0]) && (made[0].Some? ==> Possible(s, made[0].value))
          && RunOf(Next(s, made[0]), commands[1..], made[1..]))
  }

  ghost function EndOf(s: State, made: seq<Option<Event>>): State
    decreases |made|
  {
    if made == [] then s else EndOf(Next(s, made[0]), made[1..])
  }

  ghost function EventsOf(made: seq<Option<Event>>): seq<Event> {
    if made == [] then [] else (if made[0].Some? then [made[0].value] else []) + EventsOf(made[1..])
  }

  /** That is a legal run of the model. */
  lemma {:induction false} EventsRun(s: State, commands: seq<Command>, made: seq<Option<Event>>)
    requires RunOf(s, commands, made)
    ensures LegalRun(s, EventsOf(made)) && After(s, EventsOf(made)) == EndOf(s, made)
    decreases |commands|
  {
    if commands == [] {
    } else {
      EventsRun(Next(s, made[0]), commands[1..], made[1..]);
      if made[0].Some? {
        assert EventsOf(made)[1..] == EventsOf(made[1..]);
      } else {
        assert EventsOf(made) == EventsOf(made[1..]);
      }
    }
  }

  /** The commands behind which an index is on its way, or there is no administrator who has had one. */
  ghost predicate Resets(s: State, c: Command) {
    || c.AdminConnects?
    || (s.admin && (c.DownloadIndex? || (c.ForgetRequest? && c.id != ADMIN)))
    || (s.admin && (c.Disconnects? || c.NodeUpdated? || c.GroupRequest?) && c.id == ADMIN)
  }

  /** The commands that change the node list without telling the administrator, or without telling it enough. */
  ghost predicate SilentCommand(s: State, c: Command) {
    || (c.NodeUpdated? && c.worked && c.flags & IDENT_ISROUTINE_BIT != 0 && c.id in s.live
        && c.revision != s.live[c.id].row.revision)
    || (s.admin && Kills(c) && Holders(s.live, c.token) != {})
  }

  /** No silent command since the last that reset the account. */
  ghost predicate NothingMissedBy(s: State, commands: seq<Command>, made: seq<Option<Event>>, told: bool)
    requires |made| == |commands|
    decreases |commands|
  {
    if commands == [] then told
    else
      NothingMissedBy(Next(s, made[0]), commands[1..], made[1..],
                      Resets(s, commands[0]) || (told && !SilentCommand(s, commands[0])))
  }

  lemma SilentExactly(s: State, c: Command, e: Event)
    requires Coherent(s) && Makes(s, c, Some(e)) && Possible(s, e)
    ensures Silent(s, e) <==> SilentCommand(s, c)
    ensures Resets(s, c) <==> e.IndexRequest? || e.Forget? || e.AcceptAdmin? || e.DisconnectAdmin?
  {
  }

  lemma NothingMade(s: State, c: Command)
    requires Coherent(s) && Makes(s, c, None)
    ensures !SilentCommand(s, c) && !Resets(s, c)
  {
  }

  /** What the model says of a run is what the commands say. */
  lemma {:induction false} MissedExactly(s: State, commands: seq<Command>, made: seq<Option<Event>>, told: bool)
    requires Coherent(s) && RunOf(s, commands, made)
    ensures LegalRun(s, EventsOf(made))
    ensures NothingMissed(s, EventsOf(made), told) <==> NothingMissedBy(s, commands, made, told)
    decreases |commands|
  {
    EventsRun(s, commands, made);
    if commands == [] {
    } else {
      var rest := EventsOf(made[1..]);
      if made[0].Some? {
        var e := made[0].value;
        SilentExactly(s, commands[0], e);
        CoherenceKept(s, e);
        assert EventsOf(made)[0] == e && EventsOf(made)[1..] == rest;
      } else {
        NothingMade(s, commands[0]);
        assert EventsOf(made) == rest;
      }
      MissedExactly(Next(s, made[0]), commands[1..], made[1..],
                    Resets(s, commands[0]) || (told && !SilentCommand(s, commands[0])));
    }
  }

  /** Whatever the state, these commands are not silent. */
  predicate Loud(c: Command) {
    && (c.NodeUpdated? && c.worked ==> c.flags & IDENT_ISROUTINE_BIT == 0)
    && !Kills(c)
  }

  lemma {:induction false} LoudMissNothing(s: State, commands: seq<Command>, made: seq<Option<Event>>)
    requires |made| == |commands| && forall k :: 0 <= k < |commands| ==> Loud(commands[k])
    ensures NothingMissedBy(s, commands, made, true)
    decreases |commands|
  {
    if commands == [] {
    } else {
      assert Loud(commands[0]) && !SilentCommand(s, commands[0]);
      LoudMissNothing(Next(s, made[0]), commands[1..], made[1..]);
    }
  }

  /**
   * A caller need look at the commands alone: whatever came before, nothing is missed when an administrator asks for an
   * index and only loud commands follow.
   */
  lemma {:induction false} IndexThenLoud(s: State, before: seq<Command>, behind: seq<Command>, commands: seq<Command>,
                                         made: seq<Option<Event>>, told: bool)
    requires commands == before + [DownloadIndex] + behind && |made| == |commands|
    requires EndOf(s, made[..|before|]).admin && forall k :: 0 <= k < |behind| ==> Loud(behind[k])
    ensures NothingMissedBy(s, commands, made, told)
    decreases |before|
  {
    if before == [] {
      assert commands[0] == DownloadIndex && commands[1..] == behind && made[..0] == [];
      LoudMissNothing(Next(s, made[0]), behind, made[1..]);
    } else {
      assert commands[0] == before[0] && commands[1..] == before[1..] + [DownloadIndex] + behind;
      assert made[..|before|][0] == made[0] && made[..|before|][1..] == made[1..][..|before| - 1];
      IndexThenLoud(Next(s, made[0]), before[1..], behind, commands[1..], made[1..],
                    Resets(s, commands[0]) || (told && !SilentCommand(s, commands[0])));
    }
  }

  // --------------------------------------------------------------- forgetting

  /** The node logs in under this name. */
  predicate Returns(c: Command, id: Text) { c.NodeConnects? && c.node == id }

  lemma {:induction false} UnheardCommands(s: State, commands: seq<Command>, made: seq<Option<Event>>, id: Text)
    requires Unheard(s, id) && RunOf(s, commands, made) && forall k :: 0 <= k < |commands| ==> !Returns(commands[k], id)
    ensures Unheard(EndOf(s, made), id)
    decreases |commands|
  {
    if commands == [] {
    } else {
      if made[0].Some? {
        assert !Returns(commands[0], id);
        UnheardNext(s, made[0].value, id);
      }
      UnheardCommands(Next(s, made[0]), commands[1..], made[1..], id);
    }
  }

  /**
   * Whatever commands came before, when an administrator asks for a node to be forgotten and no node of that name
   * connects behind that, the node is in no table, and no administrator who has been sent an index since ends up with a
   * record of it.
   */
  lemma {:induction false} ForgetThenGone(s: State, before: seq<Command>, id: Text, behind: seq<Command>,
                                          commands: seq<Command>, made: seq<Option<Event>>)
    requires commands == before + [ForgetRequest(id)] + behind && Coherent(s) && RunOf(s, commands, made)
    requires id != ADMIN && EndOf(s, made[..|before|]).admin
    requires forall k :: 0 <= k < |behind| ==> !Returns(behind[k], id)
    ensures var t := EndOf(s, made);
            && id !in t.rows && id !in t.live
            && (t.admin && t.indexed ==>
                  id !in FoldAll(t.tracker, t.inFlight) && (t.inFlight == [] ==> id !in t.tracker))
    decreases |before|
  {
    if before == [] {
      assert commands[0] == ForgetRequest(id) && commands[1..] == behind && made[..0] == [];
      IndexConverges(s, Forget(id));
      UnheardCommands(Do(s, Forget(id)), behind, made[1..], id);
    } else {
      assert commands[0] == before[0] && commands[1..] == before[1..] + [ForgetRequest(id)] + behind;
      assert made[..|before|][0] == made[0] && made[..|before|][1..] == made[1..][..|before| - 1];
      if made[0].Some? {
        CoherenceKept(s, made[0].value);
      }
      ForgetThenGone(Next(s, made[0]), before[1..], id, behind, commands[1..], made[1..]);
    }
  }

  // --------------------------------------------------------------------- runs

  /** Any sequence of commands takes server and control program through the run that these commands make. */
  method RunAll(server: Server, tracker: ClientTracker, commands: seq<Command>) returns (ghost made: seq<Option<Event>>)
    requires server.Valid() && !server.insideHandleInterface && Coherent(server.Abstract(tracker.records))
    modifies server`clientMap, server`currentAdmin, server`nodeInfo, server`live, server`inFlight, server`indexed
    modifies server`skipHeadRelease, server`resetLoopAfter
    modifies server.Admin(), server.clientMap.Values, tracker
    ensures server.Valid()
    ensures RunOf(old(server.Abstract(tracker.records)), commands, made)
    ensures server.Abstract(tracker.records) == EndOf(old(server.Abstract(tracker.records)), made)
    decreases |commands|
  {
    ghost var s := server.Abstract(tracker.records);
    made := [];
    if commands != [] {
      ghost var first := Perform(server, tracker, commands[0]);
      if first.Some? {
        CoherenceKept(s, first.value);
      }
      ghost var rest := RunAll(server, tracker, commands[1..]);
      made := [first] + rest;
      assert made[1..] == rest;
    }
  }

  /**
   * Server and control program from their start, driven by any commands. Once an index response has been queued, what
   * is undelivered turns the tracker into the server's node list with the stale records of the run over it, and into
   * the list itself when no command since has been silent.
   */
  method Serve(commands: seq<Command>)
    returns (server: Server, tracker: ClientTracker, ghost made: seq<Option<Event>>)
    ensures server.Valid() && RunOf(Boot, commands, made) && server.Abstract(tracker.records) == EndOf(Boot, made)
    ensures LegalRun(Boot, EventsOf(made))
    ensures server.currentAdmin != null && server.indexed ==>
              && FoldAll(tracker.records, server.inFlight) ==
                 View(server.live, server.nodeInfo) + StaleAfterAll(Boot, EventsOf(made), map[])
              && (NothingMissedBy(Boot, commands, made, true) ==>
                    FoldAll(tracker.records, server.inFlight) == View(server.live, server.nodeInfo))
  {
    server := new Server();
    tracker := new ClientTracker();
    made := RunAll(server, tracker, commands);
    EventsRun(Boot, commands, made);
    ReplicaSettles(EventsOf(made));
    MissedExactly(Boot, commands, made, true);
    if NothingMissed(Boot, EventsOf(made), true) {
      ReplicaConverges(EventsOf(made));
    }
  }
}
