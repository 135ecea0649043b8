/** The server's command handlers, as far as they touch the node list or what the administrator is told of it. */
module CmdHandling {
  import opened Bytes
  import opened Arguments
  import opened Ident
  import opened ReplicaModel
  import opened NodeRecords
  import opened Clients

  datatype NodeDBEntry = NodeDBEntry(id: Text, row: Row)

  function OfflineRecords(list: seq<NodeDBEntry>): (rs: seq<Record>)
    ensures |rs| == |list|
    ensures forall k :: 0 <= k < |list| ==> rs[k] == Offline(list[k].id, list[k].row)
  {
    seq(|list|, k requires 0 <= k < |list| => Offline(list[k].id, list[k].row))
  }

  /** Looks the node up, then writes a whole row: what is not given keeps its stored value. */
  method UpdateNodeDB(server: Server, id: Text, platform: Given<Text>, revision: Given<Text>, group: Given<Text>, time: int64)
    returns (ok: bool)
    requires id in server.nodeInfo || time != 0
    modifies server`nodeInfo
    ensures ok == CanUpdate(old(server.nodeInfo), id, platform, revision)
    ensures server.nodeInfo == if ok then UpdateRow(old(server.nodeInfo), id, platform, revision, group, time)
                               else old(server.nodeInfo)
  {
    if (platform.Absent? || revision.Absent?) && id !in server.nodeInfo {
      return false;
    }
    var newGroup: Text := if group.Given? then group.value else [];
    if id in server.nodeInfo {
      var lookup := server.nodeInfo[id];
      if group.Absent? {
        newGroup := lookup.group;
      }
      server.nodeInfo := server.nodeInfo[id := Row(
        if platform.Given? then platform.value else lookup.platform,
        if revision.Given? then revision.value else lookup.revision,
        if time != 0 then time else lookup.time, newGroup)];
    } else {
      server.nodeInfo := server.nodeInfo[id := Row(platform.value, revision.value, time, newGroup)];
    }
    ok := true;
  }

  /** The records of some nodes that are not connected. */
  ghost function OfflineBut(rows: map<Text, Row>, connected: set<Text>, todo: set<Text>): map<Text, Record> {
    map id | id in rows && id !in connected && id !in todo :: Offline(id, rows[id])
  }

  lemma OneRowLess(rows: map<Text, Row>, connected: set<Text>, todo: set<Text>, id: Text)
    requires id in todo && id in rows
    ensures OfflineBut(rows, connected, todo - {id}) ==
            if id in connected then OfflineBut(rows, connected, todo)
            else OfflineBut(rows, connected, todo)[id := Offline(id, rows[id])]
  {
  }

  /** A list without a name in it may have it added. */
  ghost predicate NamedOnce(list: seq<NodeDBEntry>, todo: set<Text>) {
    && (forall k :: 0 <= k < |list| ==> list[k].id !in todo)
    && (forall j, k :: 0 <= j < k < |list| ==> list[j].id != list[k].id)
  }

  lemma OneEntryMore(list: seq<NodeDBEntry>, e: NodeDBEntry, todo: set<Text>)
    requires NamedOnce(list, todo) && e.id in todo
    ensures NamedOnce(list + [e], todo - {e.id}) && NamedOnce(list, todo - {e.id})
    ensures Table(OfflineRecords(list + [e])) == Table(OfflineRecords(list))[e.id := Offline(e.id, e.row)]
  {
    assert OfflineRecords(list + [e]) == OfflineRecords(list) + [Offline(e.id, e.row)];
    TableAppend(OfflineRecords(list), Offline(e.id, e.row));
  }

  /** The rows whose nodes are not connected, each once. */
  method GetOfflineNodes(server: Server) returns (list: seq<NodeDBEntry>)
    ensures Table(OfflineRecords(list)) == OfflineBut(server.nodeInfo, server.clientMap.Keys, {})
    ensures forall j, k :: 0 <= j < k < |list| ==> list[j].id != list[k].id
  {
    list := [];
    var todo := server.nodeInfo.Keys;
    assert OfflineBut(server.nodeInfo, server.clientMap.Keys, todo) == map[];
    while todo != {}
      invariant todo <= server.nodeInfo.Keys && NamedOnce(list, todo)
      invariant Table(OfflineRecords(list)) == OfflineBut(server.nodeInfo, server.clientMap.Keys, todo)
    {
      var id :| id in todo;
      OneRowLess(server.nodeInfo, server.clientMap.Keys, todo, id);
      OneEntryMore(list, NodeDBEntry(id, server.nodeInfo[id]), todo);
      if server.LookupClient(id) == null {
        list := list + [NodeDBEntry(id, server.nodeInfo[id])];
      }
      todo := todo - {id};
    }
  }

  /** Pushes the eight pieces of a connected node. */
  method PushNode(before: seq<Arg>, cur: ClientObj, ghost rs: seq<Record>) returns (args: seq<Arg>)
    requires before == ListArgs(rs)
    ensures args == ListArgs(rs + [Online(cur.id, cur.AsNode())])
  {
    args := before + [String(cur.id), String(cur.platform), String(cur.revision), String(cur.group), Int64(cur.time),
                      String(cur.ip), Int64(cur.latency), Bool(true)];
    ListArgsAppend(rs, Online(cur.id, cur.AsNode()));
  }

  /** The records of some connected nodes. */
  ghost function OnlineBut(live: map<Text, Node>, todo: set<Text>): map<Text, Record> {
    map id | id in live && id !in todo :: Online(id, live[id])
  }

  lemma OneLessToDo(live: map<Text, Node>, todo: set<Text>, id: Text)
    requires id in todo
    ensures OnlineBut(live, todo - {id}) ==
            if id in live then OnlineBut(live, todo)[id := Online(id, live[id])] else OnlineBut(live, todo)
  {
  }

  /** The connected nodes, pushed one after another in whatever order the map keeps them. */
  method PushOnline(server: Server) returns (args: seq<Arg>, ghost rs: seq<Record>)
    requires server.Valid() && server.currentAdmin != null
    ensures args == ListArgs(rs) && Table(rs) == OnlineBut(server.live, {})
  {
    args, rs := [], [];
    var todo := server.clientMap.Keys;
    assert OnlineBut(server.live, todo) == map[];
    while todo != {}
      invariant todo <= server.clientMap.Keys && args == ListArgs(rs)
      invariant Table(rs) == OnlineBut(server.live, todo)
    {
      var id :| id in todo;
      OneLessToDo(server.live, todo, id);
      todo := todo - {id};
      var cur := server.clientMap[id];
      if cur == server.currentAdmin {
        continue;
      }
      args := PushNode(args, cur, rs);
      TableAppend(rs, Online(id, server.live[id]));
      rs := rs + [Online(id, server.live[id])];
    }
  }

  method PushOffline(before: seq<Arg>, list: seq<NodeDBEntry>, ghost rs: seq<Record>) returns (args: seq<Arg>)
    requires before == ListArgs(rs)
    ensures args == ListArgs(rs + OfflineRecords(list))
  {
    args := before;
    ghost var off := OfflineRecords(list);
    assert rs + off[..0] == rs;
    for i := 0 to |list|
      invariant args == ListArgs(rs + off[..i])
    {
      var cur := list[i];
      args := args + [String(cur.id), String(cur.row.platform), String(cur.row.revision), String(cur.row.group),
                      Int64(cur.row.time), String([]), Int64(0), Bool(false)];
      ListArgsAppend(rs + off[..i], off[i]);
      assert rs + off[..i + 1] == rs + off[..i] + [off[i]];
    }
    assert off[..|list|] == off;
  }

  /** The index response: connected nodes from the map, the others from the table. */
  method HandleIndexRequest(server: Server) returns (result: Stream)
    requires server.Valid() && server.currentAdmin != null
    ensures result.cmd == CMDCODE_A2S_INDEXDL && result.flags == IDENT_ISREPORT_BIT
    ensures Decoded(result) == Index(View(server.live, server.nodeInfo))
  {
    var args, rs := PushOnline(server);
    var list := GetOfflineNodes(server);
    args := PushOffline(args, list, rs);
    result := Stream(CMDCODE_A2S_INDEXDL, IDENT_ISREPORT_BIT, args);
    ghost var off := OfflineRecords(list);
    DecodedIndexOf(rs + off);
    TableConcat(rs, off);
    ViewInTwoParts(server);
  }

  lemma ViewInTwoParts(server: Server)
    requires server.Valid() && server.currentAdmin != null
    ensures View(server.live, server.nodeInfo) ==
            OnlineBut(server.live, {}) + OfflineBut(server.nodeInfo, server.clientMap.Keys, {})
  {
  }

  // ------------------------------------------------- connecting clients

  /** What an accepted node is told. */
  function Greeting(id: Text): Stream {
    Stream(CMDCODE_B2S_AUTH, IDENT_ISREPORT_BIT,
           [NetCmdStatus(STATUS_OK, Ascii("Greetings, node ") + id + Ascii(". Your presence is now registered."))])
  }

  /** Maps a node under its name, with the group its row has stored. */
  method AddNode(server: Server, id: Text, ip: Text, token: Text, platform: Text, revision: Text, time: int64, now: int64)
    returns (client: ClientObj)
    requires server.Valid() && id != ADMIN && id !in server.clientMap
    modifies server`clientMap, server`currentAdmin, server`live
    ensures server.Valid() && fresh(client) && server.clientMap == old(server.clientMap)[id := client]
    ensures server.currentAdmin == old(server.currentAdmin) && client.outbox == [Greeting(id)]
    ensures server.live == old(server.live)[id := client.AsNode()]
    ensures client.AsNode() ==
            Node(Row(platform, revision, time, if id in server.nodeInfo then server.nodeInfo[id].group else []), ip, 0, token)
  {
    client := new ClientObj(id, ip, token, platform, revision, time, now);
    client.SendStream(Greeting(id));
    if id in server.nodeInfo {
      client.group := server.nodeInfo[id].group;
    }
    server.AddNode(client);
  }

  /** The node is mapped, merged with its stored group, and written to the table. */
  method EnterNode(server: Server, id: Text, ip: Text, token: Text, platform: Text, revision: Text, time: int64,
                   now: int64, ghost tracker: map<Text, Record>)
    returns (client: ClientObj)
    requires server.Valid() && id != ADMIN && id !in server.clientMap && time != 0
    modifies server`clientMap, server`currentAdmin, server`nodeInfo, server`live
    ensures server.Valid() && fresh(client) && server.clientMap == old(server.clientMap)[id := client]
    ensures server.currentAdmin == old(server.currentAdmin) && client.outbox == [Greeting(id)]
    ensures server.Abstract(tracker) == Entered(old(server.Abstract(tracker)), id, platform, revision, time, ip, token)
  {
    client := AddNode(server, id, ip, token, platform, revision, time, now);
    var _ := UpdateNodeDB(server, id, Given(client.platform), Given(client.revision), Given(client.group), client.time);
  }

  /** A node that has passed the checks is entered and announced; a second one of the same name is turned away. */
  method AcceptNode(server: Server, id: Text, ip: Text, token: Text, platform: Text, revision: Text, time: int64,
                    now: int64, ghost tracker: map<Text, Record>)
    returns (client: ClientObj?)
    requires server.Valid() && id != ADMIN && time != 0
    modifies server`clientMap, server`currentAdmin, server`nodeInfo, server`live, server`inFlight, server.Admin()`outbox
    ensures server.Valid()
    ensures client == null <==> id in old(server.clientMap)
    ensures client == null ==>
              server.Abstract(tracker) == old(server.Abstract(tracker)) && server.clientMap == old(server.clientMap)
    ensures client != null ==>
              fresh(client) && server.clientMap == old(server.clientMap)[id := client] && client.outbox == [Greeting(id)]
    ensures client != null ==>
              server.Abstract(tracker) == Accepted(old(server.Abstract(tracker)), id, platform, revision, time, ip, token)
  {
    if server.LookupClient(id) != null {
      return null;
    }
    client := EnterNode(server, id, ip, token, platform, revision, time, now, tracker);
    server.NotifyAdminNodeChange(id, true, tracker);
  }

  /** What an administrator is told whose place another takes. */
  function Farewell(): Stream { Stream(CMDCODE_S2A_ADMINDEAUTH, 0, [String(Ascii("New administrator has connected."))]) }

  function Welcome(): Stream {
    Stream(CMDCODE_B2S_AUTH, IDENT_ISREPORT_BIT,
           [NetCmdStatus(STATUS_OK, Ascii("Welcome, volition administrator. Please use volition responsibly."))])
  }

  /** Both logins are answered by a report that pops as a success; the farewell is no report, and of another command. */
  lemma GreetingsSay(id: Text)
    ensures forall s :: s in [Greeting(id), Welcome()] ==>
              s.cmd == CMDCODE_B2S_AUTH && s.flags == 1 && |s.args| == 1 && s.args[0].NetCmdStatus? && PopStatus(s.args[0]).worked
    ensures Farewell().cmd == CMDCODE_S2A_ADMINDEAUTH && Farewell().flags == 0 && |Farewell().args| == 1 && Farewell().args[0].String?
  {
  }

  /** The administrator before, if any, is told to go and disconnected. */
  method DeauthAdmin(server: Server, ghost tracker: map<Text, Record>)
    requires server.Valid() && !server.insideHandleInterface
    modifies server`clientMap, server`currentAdmin, server`nodeInfo, server`live, server`inFlight, server`indexed
    modifies server`skipHeadRelease, server`resetLoopAfter
    modifies server.Admin()
    ensures server.Valid() && server.currentAdmin == null && server.clientMap == old(server.clientMap) - {ADMIN}
    ensures server.live == old(server.live) && server.nodeInfo == old(server.nodeInfo)
    ensures old(server.currentAdmin) != null ==>
              old(server.currentAdmin).outbox == old(server.currentAdmin.outbox) + [Farewell()]
  {
    if server.currentAdmin != null {
      server.SendAdmin(Farewell());
      server.ProcessNodeDisconnect(server.currentAdmin, tracker);
    }
  }

  method GreetAdmin(ip: Text, time: int64, now: int64) returns (client: ClientObj)
    ensures fresh(client) && client.id == ADMIN && client.token == []
    ensures client.outbox == [Welcome()] && DecodedAll(client.outbox) == [Unrelated]
  {
    client := new ClientObj(ADMIN, ip, [], Ascii("NA"), Ascii("NA"), time, now);
    client.SendStream(Welcome());
    DecodedAppend([], Welcome());
    assert client.outbox == [] + [Welcome()];
  }

  /** A new administrator takes the place of the one before, and starts with an answer to its login. */
  method AcceptAdmin(server: Server, ip: Text, time: int64, now: int64, ghost tracker: map<Text, Record>,
                     ghost before: map<Text, Record>)
    returns (client: ClientObj)
    requires server.Valid() && !server.insideHandleInterface
    modifies server`clientMap, server`currentAdmin, server`nodeInfo, server`live, server`inFlight, server`indexed
    modifies server`skipHeadRelease, server`resetLoopAfter
    modifies server.Admin()
    ensures server.Valid() && fresh(client) && client == server.currentAdmin
    ensures server.clientMap == old(server.clientMap)[ADMIN := client] && client.outbox == [Welcome()]
    ensures server.Abstract(tracker) == AdminCame(old(server.Abstract(before)), tracker)
  {
    client := GreetAdmin(ip, time, now);
    DeauthAdmin(server, before);
    server.AddAdmin(client);
    PutBack(old(server.clientMap), ADMIN, client);
  }

  // ------------------------------------------------------------- reports

  predicate Mapped(server: Server, client: ClientObj)
    reads server`clientMap
  {
    client.id in server.clientMap && server.clientMap[client.id] == client
  }

  method CompletePing(server: Server, client: ClientObj, now: int64, ghost tracker: map<Text, Record>)
    requires server.Valid() && Mapped(server, client) && client.id != ADMIN
    modifies client`waiting, client`latency, server`live
    ensures server.Valid()
    ensures server.Abstract(tracker) == Timed(old(server.Abstract(tracker)), client.id, client.latency)
  {
    assert server.live[client.id] == client.AsNode();
    client.CompletePing(now);
    server.Sync(client);
  }

  /** Whatever the ping brought is announced, except the administrator's own. */
  method HandlePingReport(server: Server, client: ClientObj, now: int64, ghost tracker: map<Text, Record>)
    requires server.Valid() && Mapped(server, client)
    modifies client`waiting, client`latency, server`live, server`inFlight, server.Admin()`outbox
    ensures server.Valid()
    ensures server.Abstract(tracker) == if client.id == ADMIN then old(server.Abstract(tracker))
                                        else Pinged(old(server.Abstract(tracker)), client.id, client.latency)
  {
    if client == server.currentAdmin {
      client.CompletePing(now);
    } else {
      CompletePing(server, client, now, tracker);
      server.NotifyAdminNodeChange(client.id, true, tracker);
    }
  }

  method SetRevision(server: Server, client: ClientObj, revision: Text, ghost tracker: map<Text, Record>)
    requires server.Valid() && Mapped(server, client) && client.id != ADMIN && client.id in server.nodeInfo
    modifies client`revision, server`nodeInfo, server`live
    ensures server.Valid()
    ensures server.Abstract(tracker) == Revised(old(server.Abstract(tracker)), client.id, revision)
  {
    assert server.live[client.id] == client.AsNode();
    var _ := UpdateNodeDB(server, client.id, Absent, Given(revision), Absent, 0);
    client.revision := revision;
    server.Sync(client);
  }

  /** A node's own account of its update; the revision goes to the table and to the client alike. */
  method HandleUpdateReport(server: Server, client: ClientObj, worked: bool, revision: Text, flags: bv8,
                            ghost tracker: map<Text, Record>)
    requires server.Valid() && Mapped(server, client) && client.id != ADMIN && client.id in server.nodeInfo
    modifies client`revision, server`nodeInfo, server`live, server`inFlight, server.Admin()`outbox
    ensures server.Valid()
    ensures server.Abstract(tracker) ==
            Updated(old(server.Abstract(tracker)), client.id, worked, revision, flags & IDENT_ISROUTINE_BIT != 0)
  {
    if !worked {
      return;
    }
    SetRevision(server, client, revision, tracker);
    if flags & IDENT_ISROUTINE_BIT == 0 {
      server.NotifyAdminNodeChange(client.id, true, tracker);
    }
  }

  // ------------------------------------------- the administrator's requests

  /** An answer that says how a request went. */
  function StatusAnswer(cmd: byte, worked: bool, code: byte, msg: Text): Stream {
    Stream(cmd, IDENT_ISREPORT_BIT, [StatusArg(MakeStatus(worked, code, msg))])
  }

  /** It is a report of the request's command, and popping its one argument tells how the request went. */
  lemma AnswerSays(cmd: byte, worked: bool, code: byte, msg: Text)
    ensures var s := StatusAnswer(cmd, worked, code, msg);
            && s.cmd == cmd && s.flags == 1 && |s.args| == 1 && s.args[0].NetCmdStatus?
            && (if code == STATUS_INVALID then PopStatus(s.args[0]).worked == worked else PopStatus(s.args[0]).code == code)
            && (msg != [] ==> PopStatus(s.args[0]).msg == msg)
  {
  }

  /** The last the administrator has been sent. */
  ghost predicate Told(server: Server, s: Stream)
    reads server`currentAdmin, server.Admin()`outbox
  {
    var admin := server.currentAdmin;
    admin != null && admin.outbox != [] && admin.outbox[|admin.outbox| - 1] == s
  }

  ghost predicate ToldBeforeLast(server: Server, s: Stream)
    reads server`currentAdmin, server.Admin()`outbox
  {
    var admin := server.currentAdmin;
    admin != null && |admin.outbox| > 1 && admin.outbox[|admin.outbox| - 2] == s
  }

  /** Sends an answer that says how a request went; the tracker does not look at it. */
  method AnswerStatus(server: Server, cmd: byte, worked: bool, code: byte, msg: Text)
    requires server.Valid() && server.currentAdmin != null
    modifies server`inFlight, server.Admin()`outbox
    ensures server.Valid() && server.inFlight == old(server.inFlight) + [Unrelated]
    ensures server.currentAdmin.outbox == old(server.currentAdmin.outbox) + [StatusAnswer(cmd, worked, code, msg)]
  {
    var response := StatusAnswer(cmd, worked, code, msg);
    assert Decoded(response) == Unrelated;
    server.SendAdmin(response);
  }

  method AnswerIndexRequest(server: Server, ghost tracker: map<Text, Record>)
    requires server.Valid() && server.currentAdmin != null
    modifies server`inFlight, server`indexed, server.Admin()`outbox
    ensures server.Valid() && server.Abstract(tracker) == IndexSent(old(server.Abstract(tracker)))
    ensures |server.currentAdmin.outbox| == |old(server.currentAdmin.outbox)| + 1
    ensures old(server.currentAdmin.outbox) <= server.currentAdmin.outbox
  {
    var out := HandleIndexRequest(server);
    server.SendAdmin(out);
    server.indexed := true;
  }

  /** A connected node is put into a group. */
  method SetClientGroup(server: Server, client: ClientObj, group: Text)
    requires server.Valid() && Mapped(server, client) && client.id != ADMIN
    modifies client`group, server`live
    ensures server.Valid()
    ensures server.live ==
            old(server.live)[client.id := old(client.AsNode()).(row := old(client.AsNode()).row.(group := group))]
    ensures old(server.live)[client.id] == old(client.AsNode())
  {
    assert server.live[client.id] == client.AsNode();
    client.group := group;
    server.Sync(client);
  }

  /** A node's row is put into a group. */
  method SetRowGroup(server: Server, id: Text, group: Text, ghost tracker: map<Text, Record>)
    requires server.Valid() && id in server.nodeInfo
    modifies server`nodeInfo
    ensures server.Valid()
    ensures server.Abstract(tracker) ==
            old(server.Abstract(tracker)).(rows := UpdateRow(old(server.nodeInfo), id, Absent, Absent, Given(group), 0))
  {
    var _ := UpdateNodeDB(server, id, Absent, Absent, Given(group), 0);
  }

  method SetGroup(server: Server, id: Text, group: Text, ghost tracker: map<Text, Record>) returns (online: bool)
    requires server.Valid() && id != ADMIN && id in server.nodeInfo
    modifies server`nodeInfo, server`live, server.clientMap.Values`group
    ensures server.Valid() && online == (id in server.clientMap)
    ensures server.Abstract(tracker) == Grouped(old(server.Abstract(tracker)), id, group)
  {
    SetRowGroup(server, id, group, tracker);
    var lookup := server.LookupClient(id);
    if lookup == null {
      return false;
    }
    SetClientGroup(server, lookup, group);
    online := true;
  }

  function NoSuchNode(): Text { Ascii("Unable to locate specified node to change group.") }

  function GroupAnswer(known: bool): Stream {
    if known then StatusAnswer(CMDCODE_A2S_CHGNODEGROUP, true, 0, [])
    else StatusAnswer(CMDCODE_A2S_CHGNODEGROUP, false, STATUS_MISSING, NoSuchNode())
  }

  /** That it worked, or that the node is missing. */
  lemma GroupAnswerSays(known: bool)
    ensures var s := GroupAnswer(known);
            && s.cmd == CMDCODE_A2S_CHGNODEGROUP && s.flags == 1 && |s.args| == 1 && s.args[0].NetCmdStatus?
            && (PopStatus(s.args[0]).worked <==> known) && (!known ==> PopStatus(s.args[0]).code == STATUS_MISSING)
  {
  }

  /** A known node's group is changed and the administrator told of it. */
  method Regroup(server: Server, id: Text, group: Text, ghost tracker: map<Text, Record>)
    requires server.Valid() && id != ADMIN && id in server.nodeInfo
    modifies server`nodeInfo, server`live, server`inFlight, server.Admin()`outbox, server.clientMap.Values`group
    ensures server.Valid()
    ensures var s := old(server.Abstract(tracker));
            server.Abstract(tracker) == Notify(Grouped(s, id, group), id, id in s.live)
  {
    var online := SetGroup(server, id, group, tracker);
    server.NotifyAdminNodeChange(id, online, tracker);
  }

  /** A node's group is changed and announced, whether or not it is connected; an unknown one is not there to change. */
  method HandleChangeGroup(server: Server, id: Text, group: Text, ghost tracker: map<Text, Record>)
    requires server.Valid() && server.currentAdmin != null && id != ADMIN
    modifies server`nodeInfo, server`live, server`inFlight, server.Admin()`outbox, server.clientMap.Values`group
    ensures server.Valid() && server.Abstract(tracker) == Regrouped(old(server.Abstract(tracker)), id, group)
    ensures Told(server, GroupAnswer(id in old(server.nodeInfo)))
  {
    if id !in server.nodeInfo {
      AnswerStatus(server, CMDCODE_A2S_CHGNODEGROUP, false, STATUS_MISSING, NoSuchNode());
      return;
    }
    Regroup(server, id, group, tracker);
    AnswerStatus(server, CMDCODE_A2S_CHGNODEGROUP, true, 0, []);
  }

  /** A connected node is told to disconnect, and is disconnected. */
  method ForgetClient(server: Server, id: Text, ghost tracker: map<Text, Record>)
    requires server.Valid() && server.currentAdmin != null && id != ADMIN
    modifies server`clientMap, server`currentAdmin, server`nodeInfo, server`live, server`inFlight, server`indexed
    modifies server`skipHeadRelease, server`resetLoopAfter
    modifies server.Admin(), server.clientMap.Values
    ensures server.Valid() && server.currentAdmin == old(server.currentAdmin)
    ensures var s := old(server.Abstract(tracker)); server.Abstract(tracker) == if id in s.live then Left(s, id) else s
    ensures server.clientMap == old(server.clientMap) - {id} && server.nodeInfo == old(server.nodeInfo)
    ensures var node := old(server.LookupClient(id));
            node != null ==> node.outbox == old(server.LookupClient(id).outbox) + [Stream(CMDCODE_ANY_DISCONNECT, 0, [])]
    ensures id in old(server.clientMap) ==>
              old(server.clientMap)[id].read ==
              if server.insideHandleInterface then Released(old(server.clientMap[id].read)) else old(server.clientMap[id].read)
  {
    var node := server.LookupClient(id);
    if node != null {
      node.SendStream(Stream(CMDCODE_ANY_DISCONNECT, 0, []));
      server.ProcessNodeDisconnect(node, tracker);
    }
  }

  /** The node is gone, and so is its row. */
  method ForgetNode(server: Server, id: Text, ghost tracker: map<Text, Record>)
    requires server.Valid() && server.currentAdmin != null && id != ADMIN
    modifies server`clientMap, server`currentAdmin, server`nodeInfo, server`live, server`inFlight, server`indexed
    modifies server`skipHeadRelease, server`resetLoopAfter
    modifies server.Admin(), server.clientMap.Values
    ensures server.Valid() && server.currentAdmin == old(server.currentAdmin)
    ensures server.Abstract(tracker) == Removed(old(server.Abstract(tracker)), id)
    ensures server.nodeInfo == old(server.nodeInfo) - {id}
    ensures server.clientMap == old(server.clientMap) - {id}
    ensures id in old(server.clientMap) ==>
              old(server.clientMap)[id].read ==
              if server.insideHandleInterface then Released(old(server.clientMap[id].read)) else old(server.clientMap[id].read)
  {
    ForgetClient(server, id, tracker);
    server.nodeInfo := server.nodeInfo - {id};
  }

  /** The answer, and a fresh index behind it. */
  method AnswerForget(server: Server, ghost tracker: map<Text, Record>)
    requires server.Valid() && server.currentAdmin != null
    modifies server`inFlight, server`indexed, server.Admin()`outbox
    ensures server.Valid() && server.Abstract(tracker) == IndexSent(Answered(old(server.Abstract(tracker))))
    ensures ToldBeforeLast(server, StatusAnswer(CMDCODE_A2S_FORGETNODE, true, 0, []))
  {
    AnswerStatus(server, CMDCODE_A2S_FORGETNODE, true, 0, []);
    AnswerIndexRequest(server, tracker);
  }

  /** Disconnects a node if it is connected, deletes its row, answers, and sends a fresh index. */
  method HandleForget(server: Server, id: Text, ghost tracker: map<Text, Record>)
    requires server.Valid() && server.currentAdmin != null && id != ADMIN
    modifies server`clientMap, server`currentAdmin, server`nodeInfo, server`live, server`inFlight, server`indexed
    modifies server`skipHeadRelease, server`resetLoopAfter
    modifies server.Admin(), server.clientMap.Values
    ensures server.Valid() && server.Abstract(tracker) == Forgotten(old(server.Abstract(tracker)), id)
    ensures server.nodeInfo == old(server.nodeInfo) - {id}
    ensures server.clientMap == old(server.clientMap) - {id}
    ensures ToldBeforeLast(server, StatusAnswer(CMDCODE_A2S_FORGETNODE, true, 0, []))
    ensures id in old(server.clientMap) ==>
              old(server.clientMap)[id].read ==
              if server.insideHandleInterface then Released(old(server.clientMap[id].read)) else old(server.clientMap[id].read)
  {
    ForgetNode(server, id, tracker);
    AnswerForget(server, tracker);
  }

  /** A server with an administrator and one node. */
  method SmallServer(id: Text) returns (server: Server, node: ClientObj)
    requires id != ADMIN
    ensures fresh(server) && fresh(node) && server.Valid() && server.currentAdmin != null && fresh(server.currentAdmin)
    ensures id in server.clientMap && server.clientMap[id] == node
    ensures forall k :: k in server.clientMap ==> fresh(server.clientMap[k])
  {
    server := new Server();
    node := AcceptNode(server, id, [], [1], [], [], 1, 0, map[]);
    var _ := AcceptAdmin(server, [], 1, 0, map[], map[]);
  }

  /** What a forget request does to the read head of a connected node, whoever has acquired it. */
  method ForgetInside(server: Server, id: Text, ghost tracker: map<Text, Record>) returns (after: ReadHead)
    requires server.Valid() && server.currentAdmin != null && id != ADMIN && id in server.clientMap
    requires server.insideHandleInterface
    modifies server, server.clientMap.Values
    ensures after == Released(old(server.clientMap[id].read))
  {
    var node := server.clientMap[id];
    HandleForget(server, id, tracker);
    after := node.read;
  }

  /**
   * A forget request that names a connected node releases that node's read head, which nobody has acquired, and drops
   * what lies at its front without anybody having looked at it.
   */
  method ForgetReleasesUnacquired(s: Stream) returns (before: ReadHead, after: ReadHead)
    ensures before.inbox == [s] && after.inbox == []
    ensures after.acquired == before.acquired && after.released == before.released + 1 && after.taken == before.taken + 1
  {
    var server, node := SmallServer([1]);
    node.read := ReadHead([s], false, 0, 0, 0);
    before := node.read;
    server.insideHandleInterface, server.activeClient := true, server.currentAdmin;
    after := ForgetInside(server, [1], map[]);
  }

  /** A node is disconnected. */
  method LetGo(server: Server, client: ClientObj, ghost tracker: map<Text, Record>)
    requires server.Valid() && Mapped(server, client) && client.id != ADMIN
    modifies server`clientMap, server`currentAdmin, server`nodeInfo, server`live, server`inFlight, server`indexed
    modifies server`skipHeadRelease, server`resetLoopAfter
    modifies server.Admin(), client
    ensures server.Valid() && server.clientMap == old(server.clientMap) - {client.id}
    ensures server.Abstract(tracker) == Left(old(server.Abstract(tracker)), client.id)
    ensures server.currentAdmin == old(server.currentAdmin)
  {
    server.ProcessNodeDisconnect(client, tracker);
  }

  /** Kills one holder of the token: disconnected first, its row deleted behind it. */
  method KillHolder(server: Server, client: ClientObj, ghost tracker: map<Text, Record>)
    requires server.Valid() && Mapped(server, client) && client.id != ADMIN
    modifies server`clientMap, server`currentAdmin, server`nodeInfo, server`live, server`inFlight, server`indexed
    modifies server`skipHeadRelease, server`resetLoopAfter
    modifies server.Admin(), client
    ensures server.Valid() && server.clientMap == old(server.clientMap) - {client.id}
    ensures server.Abstract(tracker) == KillOne(old(server.Abstract(tracker)), client.id)
    ensures server.currentAdmin == old(server.currentAdmin)
  {
    LetGo(server, client, tracker);
    server.nodeInfo := server.nodeInfo - {client.id};
  }

  /** Walks the map up to the first client that holds the token. */
  method FindHolder(server: Server, token: Text) returns (holder: ClientObj?)
    requires server.Valid() && server.currentAdmin != null && server.currentAdmin.token != token
    ensures holder == null ==> Holders(server.live, token) == {}
    ensures holder != null ==> Mapped(server, holder) && holder.id in Holders(server.live, token)
  {
    var todo := server.clientMap.Keys;
    while todo != {}
      invariant todo <= server.clientMap.Keys
      invariant forall id :: id in server.live && id !in todo ==> server.live[id].token != token
    {
      var id :| id in todo;
      if server.clientMap[id].token == token {
        return server.clientMap[id];
      }
      todo := todo - {id};
    }
    holder := null;
  }

  /** Starts over at every kill; in the end every node that held the token has been killed, each once. */
  method KillHolders(server: Server, token: Text, ghost tracker: map<Text, Record>) returns (ghost order: seq<Text>)
    requires server.Valid() && server.currentAdmin != null && server.currentAdmin.token != token
    modifies server`clientMap, server`currentAdmin, server`nodeInfo, server`live, server`inFlight, server`indexed
    modifies server`skipHeadRelease, server`resetLoopAfter
    modifies server.Admin(), server.clientMap.Values
    ensures server.Valid() && server.currentAdmin == old(server.currentAdmin)
    ensures server.Abstract(tracker) == KillEach(old(server.Abstract(tracker)), order)
    ensures server.clientMap == old(server.clientMap) - Names(order)
    ensures Enumerates(order, Holders(old(server.live), token))
  {
    order := [];
    ghost var before := server.Abstract(tracker);
    ghost var clients := server.clientMap;
    NothingNamed(clients);
    var holder := FindHolder(server, token);
    while holder != null
      invariant server.Valid() && server.currentAdmin == old(server.currentAdmin) != null
      invariant server.clientMap == clients - Names(order)
      invariant server.Abstract(tracker) == KillEach(before, order)
      invariant SomeHolders(order, before.live, token)
      invariant if holder == null then Holders(server.live, token) == {}
                else Mapped(server, holder) && holder.id in Holders(server.live, token)
      decreases |server.clientMap|
    {
      ghost var id := holder.id;
      KillShrinks(before, order);
      OneMoreHolder(order, before.live, token, id);
      KillHolder(server, holder, tracker);
      KillEachAppend(before, order, id);
      NamesAppend(clients, order, id);
      order := order + [id];
      holder := FindHolder(server, token);
    }
    KillShrinks(before, order);
    AllHolders(before, order, token);
  }

  /** Deletes a token; if that worked and it is asked to, kills the holders; and answers. No index follows. */
  method HandleRevoke(server: Server, token: Text, deleted: bool, kill: bool, ghost tracker: map<Text, Record>)
    returns (ghost order: seq<Text>)
    requires server.Valid() && server.currentAdmin != null && (deleted && kill ==> server.currentAdmin.token != token)
    modifies server`clientMap, server`currentAdmin, server`nodeInfo, server`live, server`inFlight, server`indexed
    modifies server`skipHeadRelease, server`resetLoopAfter
    modifies server.Admin(), server.clientMap.Values
    ensures server.Valid()
    ensures deleted && kill ==> Enumerates(order, Holders(old(server.live), token))
                                && server.Abstract(tracker) == Revoked(old(server.Abstract(tracker)), order)
                                && server.clientMap == old(server.clientMap) - Names(order)
    ensures !(deleted && kill) ==> server.Abstract(tracker) == Answered(old(server.Abstract(tracker)))
                                   && server.clientMap == old(server.clientMap)
    ensures Told(server, StatusAnswer(CMDCODE_A2S_AUTHTOKEN_REVOKE, deleted, 0, []))
  {
    order := [];
    if deleted && kill {
      order := KillHolders(server, token, tracker);
    }
    AnswerStatus(server, CMDCODE_A2S_AUTHTOKEN_REVOKE, deleted, 0, []);
  }
}
