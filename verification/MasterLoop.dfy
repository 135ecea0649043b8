/** The server's main loop: clients are served in turn, and the turn starts over when one has been taken out. */
module MasterLoop {
  import opened Bytes
  import opened Arguments
  import opened ReplicaModel
  import opened NodeRecords
  import opened Clients
  import opened CmdHandling
  import opened HeadAccounts

  /** What a restart has to spend: each removal pays for itself and for one signal that may outlive its pass. */
  ghost function Fuel(clients: map<Text, ClientObj>, reset: bool): nat {
    2 * |clients| + (if reset then 1 else 0)
  }

  /** A turn has left the clients, or has taken some out and calls for a restart that it has paid for. */
  ghost predicate TurnEnded(restart: bool, now: map<Text, ClientObj>, reset: bool, was: map<Text, ClientObj>, wasReset: bool)
  {
    && Shrunk(now, was)
    && (restart ==> Fuel(now, reset) < Fuel(was, wasReset))
    && (!restart ==> now == was && !reset)
  }

  /** Clients only go; those that stay are the same objects. */
  ghost predicate Shrunk(now: map<Text, ClientObj>, was: map<Text, ClientObj>) {
    now.Keys <= was.Keys && forall id :: id in now ==> now[id] == was[id]
  }

  lemma ShrunkSize(now: map<Text, ClientObj>, was: map<Text, ClientObj>)
    requires Shrunk(now, was)
    ensures |now| <= |was|
    ensures now != was ==> |now| < |was|
  {
    assert |was.Keys| == |now.Keys| + |was.Keys - now.Keys|;
    if |now| == |was| {
      assert was.Keys - now.Keys == {};
      assert now == was;
    }
  }

  /** No signal is pending and no handler is running. */
  predicate AtRest(server: Server)
    reads server`skipHeadRelease, server`insideHandleInterface, server`activeClient
  {
    !server.skipHeadRelease && !server.insideHandleInterface && server.activeClient == null
  }

  /** Some clients under their own names, among them all that are mapped. */
  ghost predicate Covers(clients: map<Text, ClientObj>, now: map<Text, ClientObj>) {
    Shrunk(now, clients) && Named(clients)
  }

  /** The read heads of some clients. */
  ghost function HeadsOf(clients: map<Text, ClientObj>): (heads: map<Text, ReadHead>)
    reads clients.Values`read
    ensures heads.Keys == clients.Keys
  {
    map id | id in clients :: clients[id].read
  }

  /** The read heads of these clients, mapped or not, are as noted. */
  ghost predicate Noted(clients: map<Text, ClientObj>, heads: map<Text, ReadHead>)
    reads clients.Values`read
  {
    HeadsOf(clients) == heads
  }

  /** The signals tell of removals: one of the served client's, the other of anybody else's. */
  ghost predicate Signalled(skip: bool, reset: bool, id: Text, now: map<Text, ClientObj>, was: map<Text, ClientObj>,
                            wasReset: bool)
  {
    && Shrunk(now, was)
    && (skip <==> id !in now)
    && (reset <==> wasReset || was.Keys - now.Keys - {id} != {})
  }

  lemma NothingSignalled(id: Text, was: map<Text, ClientObj>, wasReset: bool)
    requires id in was
    ensures Signalled(false, wasReset, id, was, was, wasReset)
  {
  }

  lemma DropSignals(skip: bool, reset: bool, id: Text, now: map<Text, ClientObj>, was: map<Text, ClientObj>,
                    wasReset: bool, victim: Text)
    requires Signalled(skip, reset, id, now, was, wasReset)
    ensures Signalled(skip || (victim in now && victim == id), reset || (victim in now && victim != id), id,
                      now - {victim}, was, wasReset)
  {
    var after := now - {victim};
    if victim in now && victim != id {
      assert victim in was.Keys - after.Keys - {id};
    } else {
      assert was.Keys - after.Keys - {id} == was.Keys - now.Keys - {id};
    }
  }

  ghost predicate Named(clients: map<Text, ClientObj>) { forall id :: id in clients ==> clients[id].id == id }

  /** Locking a read head is noted under its client's name, and nothing else is. */
  method NoteAcquire(client: ClientObj, ghost clients: map<Text, ClientObj>, ghost heads: map<Text, ReadHead>)
    returns (stream: Option<Stream>)
    requires Named(clients) && client.id in clients && clients[client.id] == client && Noted(clients, heads)
    modifies client`read
    ensures stream == FrontOf(heads[client.id])
    ensures Noted(clients, heads[client.id := Acquired(heads[client.id])])
  {
    stream := client.HeadAcquire();
  }

  method NoteRelease(client: ClientObj, ghost clients: map<Text, ClientObj>, ghost heads: map<Text, ReadHead>)
    requires Named(clients) && client.id in clients && clients[client.id] == client && Noted(clients, heads)
    modifies client`read
    ensures Noted(clients, heads[client.id := Released(heads[client.id])])
  {
    client.HeadRelease();
  }

  /** The same for a client of the server's, of whom nothing else is changed. */
  method Release(server: Server, client: ClientObj, ghost clients: map<Text, ClientObj>, ghost heads: map<Text, ReadHead>)
    requires server.Valid()
    requires Named(clients) && client.id in clients && clients[client.id] == client && Noted(clients, heads)
    modifies client`read
    ensures server.Valid() && Noted(clients, heads[client.id := Released(heads[client.id])])
  {
    NoteRelease(client, clients, heads);
  }

  /** What one head's release is to the account. */
  lemma OneGivenUp(heads: map<Text, ReadHead>, id: Text, keys: set<Text>)
    requires id in heads
    ensures GivenUp(heads, {id} * keys) == if id in keys then heads[id := Released(heads[id])] else heads
  {
    assert id in keys ==> {id} * keys == {id};
    assert id !in keys ==> {id} * keys == {};
  }

  /** What disconnecting a client inside a handler does to the loop's signals and to the client's read head. */
  method DisconnectInside(server: Server, victim: ClientObj, ghost tracker: map<Text, Record>)
    requires server.Valid() && server.insideHandleInterface && Mapped(server, victim)
    modifies server`clientMap, server`currentAdmin, server`live, server`inFlight, server`indexed
    modifies server`skipHeadRelease, server`resetLoopAfter
    modifies server.Admin()`outbox, victim`read
    ensures server.Valid() && server.Admin() <= old(server.Admin())
    ensures victim.read == Released(old(victim.read))
    ensures server.clientMap == old(server.clientMap) - {victim.id}
    ensures server.skipHeadRelease == (old(server.skipHeadRelease) || victim == server.activeClient)
    ensures server.resetLoopAfter == (old(server.resetLoopAfter) || victim != server.activeClient)
  {
    server.ProcessNodeDisconnect(victim, tracker);
  }

  /** Disconnects a client inside a handler, and gives its read head up. */
  method DropClient(server: Server, victim: ClientObj, ghost clients: map<Text, ClientObj>, ghost heads: map<Text, ReadHead>,
                    ghost tracker: map<Text, Record>)
    requires server.Valid() && server.insideHandleInterface && Mapped(server, victim)
    requires Named(clients) && victim.id in clients && clients[victim.id] == victim && Noted(clients, heads)
    modifies server`clientMap, server`currentAdmin, server`live, server`inFlight, server`indexed
    modifies server`skipHeadRelease, server`resetLoopAfter
    modifies server.Admin()`outbox, victim`read
    ensures server.Valid() && server.Admin() <= old(server.Admin())
    ensures Noted(clients, heads[victim.id := Released(heads[victim.id])])
    ensures server.clientMap == old(server.clientMap) - {victim.id}
    ensures server.skipHeadRelease == (old(server.skipHeadRelease) || victim == server.activeClient)
    ensures server.resetLoopAfter == (old(server.resetLoopAfter) || victim != server.activeClient)
  {
    DisconnectInside(server, victim, tracker);
  }

  /** Disconnects whoever is called id, if anybody is, and gives its read head up. */
  method Drop(server: Server, client: ClientObj, id: Text, ghost clients: map<Text, ClientObj>,
              ghost heads: map<Text, ReadHead>, ghost tracker: map<Text, Record>)
    requires server.Valid() && server.insideHandleInterface && server.activeClient == client
    requires Covers(clients, server.clientMap) && Noted(clients, heads)
    requires client.id in server.clientMap ==> server.clientMap[client.id] == client
    modifies server`clientMap, server`currentAdmin, server`live, server`inFlight, server`indexed
    modifies server`skipHeadRelease, server`resetLoopAfter
    modifies server.Admin()`outbox, server.clientMap.Values`read
    ensures server.Valid() && server.Admin() <= old(server.Admin())
    ensures Noted(clients, GivenUp(heads, {id} * old(server.clientMap).Keys))
    ensures server.clientMap == old(server.clientMap) - {id}
    ensures server.skipHeadRelease == (old(server.skipHeadRelease) || (id in old(server.clientMap) && id == client.id))
    ensures server.resetLoopAfter == (old(server.resetLoopAfter) || (id in old(server.clientMap) && id != client.id))
  {
    var victim := server.LookupClient(id);
    if id in clients {
      OneGivenUp(heads, id, server.clientMap.Keys);
    } else {
      assert {id} * server.clientMap.Keys == {};
      NobodyGivenUp(heads);
    }
    if victim != null {
      DropClient(server, victim, clients, heads, tracker);
    }
  }

  /** Some clients may have been taken out: each is signalled, and each one's head is given up. */
  ghost predicate Handled(server: Server, client: ClientObj, clients: map<Text, ClientObj>, heads: map<Text, ReadHead>,
                          was: map<Text, ClientObj>, wasReset: bool)
    reads server`clientMap, server`currentAdmin, server`live, server`inFlight, server`skipHeadRelease, server`resetLoopAfter
    reads server.clientMap.Values`revision, server.clientMap.Values`group, server.clientMap.Values`latency
    reads server.clientMap.Values`outbox, clients.Values`read
  {
    && server.Valid() && Covers(clients, was) && Noted(clients, GivenUp(heads, was.Keys - server.clientMap.Keys))
    && Signalled(server.skipHeadRelease, server.resetLoopAfter, client.id, server.clientMap, was, wasReset)
  }

  lemma DropNoted(heads: map<Text, ReadHead>, was: map<Text, ClientObj>, now: map<Text, ClientObj>, id: Text)
    requires Shrunk(now, was)
    ensures GivenUp(GivenUp(heads, was.Keys - now.Keys), {id} * now.Keys) == GivenUp(heads, was.Keys - (now - {id}).Keys)
  {
    assert (now - {id}).Keys == now.Keys - {id};
    GivenUpTwice(heads, was.Keys - now.Keys, {id} * now.Keys);
    assert was.Keys - (now.Keys - {id}) == (was.Keys - now.Keys) + {id} * now.Keys;
  }

  lemma CoversLess(clients: map<Text, ClientObj>, was: map<Text, ClientObj>, now: map<Text, ClientObj>)
    requires Covers(clients, was) && Shrunk(now, was)
    ensures Covers(clients, now)
  {
  }

  /** One more may have been taken out. */
  method DropInside(server: Server, client: ClientObj, id: Text, ghost clients: map<Text, ClientObj>,
                    ghost heads: map<Text, ReadHead>, ghost was: map<Text, ClientObj>, ghost wasReset: bool,
                    ghost tracker: map<Text, Record>)
    requires server.insideHandleInterface && server.activeClient == client
    requires Handled(server, client, clients, heads, was, wasReset) && client.id in was && was[client.id] == client
    modifies server`clientMap, server`currentAdmin, server`live, server`inFlight, server`indexed
    modifies server`skipHeadRelease, server`resetLoopAfter
    modifies server.Admin()`outbox, server.clientMap.Values`read
    ensures server.Admin() <= old(server.Admin()) && server.clientMap.Values <= old(server.clientMap.Values)
    ensures Handled(server, client, clients, heads, was, wasReset)
  {
    DropSignals(server.skipHeadRelease, server.resetLoopAfter, client.id, server.clientMap, was, wasReset, id);
    DropNoted(heads, was, server.clientMap, id);
    CoversLess(clients, was, server.clientMap);
    Drop(server, client, id, clients, GivenUp(heads, was.Keys - server.clientMap.Keys), tracker);
  }

  /**
   * A handler, as far as the client map goes: it is given a stream, and disconnects whom it likes, its own client perhaps
   * among them.
   */
  method HandleClientInterface(server: Server, client: ClientObj, stream: Stream, ghost clients: map<Text, ClientObj>,
                               ghost heads: map<Text, ReadHead>, ghost tracker: map<Text, Record>)
    returns (ghost given: Stream)
    requires server.insideHandleInterface && server.activeClient == client && Mapped(server, client)
    requires Handled(server, client, clients, heads, server.clientMap, server.resetLoopAfter)
    modifies server`clientMap, server`currentAdmin, server`live, server`inFlight, server`indexed
    modifies server`skipHeadRelease, server`resetLoopAfter
    modifies server.Admin()`outbox, server.clientMap.Values`read
    ensures Handled(server, client, clients, heads, old(server.clientMap), old(server.resetLoopAfter))
    ensures given == stream
  {
    given := stream;
    var victims: set<Text> := *;
    while victims != {}
      invariant server.Admin() <= old(server.Admin()) && server.clientMap.Values <= old(server.clientMap.Values)
      invariant Handled(server, client, clients, heads, old(server.clientMap), old(server.resetLoopAfter))
    {
      var id :| id in victims;
      victims := victims - {id};
      DropInside(server, client, id, clients, heads, old(server.clientMap), old(server.resetLoopAfter), tracker);
    }
  }

  /** Raises the flag that tells a handler is running, and for whom; the account of the turn does not look at it. */
  method EnterHandler(server: Server, client: ClientObj, ghost clients: map<Text, ClientObj>,
                      ghost heads: map<Text, ReadHead>, ghost was: map<Text, ClientObj>, ghost wasReset: bool)
    requires Handled(server, client, clients, heads, was, wasReset)
    modifies server`insideHandleInterface, server`activeClient
    ensures server.insideHandleInterface && server.activeClient == client
    ensures Handled(server, client, clients, heads, was, wasReset)
  {
    server.insideHandleInterface, server.activeClient := true, client;
  }

  method LeaveHandler(server: Server, client: ClientObj, ghost clients: map<Text, ClientObj>,
                      ghost heads: map<Text, ReadHead>, ghost was: map<Text, ClientObj>, ghost wasReset: bool)
    requires Handled(server, client, clients, heads, was, wasReset)
    modifies server`insideHandleInterface, server`activeClient
    ensures !server.insideHandleInterface && server.activeClient == null
    ensures Handled(server, client, clients, heads, was, wasReset)
  {
    server.insideHandleInterface, server.activeClient := false, null;
  }

  /** Runs the handler on a stream, if there is one, with the flag up that tells it so. */
  method RunHandler(server: Server, client: ClientObj, stream: Option<Stream>, ghost clients: map<Text, ClientObj>,
                    ghost heads: map<Text, ReadHead>, ghost tracker: map<Text, Record>)
    returns (ghost handled: Option<Stream>)
    requires AtRest(server) && Mapped(server, client)
    requires Handled(server, client, clients, heads, server.clientMap, server.resetLoopAfter)
    modifies server`clientMap, server`currentAdmin, server`live, server`inFlight, server`indexed
    modifies server`skipHeadRelease, server`resetLoopAfter, server`insideHandleInterface, server`activeClient
    modifies server.Admin()`outbox, server.clientMap.Values`read
    ensures !server.insideHandleInterface && server.activeClient == null
    ensures Handled(server, client, clients, heads, old(server.clientMap), old(server.resetLoopAfter))
    ensures handled == stream && (stream == None ==> server.clientMap == old(server.clientMap))
  {
    handled := None;
    if stream.Some? {
      ghost var was, wasReset := server.clientMap, server.resetLoopAfter;
      EnterHandler(server, client, clients, heads, was, wasReset);
      ghost var given := HandleClientInterface(server, client, stream.value, clients, heads, tracker);
      handled := Some(given);
      LeaveHandler(server, client, clients, heads, was, wasReset);
    }
  }

  /** Locks the client's read head; nothing else changes. */
  method Acquire(server: Server, client: ClientObj, ghost clients: map<Text, ClientObj>, ghost heads: map<Text, ReadHead>)
    returns (stream: Option<Stream>)
    requires server.Valid() && Mapped(server, client) && Covers(clients, server.clientMap) && Noted(clients, heads)
    requires !server.skipHeadRelease
    modifies client`read
    ensures stream == FrontOf(heads[client.id])
    ensures Handled(server, client, clients, heads[client.id := Acquired(heads[client.id])], server.clientMap,
                    server.resetLoopAfter)
  {
    NothingSignalled(client.id, server.clientMap, server.resetLoopAfter);
    NobodyGivenUp(heads[client.id := Acquired(heads[client.id])]);
    stream := NoteAcquire(client, clients, heads);
    assert server.clientMap.Keys - server.clientMap.Keys == {};
  }

  /** Behind a turn, the head is released unless that has been done, and the signals are obeyed. */
  method EndTurn(server: Server, client: ClientObj, ghost clients: map<Text, ClientObj>, ghost heads: map<Text, ReadHead>)
    returns (restart: bool)
    requires server.Valid() && Covers(clients, server.clientMap) && Noted(clients, heads)
    requires (server.skipHeadRelease <==> client.id !in server.clientMap)
    requires client.id in clients && clients[client.id] == client
    modifies server`skipHeadRelease, server`resetLoopAfter, client`read
    ensures server.Valid() && !server.skipHeadRelease
    ensures Noted(clients, if old(server.skipHeadRelease) then heads else heads[client.id := Released(heads[client.id])])
    ensures restart == (old(server.skipHeadRelease) || old(server.resetLoopAfter))
    ensures server.resetLoopAfter == (old(server.skipHeadRelease) && old(server.resetLoopAfter))
  {
    if server.skipHeadRelease {
      server.skipHeadRelease := false;
      return true;
    }
    Release(server, client, clients, heads);
    restart := TakeReset(server);
  }

  /** Obeys the signal that somebody else has gone. */
  method TakeReset(server: Server) returns (restart: bool)
    requires server.Valid()
    modifies server`resetLoopAfter
    ensures server.Valid() && restart == old(server.resetLoopAfter) && !server.resetLoopAfter
  {
    restart := server.resetLoopAfter;
    server.resetLoopAfter := false;
  }

  /** What a turn leaves of the fuel. */
  lemma TurnFuel(skip: bool, reset: bool, id: Text, now: map<Text, ClientObj>, was: map<Text, ClientObj>, wasReset: bool)
    requires Signalled(skip, reset, id, now, was, wasReset) && id in was
    ensures TurnEnded(skip || reset, now, skip && reset, was, wasReset)
  {
    ShrunkSize(now, was);
    if !skip && !reset {
      forall k | k in was ensures k in now {
        assert k !in was.Keys - now.Keys - {id};
      }
      assert was.Keys == now.Keys;
    }
  }

  /** Locks the read head and runs the handler on what is there. */
  method AcquireAndHandle(server: Server, client: ClientObj, ghost clients: map<Text, ClientObj>,
                          ghost heads: map<Text, ReadHead>, ghost tracker: map<Text, Record>)
    returns (ghost handled: Option<Stream>)
    requires server.Valid() && Mapped(server, client) && AtRest(server)
    requires Covers(clients, server.clientMap) && Noted(clients, heads)
    modifies server`clientMap, server`currentAdmin, server`live, server`inFlight, server`indexed
    modifies server`skipHeadRelease, server`resetLoopAfter, server`insideHandleInterface, server`activeClient
    modifies server.Admin()`outbox, server.clientMap.Values`read
    ensures !server.insideHandleInterface && server.activeClient == null
    ensures Handled(server, client, clients, heads[client.id := Acquired(heads[client.id])], old(server.clientMap),
                    old(server.resetLoopAfter))
    ensures handled == FrontOf(heads[client.id])
    ensures heads[client.id].inbox == [] ==> server.clientMap == old(server.clientMap)
  {
    var stream := Acquire(server, client, clients, heads);
    handled := RunHandler(server, client, stream, clients, heads[client.id := Acquired(heads[client.id])], tracker);
  }

  /** Behind the handler, the signals are obeyed and the account of the turn is settled. */
  method FinishTurn(server: Server, client: ClientObj, ghost clients: map<Text, ClientObj>,
                    ghost heads: map<Text, ReadHead>, ghost was: map<Text, ClientObj>, ghost wasReset: bool,
                    ghost handled: Option<Stream>)
    returns (restart: bool, ghost turn: Turn)
    requires client.id in heads && client.id in was && was[client.id] == client
    requires Handled(server, client, clients, heads[client.id := Acquired(heads[client.id])], was, wasReset)
    modifies server`skipHeadRelease, server`resetLoopAfter, client`read
    ensures server.Valid() && !server.skipHeadRelease
    ensures TurnEnded(restart, server.clientMap, server.resetLoopAfter, was, wasReset)
    ensures turn == Turn(client.id, false, was.Keys - server.clientMap.Keys, handled)
    ensures Noted(clients, AfterTurn(heads, turn))
  {
    turn := Turn(client.id, false, was.Keys - server.clientMap.Keys, handled);
    TurnFuel(server.skipHeadRelease, server.resetLoopAfter, client.id, server.clientMap, was, wasReset);
    CoversLess(clients, was, server.clientMap);
    TurnFromInside(heads, client.id, was.Keys - server.clientMap.Keys, handled);
    restart := EndTurn(server, client, clients,
                       GivenUp(heads[client.id := Acquired(heads[client.id])], was.Keys - server.clientMap.Keys));
  }

  /** Acquire, handle, release: once each, whether or not the handler disconnects the client. */
  method TakeTurn(server: Server, client: ClientObj, ghost clients: map<Text, ClientObj>, ghost heads: map<Text, ReadHead>,
                  ghost tracker: map<Text, Record>)
    returns (restart: bool, ghost turn: Turn)
    requires server.Valid() && Mapped(server, client) && AtRest(server)
    requires Covers(clients, server.clientMap) && Noted(clients, heads)
    modifies server`clientMap, server`currentAdmin, server`live, server`inFlight, server`indexed
    modifies server`skipHeadRelease, server`resetLoopAfter, server`insideHandleInterface, server`activeClient
    modifies server.Admin()`outbox, server.clientMap.Values`read
    ensures server.Valid() && AtRest(server)
    ensures TurnEnded(restart, server.clientMap, server.resetLoopAfter, old(server.clientMap), old(server.resetLoopAfter))
    ensures turn == Turn(client.id, false, old(server.clientMap).Keys - server.clientMap.Keys, FrontOf(heads[client.id]))
    ensures Noted(clients, AfterTurn(heads, turn))
    ensures heads[client.id].inbox == [] ==> server.clientMap == old(server.clientMap)
  {
    ghost var was, wasReset := server.clientMap, server.resetLoopAfter;
    ghost var handled := AcquireAndHandle(server, client, clients, heads, tracker);
    restart, turn := FinishTurn(server, client, clients, heads, was, wasReset, handled);
  }

  /** A client whose connection has failed is taken out without any read head being touched. */
  method ServeBroken(server: Server, client: ClientObj, ghost clients: map<Text, ClientObj>,
                     ghost heads: map<Text, ReadHead>, ghost tracker: map<Text, Record>)
    requires server.Valid() && Mapped(server, client) && AtRest(server)
    requires Covers(clients, server.clientMap) && Noted(clients, heads)
    modifies server`clientMap, server`currentAdmin, server`live, server`inFlight, server`indexed
    modifies server`skipHeadRelease, server`resetLoopAfter, client`read
    modifies server.Admin()`outbox
    ensures server.Valid() && AtRest(server) && server.clientMap == old(server.clientMap) - {client.id}
    ensures server.resetLoopAfter == old(server.resetLoopAfter) && Noted(clients, heads)
  {
    DisconnectOutside(server, client, tracker);
  }

  /** What disconnecting a client outside a handler does: no read head is touched, and no signal raised. */
  method DisconnectOutside(server: Server, client: ClientObj, ghost tracker: map<Text, Record>)
    requires server.Valid() && Mapped(server, client) && AtRest(server)
    modifies server`clientMap, server`currentAdmin, server`live, server`inFlight, server`indexed
    modifies server`skipHeadRelease, server`resetLoopAfter, client`read
    modifies server.Admin()`outbox
    ensures server.Valid() && AtRest(server) && server.clientMap == old(server.clientMap) - {client.id}
    ensures server.resetLoopAfter == old(server.resetLoopAfter) && client.read == old(client.read)
  {
    server.ProcessNodeDisconnect(client, tracker);
  }

  /**
   * One client's turn. Unless its connection has failed, its read head is acquired once, released once, and dropped
   * once if there was one, whether or not the handler disconnected it; any removal makes the loop start over, and
   * every start over is paid for. The heads of others that the handler disconnects are released without having been
   * acquired.
   */
  method ServeClient(server: Server, client: ClientObj, hasError: bool, ghost clients: map<Text, ClientObj>,
                     ghost heads: map<Text, ReadHead>, ghost tracker: map<Text, Record>)
    returns (restart: bool, ghost turn: Turn)
    requires server.Valid() && Mapped(server, client) && AtRest(server)
    requires Covers(clients, server.clientMap) && Noted(clients, heads)
    modifies server`clientMap, server`currentAdmin, server`live, server`inFlight, server`indexed
    modifies server`skipHeadRelease, server`resetLoopAfter, server`insideHandleInterface, server`activeClient
    modifies server.Admin()`outbox, server.clientMap.Values`read
    ensures server.Valid() && AtRest(server)
    ensures TurnEnded(restart, server.clientMap, server.resetLoopAfter, old(server.clientMap), old(server.resetLoopAfter))
    ensures hasError ==> restart && server.clientMap == old(server.clientMap) - {client.id}
    ensures turn == Turn(client.id, hasError, old(server.clientMap).Keys - server.clientMap.Keys,
                         if hasError then None else FrontOf(heads[client.id]))
    ensures !hasError && heads[client.id].inbox == [] ==> server.clientMap == old(server.clientMap)
    ensures Noted(clients, AfterTurn(heads, turn))
  {
    if hasError {
      ghost var was := server.clientMap.Keys;
      OneFewer(server.clientMap, client.id);
      ServeBroken(server, client, clients, heads, tracker);
      restart, turn := true, Turn(client.id, true, was - server.clientMap.Keys, None);
    } else {
      restart, turn := TakeTurn(server, client, clients, heads, tracker);
    }
  }

  lemma OneFewer<V>(m: map<Text, V>, id: Text)
    requires id in m
    ensures |m - {id}| == |m| - 1
  {
    assert (m - {id}).Keys == m.Keys - {id};
    assert |(m - {id}).Keys| == |m.Keys| - 1;
  }

  /** Since the last restart these clients have had a turn. */
  ghost predicate Served(served: set<Text>, turns: seq<Turn>) {
    forall id :: id in served ==> TurnsOf(turns, id) > 0
  }

  lemma ServedMore(served: set<Text>, turns: seq<Turn>, t: Turn)
    requires Served(served, turns)
    ensures Served(served, turns + [t]) && (t.Turn? && !t.broken ==> Served(served + {t.served}, turns + [t]))
  {
    assert (turns + [t])[..|turns|] == turns;
  }

  /** The turns so far, and what they have made of clients and heads. */
  ghost predicate InTurns(now: map<Text, ClientObj>, clients: map<Text, ClientObj>, turns: seq<Turn>) {
    Covers(clients, now) && Legal(clients.Keys, turns) && KeysAfter(clients.Keys, turns) == now.Keys
  }

  lemma TurnTaken(now: map<Text, ClientObj>, mid: map<Text, ClientObj>, clients: map<Text, ClientObj>, turns: seq<Turn>,
                  heads: map<Text, ReadHead>, t: Turn)
    requires InTurns(mid, clients, turns) && Shrunk(now, mid) && GivenFronts(heads, turns) && heads.Keys == clients.Keys
    requires t.Turn? && t.served in mid && t.gone == mid.Keys - now.Keys && (t.broken ==> now == mid - {t.served})
    requires !t.broken ==> t.served in heads && t.handled == FrontOf(AfterTurns(heads, turns)[t.served])
    ensures InTurns(now, clients, turns + [t]) && GivenFronts(heads, turns + [t])
    ensures AfterTurns(heads, turns + [t]) == AfterTurn(AfterTurns(heads, turns), t)
  {
    GivenMore(heads, turns, t);
    CoversLess(clients, mid, now);
    if t.broken {
      assert now.Keys == mid.Keys - {t.served};
    }
    LegalMore(clients.Keys, turns, t);
    assert mid.Keys - t.gone == now.Keys;
    OneTurnMore(heads, turns, t);
  }

  /** A client's read thread puts a stream behind its queue. */
  method Arrive(server: Server, id: Text, s: Stream, ghost clients: map<Text, ClientObj>, ghost heads: map<Text, ReadHead>)
    requires server.Valid() && AtRest(server) && id in server.clientMap
    requires Covers(clients, server.clientMap) && Noted(clients, heads)
    modifies server.clientMap.Values`read
    ensures server.Valid() && Noted(clients, AfterTurn(heads, Arrival(id, s)))
  {
    var client := server.clientMap[id];
    client.read := client.read.(inbox := client.read.inbox + [s]);
  }

  lemma ArrivalNoted(now: map<Text, ClientObj>, clients: map<Text, ClientObj>, turns: seq<Turn>, heads: map<Text, ReadHead>,
                     id: Text, s: Stream)
    requires InTurns(now, clients, turns) && id in now && GivenFronts(heads, turns)
    ensures InTurns(now, clients, turns + [Arrival(id, s)]) && GivenFronts(heads, turns + [Arrival(id, s)])
    ensures AfterTurns(heads, turns + [Arrival(id, s)]) == AfterTurn(AfterTurns(heads, turns), Arrival(id, s))
  {
    GivenMore(heads, turns, Arrival(id, s));
    LegalMore(clients.Keys, turns, Arrival(id, s));
    OneTurnMore(heads, turns, Arrival(id, s));
  }

  /** Any number of streams arrive for any of the clients. */
  method Arrivals(server: Server, ghost clients: map<Text, ClientObj>, ghost heads: map<Text, ReadHead>,
                  ghost before: seq<Turn>, ghost served: set<Text>)
    returns (ghost turns: seq<Turn>)
    requires server.Valid() && AtRest(server) && InTurns(server.clientMap, clients, before)
    requires Noted(clients, AfterTurns(heads, before)) && Served(served, before) && GivenFronts(heads, before)
    modifies server.clientMap.Values`read
    ensures server.Valid() && InTurns(server.clientMap, clients, turns) && Noted(clients, AfterTurns(heads, turns))
    ensures Served(served, turns) && GivenFronts(heads, turns)
  {
    turns := before;
    var many: nat :| many >= 0;
    for k := 0 to many
      invariant server.Valid() && InTurns(server.clientMap, clients, turns) && Noted(clients, AfterTurns(heads, turns))
      invariant Served(served, turns) && GivenFronts(heads, turns)
    {
      var id: Text, s: Stream := *, *;
      if id in server.clientMap {
        Arrive(server, id, s, clients, AfterTurns(heads, turns));
        ArrivalNoted(server.clientMap, clients, turns, heads, id, s);
        ServedMore(served, turns, Arrival(id, s));
        turns := turns + [Arrival(id, s)];
      }
    }
  }

  /** What arrives, and then the turn of a client that is there. */
  method ServeNext(server: Server, id: Text, ghost clients: map<Text, ClientObj>, ghost heads: map<Text, ReadHead>,
                   ghost before: seq<Turn>, ghost served: set<Text>, ghost tracker: map<Text, Record>)
    returns (restart: bool, ghost turns: seq<Turn>)
    requires server.Valid() && AtRest(server) && id in server.clientMap && InTurns(server.clientMap, clients, before)
    requires Noted(clients, AfterTurns(heads, before)) && Served(served, before) && GivenFronts(heads, before)
    modifies server`clientMap, server`currentAdmin, server`live, server`inFlight, server`indexed
    modifies server`skipHeadRelease, server`resetLoopAfter, server`insideHandleInterface, server`activeClient
    modifies server.Admin()`outbox, server.clientMap.Values`read
    ensures server.Valid() && AtRest(server) && InTurns(server.clientMap, clients, turns)
    ensures TurnEnded(restart, server.clientMap, server.resetLoopAfter, old(server.clientMap), old(server.resetLoopAfter))
    ensures Noted(clients, AfterTurns(heads, turns)) && Served(if restart then served else served + {id}, turns)
    ensures GivenFronts(heads, turns)
  {
    turns := Arrivals(server, clients, heads, before, served);
    var hasError: bool := *;
    ghost var mid := server.clientMap;
    ghost var t;
    restart, t := ServeClient(server, server.clientMap[id], hasError, clients, AfterTurns(heads, turns), tracker);
    TurnTaken(server.clientMap, mid, clients, turns, heads, t);
    ServedMore(served, turns, t);
    turns := turns + [t];
  }

  /**
   * The clients' turns, one pass after another, until a pass has served every client there is. What becomes of every
   * read head, the removed clients' included, is told by the turns: a client's locks balance exactly when no other
   * client's handler has disconnected it.
   */
  method ServeClients(server: Server, ghost heads: map<Text, ReadHead>, ghost tracker: map<Text, Record>)
    returns (ghost turns: seq<Turn>)
    requires server.Valid() && AtRest(server) && Noted(server.clientMap, heads)
    modifies server`clientMap, server`currentAdmin, server`live, server`inFlight, server`indexed
    modifies server`skipHeadRelease, server`resetLoopAfter, server`insideHandleInterface, server`activeClient
    modifies server.Admin()`outbox, server.clientMap.Values`read
    ensures server.Valid() && AtRest(server) && Shrunk(server.clientMap, old(server.clientMap))
    ensures Legal(heads.Keys, turns) && KeysAfter(heads.Keys, turns) == server.clientMap.Keys
    ensures Noted(old(server.clientMap), AfterTurns(heads, turns))
    ensures forall id :: id in server.clientMap ==> TurnsOf(turns, id) > 0
    ensures forall id :: id in heads ==>
              (Even(AfterTurns(heads, turns)[id], heads[id]) <==> forall k :: 0 <= k < |turns| ==> !Stray(turns[k], id))
    ensures GivenFronts(heads, turns) && forall id :: id in heads ==> FedSoFar(heads, turns, id)
  {
    turns := [];
    ghost var clients := server.clientMap;
    var todo := server.clientMap.Keys;
    ghost var served: set<Text> := {};
    while todo != {}
      invariant server.Valid() && AtRest(server)
      invariant server.Admin() <= old(server.Admin())
      invariant todo <= server.clientMap.Keys <= todo + served
      invariant InTurns(server.clientMap, clients, turns) && Noted(clients, AfterTurns(heads, turns))
      invariant Served(served, turns) && GivenFronts(heads, turns)
      decreases Fuel(server.clientMap, server.resetLoopAfter), |todo|
    {
      var id :| id in todo;
      var restart;
      restart, turns := ServeNext(server, id, clients, heads, turns, served, tracker);
      if restart {
        todo, served := server.clientMap.Keys, {};
      } else {
        assert todo <= (todo - {id}) + (served + {id});
        todo, served := todo - {id}, served + {id};
      }
    }
    forall id | id in heads
      ensures Even(AfterTurns(heads, turns)[id], heads[id]) <==> forall k :: 0 <= k < |turns| ==> !Stray(turns[k], id)
    {
      EvenExactly(heads, turns, id);
    }
    forall id | id in heads ensures FedSoFar(heads, turns, id) {
      HandledInOrder(heads, turns, id);
    }
  }
}
