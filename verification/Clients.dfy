/** The server's connected clients, its node table, and the bookkeeping around connecting and disconnecting. */
module Clients {
  import opened Bytes
  import opened Arguments
  import opened ReplicaModel
  import opened NodeRecords
  import Pacing

  /** A read queue as the master loop handles it: its streams, its lock, and how often it was locked, unlocked, popped. */
  datatype ReadHead = ReadHead(inbox: seq<Stream>, held: bool, ghost acquired: nat, ghost released: nat, ghost taken: nat)

  /** Locked once more. */
  ghost function Acquired(h: ReadHead): ReadHead { h.(held := true, acquired := h.acquired + 1) }

  /** Unlocked, and rid of its front if there was one. */
  ghost function Released(h: ReadHead): ReadHead {
    var rest := if h.inbox == [] then [] else h.inbox[1..];
    h.(inbox := rest, held := false, released := h.released + 1, taken := h.taken + |h.inbox| - |rest|)
  }

  /** What is handed out of a queue, if there is anything. */
  function FrontOf(h: ReadHead): Option<Stream> { if h.inbox == [] then None else Some(h.inbox[0]) }

  /** A connected client: who it is, its last ping, and its two queues. */
  class ClientObj {
    const id: Text
    const ip: Text
    const token: Text
    const platform: Text
    const time: int64
    var revision: Text
    var group: Text
    var waiting: bool
    var sentTime: int64
    var latency: int64
    /** What the write queue holds, and the read queue. */
    var outbox: seq<Stream>
    var read: ReadHead

    constructor (id: Text, ip: Text, token: Text, platform: Text, revision: Text, time: int64, now: int64)
      ensures this.id == id && this.ip == ip && this.token == token && this.platform == platform && this.time == time
      ensures this.revision == revision && group == [] && latency == 0 && !waiting && sentTime == now
      ensures outbox == [] && read == ReadHead([], false, 0, 0, 0)
    {
      this.id, this.ip, this.token, this.platform, this.time := id, ip, token, platform, time;
      this.revision, group := revision, [];
      waiting, sentTime, latency := false, now, 0;
      outbox, read := [], ReadHead([], false, 0, 0, 0);
    }

    function AsNode(): Node
      reads this`revision, this`group, this`latency
    {
      Node(Row(platform, revision, time, group), ip, latency, token)
    }

    method SendStream(s: Stream)
      modifies this`outbox
      ensures outbox == old(outbox) + [s]
    {
      outbox := outbox + [s];
    }

    /** At most one ping is under way. */
    method SendPing(now: int64) returns (sent: bool)
      modifies this`outbox, this`sentTime, this`waiting
      ensures sent == !old(waiting) && waiting
      ensures outbox == if sent then old(outbox) + [Stream(CMDCODE_ANY_PING, 0, [])] else old(outbox)
      ensures sentTime == if sent then now else old(sentTime)
    {
      if waiting {
        return false;
      }
      SendStream(Stream(CMDCODE_ANY_PING, 0, []));
      sentTime, waiting := now, true;
      sent := true;
    }

    /** The round trip, less one period of the core loop when it took at least that long. */
    method CompletePing(now: int64)
      modifies this`waiting, this`latency
      ensures !waiting
      ensures latency == if old(waiting) then Latency(Wrap64(now - sentTime)) else old(latency)
    {
      if !waiting {
        return;
      }
      waiting := false;
      latency := Wrap64(now - sentTime);
      if Wrap64(latency - Pacing.SERVER_CORE_FREQUENCY_MS) >= 0 {
        latency := Wrap64(latency - Pacing.SERVER_CORE_FREQUENCY_MS);
      }
    }

    /** What is recorded of a round trip. */
    static function Latency(roundTrip: int64): (latency: int64)
      ensures roundTrip >= Pacing.SERVER_CORE_FREQUENCY_MS ==> latency == roundTrip - Pacing.SERVER_CORE_FREQUENCY_MS
      ensures Pacing.SERVER_CORE_FREQUENCY_MS - 0x8000_0000_0000_0000 <= roundTrip < Pacing.SERVER_CORE_FREQUENCY_MS ==>
                latency == roundTrip
      ensures roundTrip < Pacing.SERVER_CORE_FREQUENCY_MS - 0x8000_0000_0000_0000 ==>
                latency == roundTrip - Pacing.SERVER_CORE_FREQUENCY_MS + UINT64_LIMIT
    {
      var less := Wrap64(roundTrip - Pacing.SERVER_CORE_FREQUENCY_MS);
      if less >= 0 then less else roundTrip
    }

    /** Locks the read queue, with or without something at its head. */
    method HeadAcquire() returns (head: Option<Stream>)
      modifies this`read
      ensures read == Acquired(old(read))
      ensures head == FrontOf(old(read))
    {
      read := read.(held := true, acquired := read.acquired + 1);
      head := if read.inbox == [] then None else Some(read.inbox[0]);
    }

    /** Unlocks the read queue, dropping its head if there is one. */
    method HeadRelease()
      modifies this`read
      ensures read == Released(old(read))
    {
      if |read.inbox| > 0 {
        read := read.(inbox := read.inbox[1..], taken := read.taken + 1);
      }
      read := read.(held := false, released := read.released + 1);
    }
  }

  /** What the administrator is told of one node. */
  function ChangeOf(id: Text, entry: Row, ip: Text, latency: int64, online: bool): (s: Stream)
    ensures Decoded(s) == Change(Record(id, entry, ip, latency, online))
  {
    var r := Record(id, entry, ip, latency, online);
    DecodedChange(r);
    Stream(CMDCODE_S2A_NOTIFY_NODECHG, 0,
           [String(id), String(entry.platform), String(entry.revision), String(entry.group), Int64(entry.time),
            String(ip), Int64(latency), Bool(online)])
  }

  class Server {
    var clientMap: map<Text, ClientObj>
    var currentAdmin: ClientObj?
    var nodeInfo: map<Text, Row>
    var skipHeadRelease: bool
    var resetLoopAfter: bool
    var insideHandleInterface: bool
    var activeClient: ClientObj?
    /** What the map's clients and the administrator's queue amount to, and whether an index response has been queued. */
    ghost var live: map<Text, Node>
    ghost var inFlight: seq<Message>
    ghost var indexed: bool

    /**
     * Every key is its client's name, and the current administrator is the client called ADMIN, if there is one; an
     * administrator has no token.
     */
    predicate Keyed()
      reads this`clientMap, this`currentAdmin
    {
      && (forall id :: id in clientMap ==> clientMap[id].id == id)
      && (ADMIN in clientMap <==> currentAdmin != null)
      && (currentAdmin != null ==> clientMap[ADMIN] == currentAdmin && currentAdmin.token == [])
    }

    /** The ghost fields say what the map and the administrator's queue hold, but perhaps for the node called except. */
    ghost predicate LinkedBut(except: Text)
      reads this`clientMap, this`live, this`inFlight
      reads clientMap.Values`revision, clientMap.Values`group, clientMap.Values`latency, clientMap.Values`outbox
    {
      && live.Keys == clientMap.Keys - {ADMIN}
      && (forall id :: id in live && id != except ==> live[id] == clientMap[id].AsNode())
      && inFlight == (if ADMIN !in clientMap then [] else DecodedAll(clientMap[ADMIN].outbox))
    }

    ghost predicate Valid()
      reads this`clientMap, this`currentAdmin, this`live, this`inFlight
      reads clientMap.Values`revision, clientMap.Values`group, clientMap.Values`latency, clientMap.Values`outbox
    {
      Keyed() && LinkedBut(ADMIN)
    }

    /** Brings the account of one node up to date. */
    ghost method Sync(client: ClientObj)
      requires Keyed() && LinkedBut(client.id)
      requires client.id in clientMap && clientMap[client.id] == client && client.id != ADMIN
      modifies this`live
      ensures Valid() && live == old(live)[client.id := client.AsNode()]
    {
      live := live[client.id := client.AsNode()];
    }

    /** The server, and the streams it has queued to the administrator, as the replica model sees them. */
    ghost function Abstract(tracker: map<Text, Record>): State
      reads this
    {
      State(live, nodeInfo, currentAdmin != null, indexed, inFlight, tracker)
    }

    constructor ()
      ensures Valid() && clientMap == map[]
      ensures forall tracker :: Abstract(tracker) == Boot.(tracker := tracker)
      ensures !skipHeadRelease && !resetLoopAfter && !insideHandleInterface && activeClient == null
    {
      clientMap, currentAdmin, nodeInfo := map[], null, map[];
      live, inFlight, indexed := map[], [], false;
      skipHeadRelease, resetLoopAfter, insideHandleInterface, activeClient := false, false, false, null;
    }

    method AddClient(client: ClientObj) returns (added: bool)
      requires Keyed() && (client.id == ADMIN ==> client.token == [])
      modifies this`clientMap, this`currentAdmin
      ensures Keyed() && added == (client.id !in old(clientMap))
      ensures clientMap == if added then old(clientMap)[client.id := client] else old(clientMap)
      ensures currentAdmin == if added && client.id == ADMIN then client else old(currentAdmin)
    {
      if client.id in clientMap {
        return false;
      }
      clientMap := clientMap[client.id := client];
      if client.id == ADMIN {
        currentAdmin := client;
      }
      added := true;
    }

    /** Maps a node that is not there yet. */
    method AddNode(client: ClientObj)
      requires Valid() && client.id !in clientMap && client.id != ADMIN
      modifies this`clientMap, this`currentAdmin, this`live
      ensures Valid() && clientMap == old(clientMap)[client.id := client] && currentAdmin == old(currentAdmin)
      ensures live == old(live)[client.id := client.AsNode()]
    {
      var _ := AddClient(client);
      live := live[client.id := client.AsNode()];
    }

    /** Maps an administrator in an empty place; what its queue holds is under way, and no index response is. */
    method AddAdmin(client: ClientObj)
      requires Valid() && currentAdmin == null && client.id == ADMIN && client.token == []
      modifies this`clientMap, this`currentAdmin, this`inFlight, this`indexed
      ensures Valid() && clientMap == old(clientMap)[ADMIN := client] && currentAdmin == client
      ensures inFlight == DecodedAll(client.outbox) && !indexed
    {
      var _ := AddClient(client);
      inFlight, indexed := DecodedAll(client.outbox), false;
    }

    /** Takes out whatever is filed under the client's name; the administrator's place is vacated with its client. */
    method DeleteClient(client: ClientObj) returns (deleted: bool)
      requires forall id :: id in clientMap ==> clientMap[id].id == id
      modifies this`clientMap, this`currentAdmin
      ensures deleted == (client.id in old(clientMap)) && clientMap == old(clientMap) - {client.id}
      ensures currentAdmin == if deleted && client == old(currentAdmin) then null else old(currentAdmin)
    {
      if client.id !in clientMap {
        return false;
      }
      clientMap := clientMap - {client.id};
      if client == currentAdmin {
        currentAdmin := null;
      }
      deleted := true;
    }

    function LookupClient(id: Text): (r: ClientObj?)
      reads this`clientMap
      ensures r != null <==> id in clientMap
      ensures r != null ==> r == clientMap[id]
    {
      if id in clientMap then clientMap[id] else null
    }

    /** Queues a stream for the administrator. */
    method SendAdmin(s: Stream)
      requires Valid() && currentAdmin != null
      modifies this`inFlight, currentAdmin`outbox
      ensures Valid() && inFlight == old(inFlight) + [Decoded(s)]
      ensures currentAdmin.outbox == old(currentAdmin.outbox) + [s]
    {
      DecodedAppend(currentAdmin.outbox, s);
      currentAdmin.SendStream(s);
      inFlight := inFlight + [Decoded(s)];
    }

    ghost function Admin(): set<ClientObj>
      reads this`currentAdmin
    {
      if currentAdmin == null then {} else {currentAdmin}
    }

    /** Tells the administrator of one node: the table's row, and address and latency if it is connected. */
    method NotifyAdminNodeChange(id: Text, online: bool, ghost tracker: map<Text, Record>)
      requires Valid() && (online ==> id in clientMap)
      modifies this`inFlight, Admin()`outbox
      ensures Valid()
      ensures Abstract(tracker) ==
              if online && id == ADMIN then old(Abstract(tracker)) else Notify(old(Abstract(tracker)), id, online)
    {
      if currentAdmin == null {
        return;
      }
      var client := if online then LookupClient(id) else null;
      if client != null && client == currentAdmin {
        return;
      }
      if id !in nodeInfo {
        return;
      }
      var change := if client != null then ChangeOf(id, nodeInfo[id], client.ip, client.latency, online)
                    else ChangeOf(id, nodeInfo[id], [], 0, online);
      SendAdmin(change);
    }

    /** Inside a handler, drops what is at the head of a leaving client's read queue, unlocks it, and signals the loop. */
    method GiveUpHead(client: ClientObj)
      requires Valid()
      modifies this`skipHeadRelease, this`resetLoopAfter, client`read
      ensures Valid()
      ensures skipHeadRelease == (old(skipHeadRelease) || (insideHandleInterface && client == activeClient))
      ensures resetLoopAfter == (old(resetLoopAfter) || (insideHandleInterface && client != activeClient))
      ensures client.read == if insideHandleInterface then Released(old(client.read)) else old(client.read)
    {
      if insideHandleInterface {
        if client == activeClient {
          skipHeadRelease := true;
        } else {
          resetLoopAfter := true;
        }
        client.HeadRelease();
      }
    }

    /** Takes the administrator out of the map, and with it what is queued to it. */
    method RemoveAdmin(client: ClientObj)
      requires Valid() && client == currentAdmin
      modifies this`clientMap, this`currentAdmin, this`inFlight, this`indexed
      ensures Valid() && clientMap == old(clientMap) - {ADMIN}
      ensures currentAdmin == null && inFlight == [] && !indexed
    {
      currentAdmin := null;
      var _ := DeleteClient(client);
      inFlight, indexed := [], false;
    }

    /** Vacates the administrator's place; nobody is told. */
    method DisconnectAdmin(client: ClientObj, ghost tracker: map<Text, Record>)
      requires Valid() && client == currentAdmin
      modifies this`clientMap, this`currentAdmin, this`inFlight, this`indexed
      ensures Valid() && clientMap == old(clientMap) - {ADMIN}
      ensures Abstract(tracker) == AdminLeft(old(Abstract(tracker)))
    {
      RemoveAdmin(client);
    }

    /** Nobody else is mapped under the client's name. */
    predicate Itself(client: ClientObj)
      reads this`clientMap
    {
      client.id in clientMap ==> clientMap[client.id] == client
    }

    /** Takes a node out of the map, if it is there. */
    method RemoveNode(client: ClientObj)
      requires Valid() && Itself(client) && client != currentAdmin
      modifies this`clientMap, this`currentAdmin, this`live
      ensures Valid() && clientMap == old(clientMap) - {client.id} && live == old(live) - {client.id}
      ensures currentAdmin == old(currentAdmin)
    {
      var _ := DeleteClient(client);
      live := live - {client.id};
    }

    /** Reports a node offline while it is still mapped, if it ever was, then takes it out. */
    method DisconnectNode(client: ClientObj, ghost tracker: map<Text, Record>)
      requires Valid() && Itself(client) && client != currentAdmin
      modifies this`clientMap, this`currentAdmin, this`live, this`inFlight, Admin()`outbox
      ensures Valid() && clientMap == old(clientMap) - {client.id} && currentAdmin == old(currentAdmin)
      ensures Abstract(tracker) == Left(old(Abstract(tracker)), client.id)
    {
      NotifyAdminNodeChange(client.id, false, tracker);
      RemoveNode(client);
    }

    /** Takes a client out; one that was never mapped, as after a login that failed, is reported offline all the same. */
    method ProcessNodeDisconnect(client: ClientObj, ghost tracker: map<Text, Record>)
      requires Valid() && Itself(client)
      modifies this`clientMap, this`currentAdmin, this`live, this`inFlight, this`indexed
      modifies this`skipHeadRelease, this`resetLoopAfter, client`read
      modifies Admin()`outbox
      ensures Valid() && clientMap == old(clientMap) - {client.id} && client.outbox == old(client.outbox)
      ensures client == old(currentAdmin) ==> Abstract(tracker) == AdminLeft(old(Abstract(tracker)))
      ensures client != old(currentAdmin) ==>
                Abstract(tracker) == Left(old(Abstract(tracker)), client.id) && currentAdmin == old(currentAdmin)
      ensures skipHeadRelease == (old(skipHeadRelease) || (insideHandleInterface && client == activeClient))
      ensures resetLoopAfter == (old(resetLoopAfter) || (insideHandleInterface && client != activeClient))
      ensures client.read == if insideHandleInterface then Released(old(client.read)) else old(client.read)
    {
      if client == currentAdmin {
        DisconnectAdmin(client, tracker);
      } else {
        DisconnectNode(client, tracker);
      }
      GiveUpHead(client);
    }
  }
}
