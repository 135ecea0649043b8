/** The server's pings: who is sent one, and who has failed to answer for too long. */
module Pings {
  import opened Bytes
  import opened Arguments
  import opened ReplicaModel
  import opened NodeRecords
  import opened Clients
  import opened CmdHandling
  import opened MasterLoop

  const PING_INTERVAL_TIME_SECS: nat := 60
  const PING_PINGOUT_TIME_SECS: nat := PING_INTERVAL_TIME_SECS / 4

  const PING: Stream := Stream(CMDCODE_ANY_PING, 0, [])

  /** What the status objects say of a client: its queues are empty and idle; nothing has moved for the ping-out time. */
  datatype Sight = Sight(idle: bool, quiet: bool)

  /**
   * Whether an answer is waited for, when the last ping was sent, in milliseconds, and what is queued. The
   * administrator's queue also takes the notifications, and is left out of this account.
   */
  datatype PingState = PingState(waiting: bool, sentTime: int64, queued: Option<seq<Stream>>)

  function PingOf(client: ClientObj): PingState
    reads client`waiting, client`sentTime, client`outbox
  {
    PingState(client.waiting, client.sentTime, if client.id == ADMIN then None else Some(client.outbox))
  }

  /** Division as in C++, towards zero. */
  function Secs(ms: int64): int { if ms >= 0 then ms / 1000 else -((0 - ms as int) / 1000) }

  predicate IsDue(p: PingState, sight: Sight, nowMs: int64) {
    !p.waiting && Secs(p.sentTime) + PING_INTERVAL_TIME_SECS <= Secs(nowMs) && sight.idle
  }

  predicate IsGone(p: PingState, sight: Sight, nowMs: int64) {
    p.waiting && Secs(p.sentTime) + PING_PINGOUT_TIME_SECS <= Secs(nowMs) && sight.quiet
  }

  /** Sixty seconds suffice for a ping and fifty-nine do not, whole seconds being compared. */
  lemma DueTimes(p: PingState, sight: Sight, nowMs: int64)
    ensures IsDue(p, sight, nowMs) ==> !p.waiting && sight.idle && nowMs - p.sentTime > 59_000
    ensures !p.waiting && sight.idle && nowMs - p.sentTime >= 61_000 ==> IsDue(p, sight, nowMs)
    ensures !p.waiting && sight.idle && nowMs - p.sentTime >= 60_000 && (p.sentTime >= 0 || nowMs < 0) ==> IsDue(p, sight, nowMs)
  {
  }

  /** Fifteen seconds of silence suffice to be taken out, and fourteen do not. */
  lemma GoneTimes(p: PingState, sight: Sight, nowMs: int64)
    ensures IsGone(p, sight, nowMs) ==> p.waiting && sight.quiet && nowMs - p.sentTime > 14_000
    ensures p.waiting && sight.quiet && nowMs - p.sentTime >= 16_000 ==> IsGone(p, sight, nowMs)
    ensures p.waiting && sight.quiet && nowMs - p.sentTime >= 15_000 && (p.sentTime >= 0 || nowMs < 0) ==> IsGone(p, sight, nowMs)
  {
  }

  /** A client that is due has been sent a ping, and its answer is waited for. */
  function Checked(p: PingState, sight: Sight, nowMs: int64): PingState {
    if !IsDue(p, sight, nowMs) then p
    else PingState(true, nowMs, if p.queued.Some? then Some(p.queued.value + [PING]) else None)
  }

  /** A second look in the same pass changes nothing more. */
  lemma CheckedTwice(p: PingState, sight: Sight, nowMs: int64)
    ensures Checked(Checked(p, sight, nowMs), sight, nowMs) == Checked(p, sight, nowMs)
    ensures IsGone(Checked(p, sight, nowMs), sight, nowMs) == IsGone(p, sight, nowMs)
  {
  }

  /** A ping to a client; the administrator's goes into the queue its tracker is fed from. */
  method SendPing(server: Server, client: ClientObj, nowMs: int64)
    requires server.Valid() && Mapped(server, client) && !client.waiting
    modifies server`inFlight, client`outbox, client`sentTime, client`waiting
    ensures server.Valid() && client.waiting && client.sentTime == nowMs && client.outbox == old(client.outbox) + [PING]
    ensures server.inFlight == old(server.inFlight) + (if client.id == ADMIN then [Unrelated] else [])
  {
    if client == server.currentAdmin {
      DecodedAppend(client.outbox, PING);
      var _ := client.SendPing(nowMs);
      server.inFlight := server.inFlight + [Unrelated];
    } else {
      var _ := client.SendPing(nowMs);
    }
  }

  /** The clients' ping states are as noted. */
  ghost predicate PingsNoted(server: Server, pings: map<Text, PingState>)
    reads server`clientMap
    reads server.clientMap.Values`waiting, server.clientMap.Values`sentTime, server.clientMap.Values`outbox
  {
    forall id :: id in server.clientMap ==> id in pings && PingOf(server.clientMap[id]) == pings[id]
  }

  /** A client that is not waited for gets a ping if one is due and its queues are idle. */
  method PingIfDue(server: Server, client: ClientObj, sight: Sight, nowMs: int64, ghost pings: map<Text, PingState>)
    requires server.Valid() && Mapped(server, client) && !client.waiting && PingsNoted(server, pings)
    modifies server`inFlight, client`outbox, client`sentTime, client`waiting
    ensures server.Valid() && PingsNoted(server, pings[client.id := Checked(old(PingOf(client)), sight, nowMs)])
    ensures client.outbox == old(client.outbox) + (if IsDue(old(PingOf(client)), sight, nowMs) then [PING] else [])
  {
    if Secs(client.sentTime) + PING_INTERVAL_TIME_SECS <= Secs(nowMs) {
      if sight.idle {
        SendPing(server, client, nowMs);
      }
    }
  }

  /** Disconnects a client; nobody's pings are touched. */
  method TakeOut(server: Server, client: ClientObj, ghost pings: map<Text, PingState>, ghost tracker: map<Text, Record>)
    requires server.Valid() && Mapped(server, client) && AtRest(server) && PingsNoted(server, pings)
    modifies server`clientMap, server`currentAdmin, server`live, server`inFlight, server`indexed
    modifies server`skipHeadRelease, server`resetLoopAfter
    modifies server.Admin()`outbox, client`read
    ensures server.Valid() && AtRest(server) && PingsNoted(server, pings)
    ensures server.clientMap == old(server.clientMap) - {client.id}
  {
    ghost var all := server.clientMap;
    server.ProcessNodeDisconnect(client, tracker);
    forall id | id in server.clientMap ensures id in pings && PingOf(server.clientMap[id]) == pings[id] {
      assert server.clientMap[id] == all[id] && all[id].id == id;
    }
  }

  /** A client that is waited for is taken out when it has been silent for too long. */
  method DropIfGone(server: Server, client: ClientObj, sight: Sight, nowMs: int64, ghost pings: map<Text, PingState>,
                    ghost tracker: map<Text, Record>)
    returns (restart: bool)
    requires server.Valid() && Mapped(server, client) && AtRest(server) && client.waiting && PingsNoted(server, pings)
    modifies server`clientMap, server`currentAdmin, server`live, server`inFlight, server`indexed
    modifies server`skipHeadRelease, server`resetLoopAfter
    modifies server.Admin()`outbox, client`read
    ensures server.Valid() && AtRest(server) && PingsNoted(server, pings)
    ensures restart == IsGone(PingOf(client), sight, nowMs)
    ensures !restart ==> client.outbox == old(client.outbox)
    ensures server.clientMap == if restart then old(server.clientMap) - {client.id} else old(server.clientMap)
  {
    restart := Secs(client.sentTime) + PING_PINGOUT_TIME_SECS <= Secs(nowMs) && sight.quiet;
    if restart {
      TakeOut(server, client, pings, tracker);
    }
  }

  /** One client's check: a ping if one is due, and the end if the last has gone unanswered for too long. */
  method CheckClient(server: Server, client: ClientObj, sight: Sight, nowMs: int64, ghost pings: map<Text, PingState>,
                     ghost tracker: map<Text, Record>)
    returns (restart: bool)
    requires server.Valid() && Mapped(server, client) && AtRest(server) && PingsNoted(server, pings)
    modifies server`clientMap, server`currentAdmin, server`live, server`inFlight, server`indexed
    modifies server`skipHeadRelease, server`resetLoopAfter
    modifies server.Admin()`outbox, client`outbox, client`sentTime, client`waiting, client`read
    ensures server.Valid() && AtRest(server)
    ensures restart == IsGone(old(PingOf(client)), sight, nowMs)
    ensures server.clientMap == if restart then old(server.clientMap) - {client.id} else old(server.clientMap)
    ensures !restart ==>
              client.outbox == old(client.outbox) + (if IsDue(old(PingOf(client)), sight, nowMs) then [PING] else [])
    ensures PingsNoted(server, pings[client.id := Checked(old(PingOf(client)), sight, nowMs)])
  {
    if !client.waiting {
      PingIfDue(server, client, sight, nowMs, pings);
      restart := false;
    } else {
      assert pings[client.id := PingOf(client)] == pings;
      restart := DropIfGone(server, client, sight, nowMs, pings, tracker);
    }
  }

  /** How far a pass has come: whoever has gone was to go, and whoever needs no more looking at has been dealt with. */
  ghost predicate CheckedSoFar(keys: set<Text>, pings: map<Text, PingState>, was: map<Text, PingState>,
                               sights: Text -> Sight, nowMs: int64, todo: set<Text>)
  {
    && todo <= keys <= pings.Keys && pings.Keys == was.Keys
    && (forall id :: id in was ==> pings[id] == was[id] || pings[id] == Checked(was[id], sights(id), nowMs))
    && (forall id :: id in was && id !in keys ==> IsGone(was[id], sights(id), nowMs))
    && (forall id :: id in keys - todo ==>
          pings[id] == Checked(was[id], sights(id), nowMs) && !IsGone(was[id], sights(id), nowMs))
  }

  lemma CheckStep(keys: set<Text>, pings: map<Text, PingState>, was: map<Text, PingState>, sights: Text -> Sight,
                  nowMs: int64, todo: set<Text>, id: Text)
    requires CheckedSoFar(keys, pings, was, sights, nowMs, todo) && id in todo
    ensures var after := pings[id := Checked(pings[id], sights(id), nowMs)];
            if IsGone(pings[id], sights(id), nowMs) then CheckedSoFar(keys - {id}, after, was, sights, nowMs, keys - {id})
            else CheckedSoFar(keys, after, was, sights, nowMs, todo - {id})
  {
    CheckedTwice(was[id], sights(id), nowMs);
  }

  /** What a whole pass amounts to. */
  ghost predicate PassDone(keys: set<Text>, pings: map<Text, PingState>, was: map<Text, PingState>, sights: Text -> Sight,
                           nowMs: int64)
  {
    && keys == (set id | id in was && !IsGone(was[id], sights(id), nowMs))
    && forall id :: id in keys ==> id in pings && pings[id] == Checked(was[id], sights(id), nowMs)
  }

  /** The pass, as a fact about the map: clients only go, and the rest is accounted for. */
  ghost predicate InPass(now: map<Text, ClientObj>, clients: map<Text, ClientObj>, pings: map<Text, PingState>,
                         was: map<Text, PingState>, sights: Text -> Sight, nowMs: int64, todo: set<Text>)
  {
    Shrunk(now, clients) && CheckedSoFar(now.Keys, pings, was, sights, nowMs, todo)
  }

  lemma InPassStep(now: map<Text, ClientObj>, clients: map<Text, ClientObj>, pings: map<Text, PingState>,
                   was: map<Text, PingState>, sights: Text -> Sight, nowMs: int64, todo: set<Text>, id: Text)
    requires InPass(now, clients, pings, was, sights, nowMs, todo) && id in todo
    ensures id in now && id in pings
    ensures var after := pings[id := Checked(pings[id], sights(id), nowMs)];
            if IsGone(pings[id], sights(id), nowMs) then
              InPass(now - {id}, clients, after, was, sights, nowMs, (now - {id}).Keys) && |now - {id}| < |now|
            else InPass(now, clients, after, was, sights, nowMs, todo - {id})
  {
    CheckStep(now.Keys, pings, was, sights, nowMs, todo, id);
    OneFewer(now, id);
    assert (now - {id}).Keys == now.Keys - {id};
  }

  lemma InPassDone(now: map<Text, ClientObj>, clients: map<Text, ClientObj>, pings: map<Text, PingState>,
                   was: map<Text, PingState>, sights: Text -> Sight, nowMs: int64)
    requires InPass(now, clients, pings, was, sights, nowMs, {})
    ensures Shrunk(now, clients) && PassDone(now.Keys, pings, was, sights, nowMs)
  {
  }

  /**
   * Checks every client, starting over behind each removal. In the end exactly those have gone whose ping was
   * unanswered for too long, and exactly those who were due have been sent one ping.
   */
  method CheckPingsAndQueues(server: Server, sights: Text -> Sight, nowMs: int64, ghost was: map<Text, PingState>,
                             ghost tracker: map<Text, Record>)
    returns (ghost pings: map<Text, PingState>)
    requires server.Valid() && AtRest(server) && PingsNoted(server, was) && was.Keys == server.clientMap.Keys
    modifies server`clientMap, server`currentAdmin, server`live, server`inFlight, server`indexed
    modifies server`skipHeadRelease, server`resetLoopAfter
    modifies server.clientMap.Values
    ensures server.Valid() && AtRest(server) && Shrunk(server.clientMap, old(server.clientMap))
    ensures PingsNoted(server, pings) && PassDone(server.clientMap.Keys, pings, was, sights, nowMs)
  {
    ghost var clients := server.clientMap;
    pings := was;
    var todo := server.clientMap.Keys;
    while todo != {}
      invariant server.Valid() && AtRest(server) && PingsNoted(server, pings)
      invariant InPass(server.clientMap, clients, pings, was, sights, nowMs, todo)
      invariant server.clientMap.Values <= clients.Values
      decreases |server.clientMap|, |todo|
    {
      var id :| id in todo;
      InPassStep(server.clientMap, clients, pings, was, sights, nowMs, todo, id);
      var client := server.clientMap[id];
      var restart := CheckClient(server, client, sights(id), nowMs, pings, tracker);
      pings := pings[id := Checked(pings[id], sights(id), nowMs)];
      todo := if restart then server.clientMap.Keys else todo - {id};
    }
    InPassDone(server.clientMap, clients, pings, was, sights, nowMs);
  }
}
