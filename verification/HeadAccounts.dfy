/** The account of the clients' read heads: who locked, unlocked and dropped what, over the turns of the master loop. */
module HeadAccounts {
  import opened Bytes
  import opened Arguments
  import opened Clients
  import opened NodeRecords

  /**
   * Whose turn it was, whether it was cut short by a failed connection, who has gone in it, and what stream its handler
   * was given; or, between turns, a stream that a client's read thread has put behind its queue.
   */
  datatype Turn =
    | Turn(served: Text, broken: bool, gone: set<Text>, handled: Option<Stream>)
    | Arrival(to: Text, stream: Stream)

  function GoneIn(t: Turn): set<Text> { if t.Turn? then t.gone else {} }

  ghost function Received(h: ReadHead, s: Stream): ReadHead { h.(inbox := h.inbox + [s]) }

  /** Whoever is disconnected by a handler has its read head given up: unlocked, and rid of its front. */
  ghost function GivenUp(heads: map<Text, ReadHead>, gone: set<Text>): map<Text, ReadHead> {
    map id | id in heads :: if id in gone then Released(heads[id]) else heads[id]
  }

  lemma NobodyGivenUp(heads: map<Text, ReadHead>)
    ensures GivenUp(heads, {}) == heads
  {
  }

  lemma GivenUpTwice(heads: map<Text, ReadHead>, a: set<Text>, b: set<Text>)
    requires a * b == {}
    ensures GivenUp(GivenUp(heads, a), b) == GivenUp(heads, a + b)
  {
    forall id | id in a ensures id !in b {
      assert id in a * b <==> id in b;
    }
  }

  /**
   * The served client's head is acquired and released, once each; the heads of others that went in the turn are
   * released although nobody has acquired them. A failed connection's head, or anybody else's then, is not touched. What
   * arrives goes behind what has arrived before.
   */
  ghost function AfterTurn(heads: map<Text, ReadHead>, t: Turn): map<Text, ReadHead> {
    if t.Arrival? then (if t.to in heads then heads[t.to := Received(heads[t.to], t.stream)] else heads)
    else if t.broken || t.served !in heads then heads
    else GivenUp(heads, t.gone - {t.served})[t.served := Released(Acquired(heads[t.served]))]
  }

  ghost function AfterTurns(heads: map<Text, ReadHead>, turns: seq<Turn>): (now: map<Text, ReadHead>)
    ensures now.Keys == heads.Keys
  {
    if turns == [] then heads else AfterTurn(AfterTurns(heads, turns[..|turns| - 1]), turns[|turns| - 1])
  }

  lemma OneTurnMore(heads: map<Text, ReadHead>, turns: seq<Turn>, t: Turn)
    ensures AfterTurns(heads, turns + [t]) == AfterTurn(AfterTurns(heads, turns), t)
  {
    assert (turns + [t])[..|turns|] == turns;
  }

  /** A turn seen from inside: the head acquired first, given up by the handler, released by the loop if it still is to be. */
  lemma TurnFromInside(heads: map<Text, ReadHead>, id: Text, gone: set<Text>, handled: Option<Stream>)
    requires id in heads
    ensures var inside := GivenUp(heads[id := Acquired(heads[id])], gone);
            AfterTurn(heads, Turn(id, false, gone, handled)) == if id in gone then inside else inside[id := Released(inside[id])]
  {
  }

  /** The clients that are left. */
  ghost function KeysAfter(keys: set<Text>, turns: seq<Turn>): set<Text> {
    if turns == [] then keys else KeysAfter(keys, turns[..|turns| - 1]) - GoneIn(turns[|turns| - 1])
  }

  /**
   * Turns are taken by clients that are there, and those that go were there; a failed connection takes its client.
   * Streams arrive for clients that are there.
   */
  ghost predicate MayFollow(keys: set<Text>, t: Turn) {
    if t.Arrival? then t.to in keys
    else t.served in keys && t.gone <= keys && (t.broken ==> t.gone == {t.served})
  }

  ghost predicate Legal(keys: set<Text>, turns: seq<Turn>) {
    turns != [] ==>
      var front, t := turns[..|turns| - 1], turns[|turns| - 1];
      Legal(keys, front) && MayFollow(KeysAfter(keys, front), t)
  }

  lemma LegalMore(keys: set<Text>, turns: seq<Turn>, t: Turn)
    requires Legal(keys, turns) && MayFollow(KeysAfter(keys, turns), t)
    ensures Legal(keys, turns + [t]) && KeysAfter(keys, turns + [t]) == KeysAfter(keys, turns) - GoneIn(t)
  {
    assert (turns + [t])[..|turns|] == turns;
  }

  /** Another client's handler has disconnected this one. */
  predicate Stray(t: Turn, id: Text) { t.Turn? && !t.broken && id in t.gone && id != t.served }

  function Strays(turns: seq<Turn>, id: Text): nat {
    if turns == [] then 0
    else Strays(turns[..|turns| - 1], id) + if Stray(turns[|turns| - 1], id) then 1 else 0
  }

  predicate TurnFor(t: Turn, id: Text) { t.Turn? && !t.broken && t.served == id }

  /** The turns that a client has had. */
  function TurnsOf(turns: seq<Turn>, id: Text): nat {
    if turns == [] then 0
    else TurnsOf(turns[..|turns| - 1], id) + if TurnFor(turns[|turns| - 1], id) then 1 else 0
  }

  /** The streams that have arrived for a client, in order. */
  function ArrivedFor(turns: seq<Turn>, id: Text): seq<Stream> {
    if turns == [] then []
    else
      var t := turns[|turns| - 1];
      ArrivedFor(turns[..|turns| - 1], id) + if t.Arrival? && t.to == id then [t.stream] else []
  }

  /** The streams that a client's handler has been given, in order. */
  function HandledFor(turns: seq<Turn>, id: Text): seq<Stream> {
    if turns == [] then []
    else
      var t := turns[|turns| - 1];
      HandledFor(turns[..|turns| - 1], id) + if TurnFor(t, id) && t.handled.Some? then [t.handled.value] else []
  }

  /** Every handler was given what lay at the front of its client's queue, if there was anything. */
  ghost predicate GivenFronts(heads: map<Text, ReadHead>, turns: seq<Turn>) {
    turns != [] ==>
      var front, t := turns[..|turns| - 1], turns[|turns| - 1];
      GivenFronts(heads, front)
      && (t.Turn? && !t.broken && t.served in heads ==> t.handled == FrontOf(AfterTurns(heads, front)[t.served]))
  }

  lemma GivenMore(heads: map<Text, ReadHead>, turns: seq<Turn>, t: Turn)
    requires GivenFronts(heads, turns)
    requires t.Turn? && !t.broken && t.served in heads ==> t.handled == FrontOf(AfterTurns(heads, turns)[t.served])
    ensures GivenFronts(heads, turns + [t])
  {
    assert (turns + [t])[..|turns|] == turns;
  }

  /**
   * How often one read head was locked and unlocked: acquired once a turn, released once a turn and once more for every
   * time another client's handler disconnected it.
   */
  lemma {:induction false} HeadAccount(heads: map<Text, ReadHead>, turns: seq<Turn>, id: Text)
    requires id in heads && Legal(heads.Keys, turns)
    ensures var now, was := AfterTurns(heads, turns)[id], heads[id];
            && now.acquired == was.acquired + TurnsOf(turns, id)
            && now.released == was.released + TurnsOf(turns, id) + Strays(turns, id)
            && (!was.held ==> !now.held)
    ensures KeysAfter(heads.Keys, turns) <= heads.Keys
  {
    if turns == [] {
    } else {
      HeadAccount(heads, turns[..|turns| - 1], id);
    }
  }

  /** Nobody's head is given up by others twice. */
  lemma {:induction false} StrayOnce(keys: set<Text>, turns: seq<Turn>, id: Text)
    requires Legal(keys, turns)
    ensures Strays(turns, id) <= if id in KeysAfter(keys, turns) then 0 else 1
  {
    if turns == [] {
    } else {
      StrayOnce(keys, turns[..|turns| - 1], id);
    }
  }

  lemma {:induction false} NoStrays(turns: seq<Turn>, id: Text)
    ensures Strays(turns, id) == 0 <==> forall k :: 0 <= k < |turns| ==> !Stray(turns[k], id)
  {
    if turns == [] {
    } else {
      var front := turns[..|turns| - 1];
      NoStrays(front, id);
      assert forall k :: 0 <= k < |front| ==> front[k] == turns[k];
    }
  }

  /** As often unlocked as locked. */
  ghost predicate Even(now: ReadHead, was: ReadHead) { now.acquired - was.acquired == now.released - was.released }

  /** A client's locks balance exactly when no other client's handler has disconnected it; otherwise one is missing. */
  lemma EvenExactly(heads: map<Text, ReadHead>, turns: seq<Turn>, id: Text)
    requires id in heads && Legal(heads.Keys, turns)
    ensures Even(AfterTurns(heads, turns)[id], heads[id]) <==> forall k :: 0 <= k < |turns| ==> !Stray(turns[k], id)
    ensures var now, was := AfterTurns(heads, turns)[id], heads[id];
            !Even(now, was) ==> now.released - was.released == now.acquired - was.acquired + 1
  {
    HeadAccount(heads, turns, id);
    StrayOnce(heads.Keys, turns, id);
    NoStrays(turns, id);
  }

  /** What a turn or an arrival is to one head. */
  ghost function HeadAfter(h: ReadHead, t: Turn, id: Text): ReadHead {
    if t.Arrival? && t.to == id then Received(h, t.stream)
    else if TurnFor(t, id) then Released(Acquired(h))
    else if Stray(t, id) then Released(h)
    else h
  }

  lemma HeadNext(heads: map<Text, ReadHead>, turns: seq<Turn>, id: Text)
    requires id in heads && turns != [] && Legal(heads.Keys, turns)
    ensures var front, t := turns[..|turns| - 1], turns[|turns| - 1];
            && AfterTurns(heads, turns)[id] == HeadAfter(AfterTurns(heads, front)[id], t, id)
            && (TurnFor(t, id) || Stray(t, id) ==> Strays(front, id) == 0)
  {
    StrayOnce(heads.Keys, turns[..|turns| - 1], id);
    KeysShrink(heads.Keys, turns[..|turns| - 1]);
  }

  lemma {:induction false} KeysShrink(keys: set<Text>, turns: seq<Turn>)
    ensures KeysAfter(keys, turns) <= keys
  {
    if turns == [] {
    } else {
      KeysShrink(keys, turns[..|turns| - 1]);
    }
  }

  /** The queue holds what has not been taken of all there ever was, in order. */
  ghost predicate Lies(now: ReadHead, was: ReadHead, all: seq<Stream>) {
    was.taken <= now.taken <= was.taken + |all| && now.inbox == all[now.taken - was.taken..]
  }

  lemma LiesStep(now: ReadHead, was: ReadHead, inbox: seq<Stream>, arrived: seq<Stream>, t: Turn, id: Text)
    requires Lies(now, was, inbox + arrived)
    ensures Lies(HeadAfter(now, t, id), was, inbox + (arrived + if t.Arrival? && t.to == id then [t.stream] else []))
  {
    assert inbox + (arrived + []) == inbox + arrived;
    if t.Arrival? && t.to == id {
      assert inbox + (arrived + [t.stream]) == (inbox + arrived) + [t.stream];
    }
  }

  /**
   * What one read head holds: of what lay in it, and behind that what has arrived since, the first streams have been taken,
   * and the others lie in it in their order.
   */
  lemma {:induction false} HeadContents(heads: map<Text, ReadHead>, turns: seq<Turn>, id: Text)
    requires id in heads && Legal(heads.Keys, turns)
    ensures Lies(AfterTurns(heads, turns)[id], heads[id], heads[id].inbox + ArrivedFor(turns, id))
  {
    if turns == [] {
    } else {
      var front, t := turns[..|turns| - 1], turns[|turns| - 1];
      HeadContents(heads, front, id);
      HeadNext(heads, turns, id);
      LiesStep(AfterTurns(heads, front)[id], heads[id], heads[id].inbox, ArrivedFor(front, id), t, id);
    }
  }

  /**
   * Of all there ever was, the first streams have been taken and the others lie in the queue; the handler has been given
   * those taken, but for the one that goes unhandled with a stray disconnect.
   */
  ghost predicate Fed(all: seq<Stream>, taken: int, handled: seq<Stream>, inbox: seq<Stream>, strays: nat) {
    && |handled| <= taken <= |all| && taken <= |handled| + strays
    && inbox == all[taken..] && handled == all[..|handled|]
  }

  lemma FedTurn(all: seq<Stream>, handled: seq<Stream>, h: ReadHead, was: ReadHead)
    requires Fed(all, h.taken - was.taken, handled, h.inbox, 0)
    ensures var now := Released(Acquired(h));
            Fed(all, now.taken - was.taken, handled + (if FrontOf(h).Some? then [FrontOf(h).value] else []), now.inbox, 0)
  {
    var n := h.taken - was.taken;
    if h.inbox != [] {
      assert all[n..][0] == all[n] && all[..n] + [all[n]] == all[..n + 1] && all[n..][1..] == all[n + 1..];
    } else {
      assert handled + [] == handled;
    }
  }

  lemma FedStray(all: seq<Stream>, handled: seq<Stream>, h: ReadHead, was: ReadHead)
    requires Fed(all, h.taken - was.taken, handled, h.inbox, 0)
    ensures var now := Released(h); Fed(all, now.taken - was.taken, handled, now.inbox, 1)
  {
    var n := h.taken - was.taken;
    if h.inbox != [] {
      assert all[n..][1..] == all[n + 1..];
    }
  }

  lemma FedMore(all: seq<Stream>, taken: int, handled: seq<Stream>, inbox: seq<Stream>, strays: nat, s: Stream)
    requires Fed(all, taken, handled, inbox, strays)
    ensures Fed(all + [s], taken, handled, inbox + [s], strays)
  {
    assert (all + [s])[taken..] == all[taken..] + [s];
  }

  /** The account of one client, over some turns. */
  ghost predicate FedSoFar(heads: map<Text, ReadHead>, turns: seq<Turn>, id: Text)
    requires id in heads
  {
    var now, was := AfterTurns(heads, turns)[id], heads[id];
    Fed(was.inbox + ArrivedFor(turns, id), now.taken - was.taken, HandledFor(turns, id), now.inbox, Strays(turns, id))
  }

  lemma FedStep(inbox: seq<Stream>, arrived: seq<Stream>, handled: seq<Stream>, strays: nat, h: ReadHead, was: ReadHead,
                t: Turn, id: Text)
    requires Fed(inbox + arrived, h.taken - was.taken, handled, h.inbox, strays)
    requires TurnFor(t, id) ==> strays == 0 && t.handled == FrontOf(h)
    requires Stray(t, id) ==> strays == 0
    ensures var now := HeadAfter(h, t, id);
            Fed(inbox + (arrived + if t.Arrival? && t.to == id then [t.stream] else []), now.taken - was.taken,
                handled + (if TurnFor(t, id) && t.handled.Some? then [t.handled.value] else []), now.inbox,
                strays + if Stray(t, id) then 1 else 0)
  {
    var all := inbox + arrived;
    assert inbox + (arrived + []) == all && handled + [] == handled;
    if t.Arrival? && t.to == id {
      FedMore(all, h.taken - was.taken, handled, h.inbox, strays, t.stream);
      assert inbox + (arrived + [t.stream]) == all + [t.stream];
    } else if TurnFor(t, id) {
      FedTurn(all, handled, h, was);
    } else if Stray(t, id) {
      FedStray(all, handled, h, was);
    }
  }

  /** One turn more, or one arrival, from the account before it. */
  lemma FedNext(heads: map<Text, ReadHead>, turns: seq<Turn>, id: Text)
    requires id in heads && turns != [] && Legal(heads.Keys, turns) && GivenFronts(heads, turns)
    requires FedSoFar(heads, turns[..|turns| - 1], id)
    ensures FedSoFar(heads, turns, id)
  {
    var front, t := turns[..|turns| - 1], turns[|turns| - 1];
    HeadNext(heads, turns, id);
    FedStep(heads[id].inbox, ArrivedFor(front, id), HandledFor(front, id), Strays(front, id), AfterTurns(heads, front)[id],
            heads[id], t, id);
  }

  /**
   * What handlers are given. Of what lay in a client's queue, and behind that what has arrived since, its handler has been
   * given the first streams, each once and in order; the others lie in the queue, but for the one at the front at most
   * that was dropped when another client's handler disconnected it.
   */
  lemma {:induction false} HandledInOrder(heads: map<Text, ReadHead>, turns: seq<Turn>, id: Text)
    requires id in heads && Legal(heads.Keys, turns) && GivenFronts(heads, turns)
    ensures FedSoFar(heads, turns, id)
  {
    if turns == [] {
    } else {
      HandledInOrder(heads, turns[..|turns| - 1], id);
      FedNext(heads, turns, id);
    }
  }

  /** Without a stray disconnect, every stream is handled or still in the queue. */
  lemma HandledOnce(heads: map<Text, ReadHead>, turns: seq<Turn>, id: Text)
    requires id in heads && Legal(heads.Keys, turns) && GivenFronts(heads, turns)
    requires forall k :: 0 <= k < |turns| ==> !Stray(turns[k], id)
    ensures HandledFor(turns, id) + AfterTurns(heads, turns)[id].inbox == heads[id].inbox + ArrivedFor(turns, id)
  {
    HandledInOrder(heads, turns, id);
    NoStrays(turns, id);
    var now := AfterTurns(heads, turns)[id];
    AllOfIt(heads[id].inbox + ArrivedFor(turns, id), now.taken - heads[id].taken, HandledFor(turns, id), now.inbox);
  }

  lemma AllOfIt(all: seq<Stream>, taken: int, handled: seq<Stream>, inbox: seq<Stream>)
    requires Fed(all, taken, handled, inbox, 0)
    ensures handled + inbox == all
  {
  }
}
