/** A receiver that reads while the sender is still writing. */
module Alongside {
  import opened Bytes
  import opened Arguments
  import opened Transport

  /** What the sender has still to write, what is on the way, and what the receiver has read. */
  datatype Channel = Channel(todo: seq<byte>, wire: seq<byte>, read: seq<byte>)

  /** A call on either end moves any positive amount that there is. */
  datatype Move = Put(n: nat) | Get(n: nat)

  predicate Can(c: Channel, m: Move) {
    match m
    case Put(n) => 0 < n <= |c.todo|
    case Get(n) => 0 < n <= |c.wire|
  }

  function Do(c: Channel, m: Move): Channel
    requires Can(c, m)
  {
    match m
    case Put(n) => Channel(c.todo[n..], c.wire + c.todo[..n], c.read)
    case Get(n) => Channel(c.todo, c.wire[n..], c.read + c.wire[..n])
  }

  predicate LegalRun(c: Channel, moves: seq<Move>)
    decreases |moves|
  {
    moves == [] || (Can(c, moves[0]) && LegalRun(Do(c, moves[0]), moves[1..]))
  }

  function After(c: Channel, moves: seq<Move>): Channel
    requires LegalRun(c, moves)
    decreases |moves|
  {
    if moves == [] then c else After(Do(c, moves[0]), moves[1..])
  }

  function All(c: Channel): seq<byte> { c.read + c.wire + c.todo }

  /** Either end may move as much as it likes of what there is. */
  lemma AnyAmount(c: Channel, put: nat, get: nat)
    requires 0 < put <= |c.todo| && 0 < get <= |c.wire| + put
    ensures var wire := c.wire + c.todo[..put];
            && LegalRun(c, [Put(put), Get(get)])
            && After(c, [Put(put), Get(get)]) == Channel(c.todo[put..], wire[get..], c.read + wire[..get])
  {
    var moves := [Put(put), Get(get)];
    var moved := Do(c, moves[0]);
    assert moves[1..] == [Get(get)] && moves[1..][1..] == [];
    assert After(moved, moves[1..]) == After(Do(moved, Get(get)), []);
  }

  lemma MoveKeeps(c: Channel, m: Move)
    requires Can(c, m)
    ensures All(Do(c, m)) == All(c)
  {
    match m
    case Put(n) => assert c.todo == c.todo[..n] + c.todo[n..];
    case Get(n) => assert c.wire == c.wire[..n] + c.wire[n..];
  }

  lemma {:induction false} RunKeeps(c: Channel, moves: seq<Move>)
    requires LegalRun(c, moves)
    ensures All(After(c, moves)) == All(c)
    decreases |moves|
  {
    if moves == [] {
    } else {
      MoveKeeps(c, moves[0]);
      RunKeeps(Do(c, moves[0]), moves[1..]);
    }
  }

  /** Any front of streams laid end to end is some of them, and a proper part of the next. */
  lemma {:induction false} FrontOf(streams: seq<seq<byte>>, front: seq<byte>) returns (k: nat, rest: seq<byte>)
    requires front <= Concat(streams) && forall i :: 0 <= i < |streams| ==> WholeStream(streams[i])
    ensures k <= |streams| && front == Concat(streams[..k]) + rest
    ensures if k == |streams| then rest == [] else rest < streams[k]
    decreases |streams|
  {
    if streams == [] || front < streams[0] {
      k, rest := 0, front;
      assert streams[..0] == [];
    } else {
      var first := streams[0];
      assert |front| >= |first| && front[..|first|] == first by {
        FrontCovers(first, Concat(streams[1..]), front);
      }
      k, rest := FrontOf(streams[1..], front[|first|..]);
      k := k + 1;
      assert streams[..k][1..] == streams[1..][..k - 1];
      Associate(first, Concat(streams[1..][..k - 1]), rest);
    }
  }

  lemma FrontCovers(first: seq<byte>, others: seq<byte>, front: seq<byte>)
    requires front <= first + others && !(front < first)
    ensures |front| >= |first| && front[..|first|] == first && front[|first|..] <= others
  {
    assert forall k :: 0 <= k < |front| && k < |first| ==> front[k] == first[k];
    assert front[|first|..] == others[..|front| - |first|];
  }

  lemma MoreBehind(streams: seq<seq<byte>>, k: nat)
    requires k < |streams|
    ensures |Concat(streams)| >= |Concat(streams[..k])| + |streams[k]|
  {
    assert streams == streams[..k] + streams[k..];
    ConcatAppend(streams[..k], streams[k..]);
  }

  /**
   * Whatever amounts either end moves, and in whatever order, what the receiver can make of what it has read is the
   * streams that have arrived whole, in the order in which they were sent; and in the end all of them.
   */
  method DownloadSoFar(octets: seq<byte>, most: nat, ghost streams: seq<seq<byte>>, ghost moves: seq<Move>)
    returns (got: seq<seq<byte>>)
    requires |streams| <= most && forall i :: 0 <= i < |streams| ==> WholeStream(streams[i])
    requires LegalRun(Channel(Concat(streams), [], []), moves)
    requires octets == After(Channel(Concat(streams), [], []), moves).read
    ensures got <= streams && |Concat(got)| <= |octets|
    ensures got == streams || |octets| < |Concat(got)| + |streams[|got|]|
    ensures octets == Concat(streams) ==> got == streams
  {
    ghost var c := After(Channel(Concat(streams), [], []), moves);
    RunKeeps(Channel(Concat(streams), [], []), moves);
    assert [] + [] + Concat(streams) == Concat(streams);
    assert octets + (c.wire + c.todo) == Concat(streams) by {
      Associate(c.read, c.wire, c.todo);
    }
    ghost var k, rest := FrontOf(streams, octets);
    assert streams[0..k] == streams[..k];
    var socket := new Socket(true);
    socket.wire := octets;
    got := ReceiveAll(socket, most, streams, k, rest);
    if k < |streams| {
      MoreBehind(streams, k);
    }
  }
}
