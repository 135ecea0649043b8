/** The chunk loops that carry streams over a socket, and the constructor that downloads one. */
module Transport {
  import opened Bytes
  import opened Arguments
  import opened Validation
  import opened Streams
  import StreamRuns

  const NET_MAX_CHUNK_SIZE: nat := 2048
  const MAX_STREAM_ARGS_SIZE: nat := 1024 * 1024 * 512

  /** The amounts a call on the socket may report: a failure if it is unreliable, else anything positive in reach. */
  predicate Movable(n: int, most: nat, reliable: bool) {
    (n == -1 && !reliable) || 0 < n <= most
  }

  /** An ordered byte channel. Each call moves any positive amount up to what was asked; an unreliable one may fail. */
  class Socket {
    var wire: seq<byte>
    const reliable: bool

    constructor (reliable: bool)
      ensures wire == [] && this.reliable == reliable
    {
      wire := [];
      this.reliable := reliable;
    }

    method SslWrite(chunk: seq<byte>) returns (n: int)
      requires chunk != []
      modifies this`wire
      ensures n == -1 || 0 < n <= |chunk|
      ensures reliable ==> n > 0
      ensures wire == old(wire) + (if n > 0 then chunk[..n] else [])
    {
      assert Movable(1, |chunk|, reliable);
      n :| Movable(n, |chunk|, reliable);
      assert Movable(n, |chunk|, reliable);
      if n > 0 {
        wire := wire + chunk[..n];
      }
    }

    /** A channel with nothing in it reads as closed. */
    method SslRead(max: nat) returns (n: int, got: seq<byte>)
      requires max > 0
      modifies this`wire
      ensures n <= 0 || 0 < n <= max
      ensures reliable && old(wire) != [] ==> n > 0
      ensures |got| == if n > 0 then n else 0
      ensures old(wire) == got + wire
    {
      if wire == [] {
        return 0, [];
      }
      var most := if max < |wire| then max else |wire|;
      assert Movable(1, most, reliable);
      n :| Movable(n, most, reliable);
      assert Movable(n, most, reliable);
      got := if n > 0 then wire[..n] else [];
      wire := wire[|got|..];
    }
  }

  /** Writes everything, or stops behind some proper prefix when the socket fails. */
  method Write(socket: Socket, octets: seq<byte>) returns (ok: bool)
    requires octets != [] && |octets| < UINT64_LIMIT
    modifies socket`wire
    ensures ok ==> socket.wire == old(socket.wire) + octets
    ensures !ok ==> !socket.reliable && exists k :: 0 <= k < |octets| && socket.wire == old(socket.wire) + octets[..k]
  {
    var total := 0;
    while true
      invariant 0 <= total < |octets|
      invariant socket.wire == old(socket.wire) + octets[..total]
      decreases |octets| - total
    {
      var left := |octets| - total;
      var chunkSize := if left > NET_MAX_CHUNK_SIZE then NET_MAX_CHUNK_SIZE else left;
      var n := socket.SslWrite(octets[total..total + chunkSize]);
      if n == -1 {
        return false;
      }
      assert octets[..total] + octets[total..total + chunkSize][..n] == octets[..total + n];
      total := total + n;
      if !(|octets| > total) {
        assert octets[..total] == octets;
        break;
      }
    }
    ok := true;
  }

  /** Reads exactly the octets asked for, or fails; what it took came off the front of the channel. */
  method Read(socket: Socket, maxLength: nat) returns (ok: bool, out: seq<byte>)
    requires 0 < maxLength < UINT32_LIMIT
    modifies socket`wire
    ensures old(socket.wire) == out + socket.wire
    ensures ok <==> |out| == maxLength
    ensures |out| <= maxLength
    ensures socket.reliable && |old(socket.wire)| >= maxLength ==> ok
  {
    out := [];
    var totalReceived: uint32 := 0;
    var received := 0;
    while true
      invariant totalReceived == |out| < maxLength
      invariant old(socket.wire) == out + socket.wire
      decreases maxLength - |out|
    {
      var left := maxLength - totalReceived;
      var chunkSize := if left > NET_MAX_CHUNK_SIZE then NET_MAX_CHUNK_SIZE else left;
      var got;
      received, got := socket.SslRead(chunkSize);
      if received > 0 {
        out := out + got;
        totalReceived := (totalReceived + received) % UINT32_LIMIT;
      }
      if !(totalReceived < maxLength && received > 0) {
        break;
      }
    }
    ok := received > 0;
  }

  datatype Download = Downloaded | DownloadFailure | SizeExceeded | BadArguments(how: Outcome)

  /** Octets that are one stream: a true size field within the limit, and whole arguments. */
  ghost predicate WholeStream(s: seq<byte>) {
    && HEADER_SIZE <= |s| <= HEADER_SIZE + MAX_STREAM_ARGS_SIZE
    && SizeField(s) == |s| - HEADER_SIZE
    && WholeArguments(s[HEADER_SIZE..])
  }

  /** Some stream begins the octets. */
  ghost predicate StreamFirst(octets: seq<byte>, s: seq<byte>) {
    WholeStream(s) && s <= octets
  }

  /** How a download ends if no read fails: what is missing, too large, or not whole is told apart, in this order. */
  ghost function Expected(wire: seq<byte>): Download {
    if |wire| < HEADER_SIZE then DownloadFailure
    else if SizeField(wire) > MAX_STREAM_ARGS_SIZE then SizeExceeded
    else if |wire| < HEADER_SIZE + SizeField(wire) then DownloadFailure
    else if WholeArguments(wire[HEADER_SIZE..HEADER_SIZE + SizeField(wire)]) then Downloaded
    else BadArguments(Corrupt)
  }

  /** The header in front of a stream tells where it ends. */
  lemma SizeInHead(all: seq<byte>, head: seq<byte>, t: seq<byte>)
    requires StreamFirst(all, t) && |head| == HEADER_SIZE && head <= all
    ensures |t| == HEADER_SIZE + SizeField(head) && t == all[..HEADER_SIZE + SizeField(head)]
  {
    assert t[1..9] == all[1..9] == head[1..9];
  }

  /** Over a reliable channel every whole stream is downloaded, since it begins with its own size. */
  lemma ExpectedWhole(wire: seq<byte>, t: seq<byte>)
    requires StreamFirst(wire, t)
    ensures Expected(wire) == Downloaded && t == wire[..HEADER_SIZE + SizeField(wire)]
  {
    SizeInHead(wire, wire[..HEADER_SIZE], t);
    assert wire[1..9] == wire[..HEADER_SIZE][1..9];
    assert t[HEADER_SIZE..] == wire[HEADER_SIZE..HEADER_SIZE + SizeField(wire)];
  }

  /** An end other than a failure to read does not depend on what comes behind it. */
  lemma ExpectedStays(wire: seq<byte>, more: seq<byte>)
    ensures Expected(wire) != DownloadFailure ==> Expected(wire + more) == Expected(wire)
    ensures Expected(wire) == SizeExceeded <==> |wire| >= HEADER_SIZE && SizeField(wire) > 512 * 1024 * 1024
  {
    if |wire| >= HEADER_SIZE {
      var n := HEADER_SIZE + SizeField(wire);
      assert (wire + more)[1..9] == wire[1..9];
      assert n <= |wire| ==> (wire + more)[HEADER_SIZE..n] == wire[HEADER_SIZE..n];
    }
  }

  /** What has been read is the stream's header and as much behind it as the header says. */
  lemma ReadParts(all: seq<byte>, head: seq<byte>, body: seq<byte>, rest: seq<byte>)
    requires all == head + (body + rest) && |head| == HEADER_SIZE && |body| == SizeField(head)
    ensures SizeField(all) == SizeField(head) == SizeField(head + body)
    ensures all == head + body + rest && all[HEADER_SIZE..HEADER_SIZE + SizeField(all)] == body
    ensures (head + body)[HEADER_SIZE..] == body
  {
    assert all[1..9] == head[1..9] == (head + body)[1..9];
  }

  /** Reads the octets behind the header, if there are any. */
  method ReadBody(socket: Socket, argsSize: nat) returns (ok: bool, body: seq<byte>)
    requires argsSize < UINT32_LIMIT
    modifies socket`wire
    ensures old(socket.wire) == body + socket.wire
    ensures ok <==> |body| == argsSize
    ensures |body| <= argsSize
    ensures socket.reliable ==> (ok <==> |old(socket.wire)| >= argsSize)
  {
    ok, body := true, [];
    if argsSize > 0 {
      ok, body := Read(socket, argsSize);
    }
  }

  /**
   * The downloading constructor: header first, then as much as the header says. Whatever it accepts is one whole
   * stream off the front of the channel. How it ends is what the channel holds, unless a read on it fails.
   */
  method DownloadStream(socket: Socket) returns (r: Download, s: ConationStream?)
    modifies socket`wire
    ensures r == Downloaded <==> s != null
    ensures s != null ==> fresh(s) && s.Valid() && s.index.None? && WholeStream(s.bytes)
    ensures s != null ==> old(socket.wire) == s.bytes + socket.wire
    ensures r == Expected(old(socket.wire)) || (!socket.reliable && r == DownloadFailure)
  {
    s := null;
    ghost var all := socket.wire;
    var ok, head := Read(socket, HEADER_SIZE);
    if !ok {
      return DownloadFailure, null;
    }
    ghost var behind := socket.wire;
    assert all[1..9] == head[1..9];
    var argsSize := SizeField(head);
    if argsSize > MAX_STREAM_ARGS_SIZE {
      return SizeExceeded, null;
    }
    var body;
    ok, body := ReadBody(socket, argsSize);
    if !ok {
      return DownloadFailure, null;
    }
    ReadParts(all, head, body, socket.wire);
    var how := IntegrityCheck(head + body);
    if how != Ok {
      return BadArguments(how), null;
    }
    WholeArgumentsParse(body);
    s := new ConationStream.Adopt(head + body);
    r := Downloaded;
  }

  /** Streams laid end to end. */
  ghost function Concat(streams: seq<seq<byte>>): seq<byte> {
    if streams == [] then [] else streams[0] + Concat(streams[1..])
  }

  lemma {:induction false} ConcatAppend(a: seq<seq<byte>>, b: seq<seq<byte>>)
    ensures Concat(a + b) == Concat(a) + Concat(b)
  {
    if a == [] {
      assert a + b == b;
    } else {
      ConcatAppend(a[1..], b);
      assert (a + b)[1..] == a[1..] + b;
    }
  }

  lemma ConcatOne(s: seq<byte>)
    ensures Concat([s]) == s
  {
    assert [s][1..] == [];
  }

  /** Streams delimit themselves: two that begin the same octets are the same. */
  lemma SelfDelimiting(octets: seq<byte>, s: seq<byte>, t: seq<byte>)
    requires StreamFirst(octets, s) && StreamFirst(octets, t)
    ensures s == t
  {
    assert s[1..9] == octets[1..9] == t[1..9];
  }

  /** Writes streams back to back until one fails. */
  method SendAll(socket: Socket, streams: seq<seq<byte>>) returns (sent: nat, ghost rest: seq<byte>)
    requires forall k :: 0 <= k < |streams| ==> WholeStream(streams[k])
    modifies socket`wire
    ensures sent <= |streams|
    ensures socket.wire == old(socket.wire) + Concat(streams[..sent]) + rest
    ensures socket.reliable ==> sent == |streams|
    ensures if sent == |streams| then rest == [] else rest < streams[sent]
  {
    sent, rest := 0, [];
    while sent < |streams|
      invariant sent <= |streams|
      invariant socket.wire == old(socket.wire) + Concat(streams[..sent])
    {
      ghost var before := socket.wire;
      var ok := Write(socket, streams[sent]);
      if !ok {
        ghost var k :| 0 <= k < |streams[sent]| && socket.wire == before + streams[sent][..k];
        rest := streams[sent][..k];
        return;
      }
      assert streams[..sent + 1] == streams[..sent] + [streams[sent]];
      ConcatAppend(streams[..sent], [streams[sent]]);
      ConcatOne(streams[sent]);
      sent := sent + 1;
    }
  }

  /** What is on the channel when some streams have been read: those sent behind them, and part of one more. */
  ghost predicate OnWire(wire: seq<byte>, streams: seq<seq<byte>>, sent: nat, rest: seq<byte>, read: nat) {
    && read <= sent <= |streams|
    && (forall k :: 0 <= k < |streams| ==> WholeStream(streams[k]))
    && wire == Concat(streams[read..sent]) + rest
    && (if sent == |streams| then rest == [] else rest < streams[sent])
  }

  /** The next stream of those sent lies at the front of the channel, and the rest behind it. */
  lemma NextOnWire(wire: seq<byte>, streams: seq<seq<byte>>, sent: nat, rest: seq<byte>, read: nat)
    requires OnWire(wire, streams, sent, rest, read) && read < sent
    ensures StreamFirst(wire, streams[read])
    ensures OnWire(wire[|streams[read]|..], streams, sent, rest, read + 1)
  {
    var todo := streams[read..sent];
    assert todo[0] == streams[read] && todo[1..] == streams[read + 1..sent];
    Associate(streams[read], Concat(todo[1..]), rest);
    assert wire == streams[read] + (Concat(todo[1..]) + rest);
  }

  /** When all that was sent has been read, what is left does not begin with a stream. */
  lemma NothingOnWire(wire: seq<byte>, streams: seq<seq<byte>>, sent: nat, rest: seq<byte>, s: seq<byte>)
    requires OnWire(wire, streams, sent, rest, sent)
    ensures !StreamFirst(wire, s)
  {
    assert streams[sent..sent] == [] && Concat([]) == [];
    assert wire == rest;
    if StreamFirst(wire, s) {
      assert sent < |streams| ==> s <= streams[sent];
      if sent < |streams| {
        SelfDelimiting(streams[sent], s, streams[sent]);
      }
    }
  }

  /** Downloads streams until one fails or the wanted number has arrived. */
  method ReceiveAll(socket: Socket, wanted: nat, ghost streams: seq<seq<byte>>, ghost sent: nat, ghost rest: seq<byte>)
    returns (got: seq<seq<byte>>)
    requires |streams| <= wanted && OnWire(socket.wire, streams, sent, rest, 0)
    modifies socket`wire
    ensures |got| <= sent && got == streams[..|got|]
    ensures socket.reliable ==> |got| == sent
  {
    got := [];
    while |got| < wanted
      invariant |got| <= sent && got == streams[..|got|]
      invariant OnWire(socket.wire, streams, sent, rest, |got|)
    {
      ghost var before := socket.wire;
      if |got| < sent {
        NextOnWire(before, streams, sent, rest, |got|);
      }
      var r, s := DownloadStream(socket);
      if |got| < sent {
        ExpectedWhole(before, streams[|got|]);
      }
      if s == null {
        return;
      }
      assert StreamFirst(before, s.bytes);
      if |got| == sent {
        NothingOnWire(before, streams, sent, rest, s.bytes);
      }
      SelfDelimiting(before, s.bytes, streams[|got|]);
      assert socket.wire == before[|s.bytes|..];
      got := got + [s.bytes];
    }
  }

  /**
   * End-to-end framing. Whatever partial amounts the socket chooses to move, what arrives is a prefix of what was
   * sent, stream by stream and octet for octet; over a socket that does not fail it is all of it.
   */
  method Exchange(reliable: bool, streams: seq<seq<byte>>) returns (got: seq<seq<byte>>)
    requires forall k :: 0 <= k < |streams| ==> WholeStream(streams[k])
    ensures got <= streams
    ensures reliable ==> got == streams
  {
    var socket := new Socket(reliable);
    var sent, rest := SendAll(socket, streams);
    assert streams[0..sent] == streams[..sent];
    got := ReceiveAll(socket, |streams|, streams, sent, rest);
  }

  /** A typed list small enough to be downloaded again. */
  ghost predicate Sendable(list: seq<Arg>) {
    |Joined(RawAll(list))| <= MAX_STREAM_ARGS_SIZE
  }

  /** Octets that carry a typed list. */
  ghost predicate Carries(octets: seq<byte>, list: seq<Arg>) {
    WholeStream(octets) && octets[HEADER_SIZE..] == Joined(RawAll(list))
  }

  method BuildAll(lists: seq<seq<Arg>>) returns (streams: seq<seq<byte>>)
    requires forall k :: 0 <= k < |lists| ==> Sendable(lists[k])
    ensures |streams| == |lists| && forall k :: 0 <= k < |lists| ==> Carries(streams[k], lists[k])
  {
    streams := [];
    for i := 0 to |lists|
      invariant |streams| == i && forall k :: 0 <= k < i ==> Carries(streams[k], lists[k])
    {
      assert Sendable(lists[i]);
      var s := StreamRuns.Build(0, 0, 0, lists[i]);
      assert WholeArguments(Joined(RawAll(lists[i])));
      streams := streams + [s.bytes];
    }
  }

  method PopFrom(octets: seq<byte>, ghost list: seq<Arg>) returns (popped: seq<Arg>)
    requires Carries(octets, list)
    ensures popped == list
  {
    ghost var rs := RawAll(list);
    forall k | 0 <= k < |rs| ensures |rs[k].payload| < UINT64_LIMIT { JoinedCovers(rs, k); }
    ParseJoined(rs);
    var s := new ConationStream.Adopt(octets);
    var last;
    popped, last := StreamRuns.PopAll(s, list);
  }

  /** Typed lists pushed into streams, sent, downloaded and popped arrive as they were. */
  method DeliverArguments(lists: seq<seq<Arg>>) returns (arrived: seq<seq<Arg>>)
    requires forall k :: 0 <= k < |lists| ==> Sendable(lists[k])
    ensures arrived == lists
  {
    var streams := BuildAll(lists);
    forall k | 0 <= k < |streams| ensures WholeStream(streams[k]) {
      assert Carries(streams[k], lists[k]);
    }
    var got := Exchange(true, streams);
    arrived := [];
    for i := 0 to |lists|
      invariant arrived == lists[..i]
    {
      var popped := PopFrom(got[i], lists[i]);
      arrived := arrived + [popped];
    }
  }
}
