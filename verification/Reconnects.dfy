/**
 * The write queue over its connections: what the worker's writes, failed ones included, leave on each connection, and
 * what receivers make of it. After a failed write the worker tries the same stream again, on the same connection until
 * the owner has begun it anew on another.
 */
module Reconnects {
  import opened Bytes
  import opened Arguments
  import opened Validation
  import opened Transport
  import Queue = WriteQueue

  type Stream = seq<byte>

  /**
   * A connection: the octets put on it, and, as history, the streams written whole, what the last failed write moved
   * if nothing has been moved since, and how many octets earlier failed writes moved.
   */
  datatype Wire = Wire(octets: seq<byte>, whole: seq<Stream>, tail: seq<byte>, lost: nat)

  const Clear: Wire := Wire([], [], [], 0)

  datatype Linked = Linked(queue: Queue.State, wires: seq<Wire>)

  const Fresh: Linked := Linked(Queue.Initial, [Clear])

  /** A step of the queue; a failed write may have moved a part, and the owner may bring a new connection. */
  datatype Act = Act(step: Queue.Step, part: nat, newDescriptor: bool)

  predicate FailsToWrite(step: Queue.Step) { step == Queue.WorkerWriteReturns(false) || step.WorkerWriteThrows? }

  ghost predicate Can(s: Linked, a: Act) {
    && Queue.Enabled(s.queue, a.step)
    && (a.step.ProducerLock? ==> WholeStream(a.step.s))
    && (FailsToWrite(a.step) ==> a.part < |s.queue.worker.head|)
  }

  /** A failed write moves a part of its stream. */
  function Failed(w: Wire, part: seq<byte>): Wire {
    if part == [] then w else Wire(w.octets + part, w.whole, part, w.lost + |w.tail|)
  }

  function Written(w: Wire, stream: Stream): Wire {
    Wire(w.octets + stream, w.whole + [stream], [], w.lost + |w.tail|)
  }

  ghost function Do(s: Linked, a: Act): Linked
    requires Can(s, a) && s.wires != []
  {
    var last := |s.wires| - 1;
    Linked(Queue.Do(s.queue, a.step),
           if FailsToWrite(a.step) then s.wires[last := Failed(s.wires[last], s.queue.worker.head[..a.part])]
           else if a.step == Queue.WorkerWriteReturns(true) then s.wires[last := Written(s.wires[last], s.queue.worker.head)]
           else if a.step.OwnerBegin? && a.newDescriptor then s.wires + [Clear]
           else s.wires)
  }

  // ---------------------------------------------------------------- invariant

  /** The streams written whole, over all connections in order. */
  ghost function Flat(wires: seq<Wire>): seq<Stream> {
    if wires == [] then [] else Flat(wires[..|wires| - 1]) + wires[|wires| - 1].whole
  }

  ghost predicate AllWhole(streams: seq<Stream>) { forall k :: 0 <= k < |streams| ==> WholeStream(streams[k]) }

  ghost predicate HoldWhole(q: Queue.State) {
    forall p :: p in q.producers && q.producers[p].Holding? ==> WholeStream(q.producers[p].stream)
  }

  /** What is left at the end is a proper part of the stream that was to be written next. */
  ghost predicate EndsIn(tail: seq<byte>, pushed: seq<Stream>, next: nat) {
    tail == [] || (next < |pushed| && tail < pushed[next])
  }

  /** The octets of a connection are accounted for; unless some were lost, they are the streams and the part behind them. */
  ghost predicate Accounted(w: Wire) {
    && |w.octets| == |Concat(w.whole)| + w.lost + |w.tail|
    && (w.lost == 0 ==> w.octets == Concat(w.whole) + w.tail)
  }

  /** The streams written whole end to end, and behind them what the last failed write has moved. */
  ghost predicate InOrder(w: Wire) { w.octets == Concat(w.whole) + w.tail }

  ghost predicate Carried(wires: seq<Wire>, pushed: seq<Stream>) {
    forall i :: 0 <= i < |wires| ==> Accounted(wires[i]) && EndsIn(wires[i].tail, pushed, |Flat(wires[..i + 1])|)
  }

  ghost predicate Inv(s: Linked) {
    && Queue.Inv(s.queue) && s.wires != [] && HoldWhole(s.queue) && AllWhole(s.queue.pushed)
    && Flat(s.wires) == s.queue.written && Carried(s.wires, s.queue.pushed)
  }

  lemma FlatLast(wires: seq<Wire>, w: Wire)
    requires wires != []
    ensures Flat(wires[|wires| - 1 := w]) == Flat(wires[..|wires| - 1]) + w.whole
    ensures Flat(wires + [w]) == Flat(wires) + w.whole
  {
    assert wires[|wires| - 1 := w][..|wires| - 1] == wires[..|wires| - 1];
    assert (wires + [w])[..|wires|] == wires;
  }

  lemma FailedAccounted(w: Wire, part: seq<byte>)
    requires Accounted(w)
    ensures Accounted(Failed(w, part))
  {
    assert Concat(w.whole) + [] == Concat(w.whole);
  }

  lemma WrittenAccounted(w: Wire, stream: Stream)
    requires Accounted(w)
    ensures Accounted(Written(w, stream))
  {
    ConcatAppend(w.whole, [stream]);
    ConcatOne(stream);
    assert Concat(w.whole) + [] == Concat(w.whole);
    assert Concat(w.whole + [stream]) + [] == Concat(w.whole) + stream;
  }

  /** The stream being written is the one pushed behind those written so far. */
  lemma HeadIsNext(q: Queue.State)
    requires Queue.Inv(q) && q.worker.Writing?
    ensures |q.written| < |q.pushed| && q.pushed[|q.written|] == q.worker.head
  {
    assert q.pushed == q.written + q.queue;
  }

  lemma CarriedLast(wires: seq<Wire>, pushed: seq<Stream>, w: Wire)
    requires wires != [] && Carried(wires, pushed) && Accounted(w)
    requires EndsIn(w.tail, pushed, |Flat(wires[|wires| - 1 := w])|)
    ensures Carried(wires[|wires| - 1 := w], pushed)
  {
    var now := wires[|wires| - 1 := w];
    forall i | 0 <= i < |now| ensures Accounted(now[i]) && EndsIn(now[i].tail, pushed, |Flat(now[..i + 1])|) {
      if i < |wires| - 1 {
        assert now[..i + 1] == wires[..i + 1];
      } else {
        assert now[..i + 1] == now;
      }
    }
  }

  lemma CarriedClear(wires: seq<Wire>, pushed: seq<Stream>)
    requires Carried(wires, pushed)
    ensures Carried(wires + [Clear], pushed)
  {
    var now := wires + [Clear];
    forall i | 0 <= i < |now| ensures Accounted(now[i]) && EndsIn(now[i].tail, pushed, |Flat(now[..i + 1])|) {
      if i < |wires| {
        assert now[..i + 1] == wires[..i + 1];
      }
    }
  }

  lemma WriteCarried(wires: seq<Wire>, pushed: seq<Stream>, head: Stream)
    requires wires != [] && Carried(wires, pushed)
    ensures var now := wires[|wires| - 1 := Written(wires[|wires| - 1], head)];
            Carried(now, pushed) && Flat(now) == Flat(wires) + [head]
  {
    var w := wires[|wires| - 1];
    WrittenAccounted(w, head);
    CarriedLast(wires, pushed, Written(w, head));
    FlatLast(wires, Written(w, head));
    Associate(Flat(wires[..|wires| - 1]), w.whole, [head]);
  }

  lemma FailureCarried(wires: seq<Wire>, pushed: seq<Stream>, part: seq<byte>)
    requires wires != [] && Carried(wires, pushed) && EndsIn(part, pushed, |Flat(wires)|)
    ensures var now := wires[|wires| - 1 := Failed(wires[|wires| - 1], part)];
            Carried(now, pushed) && Flat(now) == Flat(wires)
  {
    var w := wires[|wires| - 1];
    FailedAccounted(w, part);
    FlatLast(wires, Failed(w, part));
    assert wires[..|wires| - 1 + 1] == wires;
    CarriedLast(wires, pushed, Failed(w, part));
  }

  /** A longer list of pushed streams changes nothing on the connections. */
  lemma CarriedLonger(wires: seq<Wire>, pushed: seq<Stream>, stream: Stream)
    requires Carried(wires, pushed)
    ensures Carried(wires, pushed + [stream])
  {
  }

  /** What a step does to the history of the queue. */
  lemma QueueSteps(q: Queue.State, step: Queue.Step)
    requires Queue.Inv(q) && Queue.Enabled(q, step) && HoldWhole(q) && AllWhole(q.pushed)
    requires step.ProducerLock? ==> WholeStream(step.s)
    ensures var t := Queue.Do(q, step);
            && Queue.Inv(t) && HoldWhole(t) && AllWhole(t.pushed)
            && t.written == (if step == Queue.WorkerWriteReturns(true) then q.written + [q.worker.head] else q.written)
            && t.pushed == (if step.ProducerPushBack? then q.pushed + [q.producers[step.p].stream] else q.pushed)
  {
    Queue.StepKeeps(q, step);
  }

  lemma WriteKeeps(s: Linked, a: Act)
    requires Inv(s) && Can(s, a) && a.step == Queue.WorkerWriteReturns(true)
    ensures var t := Do(s, a); t.wires != [] && Flat(t.wires) == t.queue.written && Carried(t.wires, t.queue.pushed)
  {
    WriteCarried(s.wires, s.queue.pushed, s.queue.worker.head);
  }

  lemma PartEnds(q: Queue.State, part: nat)
    requires Queue.Inv(q) && q.worker.Writing? && part < |q.worker.head|
    ensures EndsIn(q.worker.head[..part], q.pushed, |q.written|)
  {
    HeadIsNext(q);
  }

  lemma FailureKeeps(s: Linked, a: Act)
    requires Inv(s) && Can(s, a) && FailsToWrite(a.step)
    ensures var t := Do(s, a); t.wires != [] && Flat(t.wires) == t.queue.written && Carried(t.wires, t.queue.pushed)
  {
    QueueSteps(s.queue, a.step);
    PartEnds(s.queue, a.part);
    FailureCarried(s.wires, s.queue.pushed, s.queue.worker.head[..a.part]);
  }

  lemma OthersKeep(s: Linked, a: Act)
    requires Inv(s) && Can(s, a) && !FailsToWrite(a.step) && !a.step.WorkerWriteReturns?
    ensures var t := Do(s, a); t.wires != [] && Flat(t.wires) == t.queue.written && Carried(t.wires, t.queue.pushed)
  {
    QueueSteps(s.queue, a.step);
    if a.step.OwnerBegin? {
      FlatLast(s.wires, Clear);
      CarriedClear(s.wires, s.queue.pushed);
    } else if a.step.ProducerPushBack? {
      CarriedLonger(s.wires, s.queue.pushed, s.queue.producers[a.step.p].stream);
    }
  }

  lemma StepKeeps(s: Linked, a: Act)
    requires Inv(s) && Can(s, a)
    ensures Inv(Do(s, a))
  {
    QueueSteps(s.queue, a.step);
    if FailsToWrite(a.step) {
      FailureKeeps(s, a);
    } else if a.step.WorkerWriteReturns? {
      WriteKeeps(s, a);
    } else {
      OthersKeep(s, a);
    }
  }

  // --------------------------------------------------------------------- runs

  ghost predicate LegalRun(s: Linked, acts: seq<Act>)
    requires s.wires != []
    decreases |acts|
  {
    acts == [] || (Can(s, acts[0]) && LegalRun(Do(s, acts[0]), acts[1..]))
  }

  ghost function After(s: Linked, acts: seq<Act>): (t: Linked)
    requires s.wires != [] && LegalRun(s, acts)
    ensures t.wires != []
    decreases |acts|
  {
    if acts == [] then s else After(Do(s, acts[0]), acts[1..])
  }

  /** One more step of a run. */
  lemma {:induction false} OneMoreStep(s: Linked, acts: seq<Act>, a: Act)
    requires s.wires != [] && LegalRun(s, acts) && Can(After(s, acts), a)
    ensures LegalRun(s, acts + [a]) && After(s, acts + [a]) == Do(After(s, acts), a)
    decreases |acts|
  {
    if acts == [] {
      assert [a][1..] == [];
    } else {
      assert (acts + [a])[1..] == acts[1..] + [a];
      OneMoreStep(Do(s, acts[0]), acts[1..], a);
    }
  }

  lemma {:induction false} RunKeeps(s: Linked, acts: seq<Act>)
    requires Inv(s) && LegalRun(s, acts)
    ensures Inv(After(s, acts))
    decreases |acts|
  {
    if acts == [] {
    } else {
      StepKeeps(s, acts[0]);
      RunKeeps(Do(s, acts[0]), acts[1..]);
    }
  }

  lemma FreshInv()
    ensures Inv(Fresh)
  {
    assert Flat([Clear]) == Flat([Clear][..0]) + Clear.whole;
  }

  // --------------------------------------------------------- when octets are lost

  /** A failed write that has moved some octets; a write that moves any; and a new connection. */
  predicate Partial(a: Act) { FailsToWrite(a.step) && a.part > 0 }
  predicate Moves(a: Act) { Partial(a) || a.step == Queue.WorkerWriteReturns(true) }
  predicate Renews(a: Act) { a.step.OwnerBegin? && a.newDescriptor }

  predicate SameConnection(acts: seq<Act>, i: int, j: int)
    requires 0 <= i && j <= |acts|
  {
    forall k :: i < k < j ==> !Renews(acts[k])
  }

  /** A failed write that moved octets is followed by another write on the same connection that does. */
  predicate WritesOn(acts: seq<Act>) {
    exists i, j :: 0 <= i < j < |acts| && Partial(acts[i]) && Moves(acts[j]) && SameConnection(acts, i, j)
  }

  /** A failed write has moved octets on the connection there is at the end. */
  predicate PartLies(acts: seq<Act>) {
    exists i :: 0 <= i < |acts| && Partial(acts[i]) && SameConnection(acts, i, |acts|)
  }

  lemma PartLiesMore(acts: seq<Act>, a: Act)
    ensures PartLies(acts + [a]) <==> Partial(a) || (PartLies(acts) && !Renews(a))
  {
    var more := acts + [a];
    if Partial(a) {
      assert Partial(more[|acts|]) && SameConnection(more, |acts|, |more|);
    }
    if i :| 0 <= i < |acts| && Partial(acts[i]) && SameConnection(acts, i, |acts|) && !Renews(a) {
      assert Partial(more[i]) && SameConnection(more, i, |more|);
    }
    if i :| 0 <= i < |more| && Partial(more[i]) && SameConnection(more, i, |more|) && !Partial(a) {
      assert i < |acts| && more[|acts|] == a;
      assert SameConnection(acts, i, |acts|) by {
        assert forall k :: i < k < |acts| ==> acts[k] == more[k];
      }
    }
  }

  lemma WritesOnMore(acts: seq<Act>, a: Act)
    ensures WritesOn(acts + [a]) <==> WritesOn(acts) || (PartLies(acts) && Moves(a))
  {
    var more := acts + [a];
    if i, j :| 0 <= i < j < |acts| && Partial(acts[i]) && Moves(acts[j]) && SameConnection(acts, i, j) {
      assert Partial(more[i]) && Moves(more[j]) && SameConnection(more, i, j);
    }
    if i :| 0 <= i < |acts| && Partial(acts[i]) && SameConnection(acts, i, |acts|) && Moves(a) {
      assert Partial(more[i]) && Moves(more[|acts|]) && SameConnection(more, i, |acts|);
    }
    if i, j :| 0 <= i < j < |more| && Partial(more[i]) && Moves(more[j]) && SameConnection(more, i, j) {
      assert more[i] == acts[i] && SameConnection(acts, i, j) by {
        assert forall k :: i <= k < j ==> acts[k] == more[k];
      }
      assert j < |acts| ==> acts[j] == more[j];
    }
  }

  ghost predicate SomeLost(wires: seq<Wire>) { exists i :: 0 <= i < |wires| && wires[i].lost > 0 }

  /** A failed write has moved octets on this connection. */
  predicate HasPart(w: Wire) { w.tail != [] || w.lost > 0 }

  lemma LostMore(s: Linked, a: Act)
    requires s.wires != [] && Can(s, a)
    ensures var t := Do(s, a);
            && t.wires != []
            && (SomeLost(t.wires) <==> SomeLost(s.wires) || (Moves(a) && s.wires[|s.wires| - 1].tail != []))
            && (HasPart(t.wires[|t.wires| - 1]) <==>
                Partial(a) || (HasPart(s.wires[|s.wires| - 1]) && !Renews(a)))
  {
    var t, last := Do(s, a), |s.wires| - 1;
    if i :| 0 <= i < |s.wires| && s.wires[i].lost > 0 {
      assert t.wires[i].lost >= s.wires[i].lost;
    }
    if Moves(a) && s.wires[last].tail != [] {
      assert t.wires[last].lost > 0;
    }
    if i :| 0 <= i < |t.wires| && t.wires[i].lost > 0 {
      assert i < |s.wires|;
    }
  }

  /** All but the last act of a run are a run, in front of which the last can be done. */
  lemma {:induction false} AllButLast(s: Linked, acts: seq<Act>)
    requires acts != [] && s.wires != [] && LegalRun(s, acts)
    ensures LegalRun(s, acts[..|acts| - 1]) && Can(After(s, acts[..|acts| - 1]), acts[|acts| - 1])
    decreases |acts|
  {
    if |acts| == 1 {
    } else {
      AllButLast(Do(s, acts[0]), acts[1..]);
      assert acts[1..][..|acts| - 2] == acts[..|acts| - 1][1..];
    }
  }

  lemma LostInLast(front: seq<Act>, a: Act)
    requires LegalRun(Fresh, front) && Can(After(Fresh, front), a)
    ensures LegalRun(Fresh, front + [a])
    ensures var before, after := After(Fresh, front).wires, After(Fresh, front + [a]).wires;
            && (SomeLost(after) <==> SomeLost(before) || (Moves(a) && before[|before| - 1].tail != []))
            && (HasPart(after[|after| - 1]) <==> Partial(a) || (HasPart(before[|before| - 1]) && !Renews(a)))
  {
    OneMoreStep(Fresh, front, a);
    LostMore(After(Fresh, front), a);
  }

  /** Connections have lost octets as these acts say, and the last has a part on it as they say. */
  ghost predicate LostAs(wires: seq<Wire>, acts: seq<Act>) {
    wires != [] && (SomeLost(wires) <==> WritesOn(acts)) && (HasPart(wires[|wires| - 1]) <==> PartLies(acts))
  }

  lemma LostNext(before: seq<Wire>, after: seq<Wire>, front: seq<Act>, a: Act)
    requires LostAs(before, front) && after != []
    requires SomeLost(after) <==> SomeLost(before) || (Moves(a) && before[|before| - 1].tail != [])
    requires HasPart(after[|after| - 1]) <==> Partial(a) || (HasPart(before[|before| - 1]) && !Renews(a))
    ensures LostAs(after, front + [a])
  {
    PartLiesMore(front, a);
    WritesOnMore(front, a);
  }

  /**
   * Some connection has lost octets exactly when a failed write that moved octets was followed, before a new connection
   * was begun, by another write that moved octets.
   */
  lemma {:induction false} LostExactly(acts: seq<Act>)
    requires LegalRun(Fresh, acts)
    ensures LostAs(After(Fresh, acts).wires, acts)
    decreases |acts|
  {
    if acts == [] {
    } else {
      var front, a := acts[..|acts| - 1], acts[|acts| - 1];
      assert acts == front + [a];
      AllButLast(Fresh, acts);
      LostInLast(front, a);
      LostExactly(front);
      LostNext(After(Fresh, front).wires, After(Fresh, acts).wires, front, a);
    }
  }

  /**
   * In every interleaving, the streams written whole over all connections, in order, followed by what is still to be
   * written, are what was pushed: none is lost and none is written whole twice. What is left at the end of a connection
   * is at most a proper part of the next. And all connections carry their streams end to end, with that part behind
   * them, exactly when no failed write that moved octets was followed by another on the same connection that did.
   */
  lemma WiresCarry(acts: seq<Act>)
    requires LegalRun(Fresh, acts)
    ensures var s := After(Fresh, acts);
            && s.queue.pushed == Flat(s.wires) + Queue.Unwritten(s.queue)
            && AllWhole(s.queue.pushed) && Carried(s.wires, s.queue.pushed)
    ensures (forall i :: 0 <= i < |After(Fresh, acts).wires| ==> InOrder(After(Fresh, acts).wires[i])) <==> !WritesOn(acts)
    ensures !WritesOn(acts) ==> forall i :: 0 <= i < |After(Fresh, acts).wires| ==> After(Fresh, acts).wires[i].lost == 0
  {
    FreshInv();
    RunKeeps(Fresh, acts);
    LostExactly(acts);
    var wires := After(Fresh, acts).wires;
    assert forall i :: 0 <= i < |wires| ==> Accounted(wires[i]) && (InOrder(wires[i]) <==> wires[i].lost == 0);
  }

  // ---------------------------------------------------------------- receivers

  lemma FlatFront(wires: seq<Wire>, i: nat)
    requires i < |wires|
    ensures Flat(wires[..i + 1]) == Flat(wires[..i]) + wires[i].whole
  {
    assert wires[..i + 1][..i] == wires[..i];
  }

  lemma {:induction false} FlatPrefix(wires: seq<Wire>, i: nat)
    requires i <= |wires|
    ensures Flat(wires[..i]) <= Flat(wires)
    decreases |wires| - i
  {
    if i == |wires| {
      assert wires[..i] == wires;
    } else {
      FlatFront(wires, i);
      FlatPrefix(wires, i + 1);
    }
  }

  lemma WholeFrom(wires: seq<Wire>, pushed: seq<Stream>, i: nat)
    requires i < |wires| && Flat(wires) <= pushed
    ensures var from, whole := |Flat(wires[..i])|, wires[i].whole;
            from + |whole| == |Flat(wires[..i + 1])| <= |pushed| && pushed[from..][0..|whole|] == whole
  {
    FlatFront(wires, i);
    FlatPrefix(wires, i + 1);
    assert Flat(wires[..i + 1]) <= pushed;
  }

  /** What a connection that lost nothing looks like to its receiver. */
  lemma AsReceived(wires: seq<Wire>, pushed: seq<Stream>, i: nat)
    requires Carried(wires, pushed) && AllWhole(pushed) && Flat(wires) <= pushed && i < |wires| && wires[i].lost == 0
    ensures var from, w := |Flat(wires[..i])|, wires[i];
            from + |w.whole| <= |pushed| && OnWire(w.octets, pushed[from..], |w.whole|, w.tail, 0)
            && pushed[from..][..|w.whole|] == w.whole
  {
    var from, w := |Flat(wires[..i])|, wires[i];
    WholeFrom(wires, pushed, i);
    assert EndsIn(w.tail, pushed, from + |w.whole|);
    assert from + |w.whole| < |pushed| ==> pushed[from..][|w.whole|] == pushed[from + |w.whole|];
    assert pushed[from..][..|w.whole|] == pushed[from..][0..|w.whole|];
  }

  /** The streams of all receivers, in order. */
  function Laid(got: seq<seq<Stream>>): seq<Stream> {
    if got == [] then [] else Laid(got[..|got| - 1]) + got[|got| - 1]
  }

  lemma {:induction false} LaidFlat(got: seq<seq<Stream>>, wires: seq<Wire>)
    requires |got| == |wires| && forall i :: 0 <= i < |got| ==> got[i] == wires[i].whole
    ensures Laid(got) == Flat(wires)
  {
    if got == [] {
    } else {
      LaidFlat(got[..|got| - 1], wires[..|wires| - 1]);
    }
  }

  /** What was written on the connection, as far as it has been read. */
  ghost predicate Arrived(got: seq<Stream>, w: Wire, reliable: bool) { got <= w.whole && (reliable ==> got == w.whole) }

  method ReceiveOne(octets: seq<byte>, most: nat, reliable: bool, ghost wires: seq<Wire>, ghost pushed: seq<Stream>,
                    ghost i: nat)
    returns (got: seq<Stream>)
    requires Carried(wires, pushed) && AllWhole(pushed) && Flat(wires) <= pushed && |pushed| <= most
    requires i < |wires| && octets == wires[i].octets && wires[i].lost == 0
    ensures Arrived(got, wires[i], reliable)
  {
    ghost var w := wires[i];
    AsReceived(wires, pushed, i);
    var socket := new Socket(reliable);
    socket.wire := octets;
    got := ReceiveAll(socket, most, pushed[|Flat(wires[..i])|..], |w.whole|, w.tail);
    assert got == w.whole[..|got|];
  }

  /** One receiver a connection, each downloading until it fails. */
  method ReceiveEach(connections: seq<seq<byte>>, most: nat, reliable: bool, ghost wires: seq<Wire>,
                     ghost pushed: seq<Stream>)
    returns (got: seq<seq<Stream>>)
    requires Carried(wires, pushed) && AllWhole(pushed) && Flat(wires) <= pushed && |pushed| <= most
    requires |connections| == |wires|
    requires forall i :: 0 <= i < |wires| ==> connections[i] == wires[i].octets && wires[i].lost == 0
    ensures |got| == |wires| && forall i :: 0 <= i < |got| ==> Arrived(got[i], wires[i], reliable)
    ensures reliable ==> Laid(got) == Flat(wires)
  {
    got := [];
    for i := 0 to |connections|
      invariant |got| == i
      invariant forall k :: 0 <= k < i ==> Arrived(got[k], wires[k], reliable)
    {
      var some := ReceiveOne(connections[i], most, reliable, wires, pushed, i);
      got := got + [some];
    }
    if reliable {
      LaidFlat(got, wires);
    }
  }

  /**
   * Receivers of any run of the queue in which no write follows on a failed one's part. Each gets streams in the order
   * in which they were written on its connection, and if it does not fail itself all of them: over all connections what
   * was pushed, but for what is still to be written, once and in order.
   */
  method ReceiveRun(ghost acts: seq<Act>, connections: seq<seq<byte>>, most: nat, reliable: bool)
    returns (got: seq<seq<Stream>>)
    requires LegalRun(Fresh, acts) && !WritesOn(acts) && |After(Fresh, acts).queue.pushed| <= most
    requires var wires := After(Fresh, acts).wires;
             |connections| == |wires| && forall i :: 0 <= i < |wires| ==> connections[i] == wires[i].octets
    ensures var s := After(Fresh, acts);
            && |got| == |s.wires| && (forall i :: 0 <= i < |got| ==> Arrived(got[i], s.wires[i], reliable))
            && (reliable ==> s.queue.pushed == Laid(got) + Queue.Unwritten(s.queue))
  {
    ghost var s := After(Fresh, acts);
    WiresCarry(acts);
    got := ReceiveEach(connections, most, reliable, s.wires, s.queue.pushed);
  }

  // ------------------------------------------------------ a retry that misframes

  /** A stream without arguments. */
  const Short: Stream := [1] + seq(16, _ => 0)

  lemma {:induction false} ZeroesRead(s: seq<byte>)
    requires forall k :: 0 <= k < |s| ==> s[k] == 0
    ensures FromBigEndian(s) == 0
  {
    if s == [] {
    } else {
      ZeroesRead(s[..|s| - 1]);
    }
  }

  lemma {:induction false} OneThenZeroesRead(s: seq<byte>)
    requires s != [] && s[0] == 1 && forall k :: 1 <= k < |s| ==> s[k] == 0
    ensures FromBigEndian(s) == Pow256(|s| - 1)
  {
    if |s| == 1 {
      assert s[..0] == [];
    } else {
      OneThenZeroesRead(s[..|s| - 1]);
    }
  }

  /** Behind one octet of itself it reads as a stream that is too large. */
  lemma ShortMisread()
    ensures WholeStream(Short) && Expected([1] + Short) == SizeExceeded
  {
    ZeroesRead(Short[1..9]);
    OneThenZeroesRead(([1] + Short)[1..9]);
    PowConstants();
    assert Pow256(7) >= Pow256(4) > MAX_STREAM_ARGS_SIZE by {
      assert Pow256(7) == 256 * Pow256(6) && Pow256(6) == 256 * Pow256(5) && Pow256(5) == 256 * Pow256(4);
    }
    assert Short[HEADER_SIZE..] == [];
    WholeArgumentsParse([]);
  }

  function Plain(step: Queue.Step): Act { Act(step, 0, false) }

  lemma Takes(acts: seq<Act>, a: Act, s: Linked, t: Linked) returns (more: seq<Act>)
    requires LegalRun(Fresh, acts) && After(Fresh, acts) == s && s.wires != [] && Can(s, a) && Do(s, a) == t
    ensures LegalRun(Fresh, more) && After(Fresh, more) == t
  {
    OneMoreStep(Fresh, acts, a);
    more := acts + [a];
  }

  const Begun: Queue.State := Queue.Initial.(worker := Queue.Top)
  const Pushing: Queue.State :=
    Begun.(mutex := Queue.ByProducer(0), queue := [Short], pushed := [Short], producers := map[0 := Queue.Pushed])
  /** One stream has been pushed. */
  const Loaded: Queue.State := Pushing.(mutex := Queue.Free, producers := map[0 := Queue.BeforePost])

  lemma Pushes() returns (acts: seq<Act>)
    ensures LegalRun(Fresh, acts) && After(Fresh, acts) == Linked(Pushing, [Clear])
  {
    ShortMisread();
    var held := Begun.(mutex := Queue.ByProducer(0), producers := map[0 := Queue.Holding(Short)]);
    acts := Takes([], Plain(Queue.OwnerBegin), Fresh, Linked(Begun, [Clear]));
    acts := Takes(acts, Plain(Queue.ProducerLock(0, Short)), Linked(Begun, [Clear]), Linked(held, [Clear]));
    acts := Takes(acts, Plain(Queue.ProducerPushBack(0)), Linked(held, [Clear]), Linked(Pushing, [Clear]));
  }

  lemma Loads() returns (acts: seq<Act>)
    ensures LegalRun(Fresh, acts) && After(Fresh, acts) == Linked(Loaded, [Clear])
  {
    acts := Pushes();
    acts := Takes(acts, Plain(Queue.ProducerUnlock(0)), Linked(Pushing, [Clear]), Linked(Loaded, [Clear]));
  }

  /** The worker takes up the stream. */
  lemma TakesUp(acts: seq<Act>, q: Queue.State, wires: seq<Wire>) returns (more: seq<Act>)
    requires wires != [] && q == Loaded.(error := q.error)
    requires LegalRun(Fresh, acts) && After(Fresh, acts) == Linked(q, wires)
    ensures LegalRun(Fresh, more) && After(Fresh, more) == Linked(q.(worker := Queue.Writing(Short)), wires)
  {
    var locked := q.(mutex := Queue.ByWorker, worker := Queue.Checking);
    more := Takes(acts, Plain(Queue.WorkerLock), Linked(q, wires), Linked(locked, wires));
    more := Takes(more, Plain(Queue.WorkerCheck), Linked(locked, wires), Linked(q.(worker := Queue.Writing(Short)), wires));
  }

  lemma Retries(acts: seq<Act>, q: Queue.State, part: Wire) returns (more: seq<Act>)
    requires LegalRun(Fresh, acts) && After(Fresh, acts) == Linked(q, [part]) && part == Wire([1], [], [1], 0)
    requires q.worker == Queue.Writing(Short) && q.written == []
    ensures LegalRun(Fresh, more)
    ensures After(Fresh, more) ==
            Linked(q.(worker := Queue.WantLock(true), written := [Short]), [Wire([1] + Short, [Short], [], 1)])
  {
    assert part.whole + [Short] == [Short];
    assert [part][0 := Written(part, Short)] == [Wire([1] + Short, [Short], [], 1)];
    more := Takes(acts, Plain(Queue.WorkerWriteReturns(true)), Linked(q, [part]),
                  Linked(q.(worker := Queue.WantLock(true), written := [Short]), [Wire([1] + Short, [Short], [], 1)]));
  }

  /**
   * A write fails behind one octet, and the worker tries again on the same connection, which carries it all this time.
   * The queue has written its stream, and the receiver will not download it.
   */
  lemma RetryMisframes() returns (acts: seq<Act>)
    ensures LegalRun(Fresh, acts) && WritesOn(acts)
    ensures var s := After(Fresh, acts);
            && s.queue.written == s.queue.pushed == [Short] && |s.wires| == 1 && s.wires[0].lost == 1
            && Expected(s.wires[0].octets) == SizeExceeded
  {
    ShortMisread();
    var failed, part := Loaded.(error := true), Wire([1], [], [1], 0);
    acts := Loads();
    acts := TakesUp(acts, Loaded, [Clear]);
    assert Short[..1] == [1] && Failed(Clear, Short[..1]) == part && [Clear][0 := part] == [part];
    acts := Takes(acts, Act(Queue.WorkerWriteThrows, 1, false), Linked(Loaded.(worker := Queue.Writing(Short)), [Clear]),
                  Linked(failed, [part]));
    acts := TakesUp(acts, failed, [part]);
    acts := Retries(acts, failed.(worker := Queue.Writing(Short)), part);
    assert After(Fresh, acts).wires[0].lost == 1;
    LostExactly(acts);
  }
}
