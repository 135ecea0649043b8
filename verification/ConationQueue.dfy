/**
 * ConationQueue as a state machine: any number of threads in Push, Pop and WaitPop, one mutex, and a counting
 * semaphore that Push posts under the mutex and only WaitPop waits on.
 */
module ConationQueue {
  import opened Bytes

  type Stream = seq<byte>

  datatype Thread =
    | PushHolding(stream: Stream)
    | PushAdded
    | PushPosted
    | PopHolding(actuallyPop: bool)
    | Waiting
    | PastWait
    | TakeHolding

  datatype Holder = Free | By(t: nat)

  datatype State = State(
    mutex: Holder,
    semaphore: nat,
    queue: seq<Stream>,
    threads: map<nat, Thread>,
    pushed: seq<Stream>,     // history: what Push has queued
    delivered: seq<Stream>,  // history: what destructive Pop and WaitPop have handed out
    taken: nat,              // history: successful destructive Pop calls
    starved: bool)           // a WaitPop has met an empty queue

  const Initial: State := State(Free, 0, [], map[], [], [], 0, false)

  datatype Step =
    | PushLock(t: nat, s: Stream)
    | PushAdd(t: nat)
    | PushPost(t: nat)
    | PushUnlock(t: nat)
    | PopLock(t: nat, actuallyPop: bool)
    | PopReturn(t: nat)
    | WaitEnter(t: nat)
    | WaitWake(t: nat)
    | TakeLock(t: nat)
    | Take(t: nat)

  predicate Enabled(s: State, step: Step) {
    match step
    case PushLock(t, _) => t !in s.threads && s.mutex.Free?
    case PushAdd(t) => t in s.threads && s.threads[t].PushHolding?
    case PushPost(t) => t in s.threads && s.threads[t].PushAdded?
    case PushUnlock(t) => t in s.threads && s.threads[t].PushPosted?
    case PopLock(t, _) => t !in s.threads && s.mutex.Free?
    case PopReturn(t) => t in s.threads && s.threads[t].PopHolding?
    case WaitEnter(t) => t !in s.threads
    case WaitWake(t) => t in s.threads && s.threads[t].Waiting? && s.semaphore > 0
    case TakeLock(t) => t in s.threads && s.threads[t].PastWait? && s.mutex.Free?
    case Take(t) => t in s.threads && s.threads[t].TakeHolding?
  }

  function Do(s: State, step: Step): State
    requires Enabled(s, step)
  {
    match step
    case PushLock(t, stream) => s.(mutex := By(t), threads := s.threads[t := PushHolding(stream)])
    case PushAdd(t) =>
      var stream := s.threads[t].stream;
      s.(queue := s.queue + [stream], pushed := s.pushed + [stream], threads := s.threads[t := PushAdded])
    case PushPost(t) => s.(semaphore := s.semaphore + 1, threads := s.threads[t := PushPosted])
    case PushUnlock(t) => s.(mutex := Free, threads := s.threads - {t})
    case PopLock(t, actuallyPop) => s.(mutex := By(t), threads := s.threads[t := PopHolding(actuallyPop)])
    case PopReturn(t) =>
      var out := s.(mutex := Free, threads := s.threads - {t});
      if s.queue == [] || !s.threads[t].actuallyPop then out
      else out.(queue := s.queue[1..], delivered := s.delivered + [s.queue[0]], taken := s.taken + 1)
    case WaitEnter(t) => s.(threads := s.threads[t := Waiting])
    case WaitWake(t) => s.(semaphore := s.semaphore - 1, threads := s.threads[t := PastWait])
    case TakeLock(t) => s.(mutex := By(t), threads := s.threads[t := TakeHolding])
    case Take(t) =>
      var out := s.(mutex := Free, threads := s.threads - {t});
      if s.queue == [] then out.(starved := true)
      else out.(queue := s.queue[1..], delivered := s.delivered + [s.queue[0]])
  }

  predicate IsPast(th: Thread) { th.PastWait? || th.TakeHolding? }

  /** The waiters whose wait is over and who have not taken anything yet. */
  ghost function Past(s: State): set<nat> {
    set t | t in s.threads && IsPast(s.threads[t])
  }

  /** One while a push has queued its stream and not posted. */
  ghost function MidPush(s: State): nat {
    if s.mutex.By? && s.mutex.t in s.threads && s.threads[s.mutex.t].PushAdded? then 1 else 0
  }

  ghost predicate MutexInv(s: State) {
    forall t :: t in s.threads && !s.threads[t].Waiting? && !s.threads[t].PastWait? <==> s.mutex == By(t)
  }

  /** Tokens: made by pushes, used up by waits; a destructive Pop takes a stream and leaves its token behind. */
  ghost predicate TokenLaw(s: State) {
    s.semaphore + |Past(s)| + MidPush(s) == |s.queue| + s.taken
  }

  ghost predicate Inv(s: State) {
    && MutexInv(s)
    && s.pushed == s.delivered + s.queue
    && (!s.starved ==> TokenLaw(s))
  }

  lemma PastGrows(s: State, t: nat)
    requires Enabled(s, WaitWake(t))
    ensures |Past(Do(s, WaitWake(t)))| == |Past(s)| + 1
  {
    assert t !in Past(s);
    assert Past(Do(s, WaitWake(t))) == Past(s) + {t};
  }

  lemma PastShrinks(s: State, t: nat)
    requires Enabled(s, Take(t))
    ensures |Past(Do(s, Take(t)))| == |Past(s)| - 1
  {
    assert t in Past(s);
    assert Past(Do(s, Take(t))) == Past(s) - {t};
  }

  lemma PastStays(s: State, step: Step)
    requires Enabled(s, step) && !step.WaitWake? && !step.Take?
    ensures Past(Do(s, step)) == Past(s)
  {
  }

  lemma StepKeeps(s: State, step: Step)
    requires Inv(s) && Enabled(s, step)
    ensures Inv(Do(s, step))
  {
    match step
    case WaitWake(t) => PastGrows(s, t);
    case Take(t) => PastShrinks(s, t);
    case _ => PastStays(s, step);
  }

  predicate LegalRun(s: State, steps: seq<Step>)
    decreases |steps|
  {
    steps == [] || (Enabled(s, steps[0]) && LegalRun(Do(s, steps[0]), steps[1..]))
  }

  function After(s: State, steps: seq<Step>): State
    requires LegalRun(s, steps)
    decreases |steps|
  {
    if steps == [] then s else After(Do(s, steps[0]), steps[1..])
  }

  lemma {:induction false} RunKeeps(s: State, steps: seq<Step>)
    requires Inv(s) && LegalRun(s, steps)
    ensures Inv(After(s, steps))
    decreases |steps|
  {
    if steps == [] {
    } else {
      StepKeeps(s, steps[0]);
      RunKeeps(Do(s, steps[0]), steps[1..]);
    }
  }

  /** Delivery is first in, first out, without loss or duplication, and until a waiter starves the token law holds. */
  lemma FifoAndTokens(steps: seq<Step>)
    requires LegalRun(Initial, steps)
    ensures var s := After(Initial, steps);
            && s.pushed == s.delivered + s.queue
            && (!s.starved ==> TokenLaw(s))
            && (s.mutex.Free? && !s.starved ==> s.semaphore + |Past(s)| == |s.queue| + s.taken)
  {
    assert Past(Initial) == {};
    RunKeeps(Initial, steps);
  }

  predicate DestructivePop(step: Step) { step.PopLock? && step.actuallyPop }

  ghost predicate NoDestructivePop(s: State) {
    s.taken == 0 && forall t :: t in s.threads && s.threads[t].PopHolding? ==> !s.threads[t].actuallyPop
  }

  lemma {:induction false} NeverStarves(s: State, steps: seq<Step>)
    requires Inv(s) && !s.starved && NoDestructivePop(s) && LegalRun(s, steps)
    requires forall k :: 0 <= k < |steps| ==> !DestructivePop(steps[k])
    ensures !After(s, steps).starved
    decreases |steps|
  {
    if steps == [] {
    } else {
      var step := steps[0];
      StepKeeps(s, step);
      if step.Take? {
        assert step.t in Past(s);
        assert |Past(s)| > 0;
      }
      assert NoDestructivePop(Do(s, step));
      NeverStarves(Do(s, step), steps[1..]);
    }
  }

  /** In every run without a destructive Pop, no WaitPop meets an empty queue. */
  lemma WaitersAreServed(steps: seq<Step>)
    requires LegalRun(Initial, steps) && forall k :: 0 <= k < |steps| ==> !DestructivePop(steps[k])
    ensures !After(Initial, steps).starved
  {
    assert Past(Initial) == {};
    NeverStarves(Initial, steps);
  }

  /** Nobody is inside a call. */
  ghost predicate Quiescent(s: State) { s.threads == map[] && s.mutex.Free? }

  predicate WaiterStep(step: Step) { step.WaitEnter? || step.WaitWake? || step.TakeLock? || step.Take? }

  ghost predicate OnlyWaiters(steps: seq<Step>) {
    forall k :: 0 <= k < |steps| ==> WaiterStep(steps[k])
  }

  ghost predicate CanStarve(s: State) {
    exists steps :: OnlyWaiters(steps) && LegalRun(s, steps) && After(s, steps).starved
  }

  /** One undisturbed WaitPop. */
  ghost function WaitPop(s: State): (out: State)
    requires Quiescent(s) && s.semaphore > 0
    ensures Quiescent(out)
  {
    var rest := s.(semaphore := s.semaphore - 1);
    if s.queue == [] then rest.(starved := true)
    else rest.(queue := s.queue[1..], delivered := s.delivered + [s.queue[0]])
  }

  lemma WaitPopRuns(s: State, more: seq<Step>)
    requires Quiescent(s) && s.semaphore > 0 && LegalRun(WaitPop(s), more)
    ensures var call := [WaitEnter(0), WaitWake(0), TakeLock(0), Take(0)];
            LegalRun(s, call + more) && After(s, call + more) == After(WaitPop(s), more)
  {
    var call := [WaitEnter(0), WaitWake(0), TakeLock(0), Take(0)];
    var r0 := call + more;
    var r1, r2, r3, r4 := r0[1..], r0[1..][1..], r0[1..][1..][1..], r0[1..][1..][1..][1..];
    var s1 := Do(s, WaitEnter(0));
    var s2 := Do(s1, WaitWake(0));
    var s3 := Do(s2, TakeLock(0));
    var s4 := Do(s3, Take(0));
    assert s4.threads == map[];
    assert s4 == WaitPop(s);
    assert r4 == more;
    assert r3[0] == Take(0) && LegalRun(s3, r3) && After(s3, r3) == After(s4, more);
    assert r2[0] == TakeLock(0) && LegalRun(s2, r2) && After(s2, r2) == After(s3, r3);
    assert r1[0] == WaitWake(0) && LegalRun(s1, r1) && After(s1, r1) == After(s2, r2);
  }

  lemma {:induction false} DrainStarves(s: State) returns (steps: seq<Step>)
    requires Quiescent(s) && s.semaphore > |s.queue|
    ensures OnlyWaiters(steps) && LegalRun(s, steps) && After(s, steps).starved
    decreases |s.queue|
  {
    var call := [WaitEnter(0), WaitWake(0), TakeLock(0), Take(0)];
    var more := [];
    if s.queue == [] {
    } else {
      more := DrainStarves(WaitPop(s));
    }
    WaitPopRuns(s, more);
    steps := call + more;
  }

  /** Between calls, waiting alone can come upon an empty queue exactly when some Pop has taken a stream. */
  lemma StarvationExactly(before: seq<Step>)
    requires LegalRun(Initial, before)
    requires Quiescent(After(Initial, before)) && !After(Initial, before).starved
    ensures CanStarve(After(Initial, before)) <==> After(Initial, before).taken > 0
  {
    var s := After(Initial, before);
    assert Past(Initial) == {};
    RunKeeps(Initial, before);
    assert Past(s) == {};
    if s.taken > 0 {
      var steps := DrainStarves(s);
    } else if CanStarve(s) {
      var steps :| OnlyWaiters(steps) && LegalRun(s, steps) && After(s, steps).starved;
      forall k | 0 <= k < |steps| ensures !DestructivePop(steps[k]) {
        assert WaiterStep(steps[k]);
      }
      NeverStarves(s, steps);
    }
  }
}
