/**
 * NetScheduler::WriteQueue as a state machine: any number of producers in Push, one worker thread in ThreadFunc, and
 * an owner that stops and restarts the worker. One step is one atomic action of one thread.
 */
module WriteQueue {
  import Arguments
  import opened Bytes

  type Stream = seq<byte>

  /** A producer inside Push. Threads outside Push are not listed. */
  datatype Producer = Holding(stream: Stream) | Pushed | BeforePost

  /** Where the worker stands in its loop. */
  datatype Worker =
    | Dead
    | Top
    | Checking
    | AtSemaphore
    | Writing(head: Stream)
    | WantLock(result: bool)
    | Relocked(result: bool)

  /** Where the owner stands in StopThread. */
  datatype Owner = Idle | Locked | FlagSet | Posted | Joining

  datatype Holder = Free | ByProducer(p: nat) | ByWorker | ByOwner

  datatype State = State(
    mutex: Holder,
    semaphore: nat,
    queue: seq<Stream>,
    error: bool,
    threadShouldDie: bool,
    producers: map<nat, Producer>,
    worker: Worker,
    owner: Owner,
    pushed: seq<Stream>,   // history: what producers have put on the list
    written: seq<Stream>)  // history: what Net::Write has reported as written

  const Initial: State := State(Free, 0, [], false, false, map[], Dead, Idle, [], [])

  datatype Step =
    | ProducerLock(p: nat, s: Stream)
    | ProducerPushBack(p: nat)
    | ProducerUnlock(p: nat)
    | ProducerPost(p: nat)
    | WorkerLock
    | WorkerCheck
    | WorkerWait
    | WorkerWriteReturns(ok: bool)
    | WorkerWriteThrows
    | WorkerRelock
    | WorkerFinish
    | OwnerBegin
    | OwnerStopLock
    | OwnerSetFlag
    | OwnerPost
    | OwnerUnlock
    | OwnerJoin
    | ClearError

  predicate Enabled(s: State, step: Step) {
    match step
    case ProducerLock(p, _) => p !in s.producers && s.mutex.Free?
    case ProducerPushBack(p) => p in s.producers && s.producers[p].Holding?
    case ProducerUnlock(p) => p in s.producers && s.producers[p].Pushed?
    case ProducerPost(p) => p in s.producers && s.producers[p].BeforePost?
    case WorkerLock => s.worker.Top? && s.mutex.Free?
    case WorkerCheck => s.worker.Checking?
    case WorkerWait => s.worker.AtSemaphore? && s.semaphore > 0
    case WorkerWriteReturns(_) => s.worker.Writing?
    case WorkerWriteThrows => s.worker.Writing?
    case WorkerRelock => s.worker.WantLock? && s.mutex.Free?
    case WorkerFinish => s.worker.Relocked? && (s.worker.result ==> s.queue != [])
    case OwnerBegin => s.owner.Idle? && s.worker.Dead?
    case OwnerStopLock => s.owner.Idle? && !s.worker.Dead? && s.mutex.Free?
    case OwnerSetFlag => s.owner.Locked?
    case OwnerPost => s.owner.FlagSet?
    case OwnerUnlock => s.owner.Posted?
    case OwnerJoin => s.owner.Joining? && s.worker.Dead?
    case ClearError => s.mutex.Free?
  }

  function Do(s: State, step: Step): State
    requires Enabled(s, step)
  {
    match step
    case ProducerLock(p, stream) => s.(mutex := ByProducer(p), producers := s.producers[p := Holding(stream)])
    case ProducerPushBack(p) =>
      var stream := s.producers[p].stream;
      s.(queue := s.queue + [stream], pushed := s.pushed + [stream], producers := s.producers[p := Pushed])
    case ProducerUnlock(p) => s.(mutex := Free, producers := s.producers[p := BeforePost])
    case ProducerPost(p) => s.(semaphore := s.semaphore + 1, producers := s.producers - {p})
    case WorkerLock => s.(mutex := ByWorker, worker := Checking)
    case WorkerCheck =>
      if s.threadShouldDie then s.(mutex := Free, worker := Dead)
      else if s.queue == [] then s.(mutex := Free, worker := AtSemaphore)
      else s.(mutex := Free, worker := Writing(s.queue[0]))
    case WorkerWait => s.(semaphore := s.semaphore - 1, worker := Top)
    case WorkerWriteReturns(ok) =>
      s.(worker := WantLock(ok), written := if ok then s.written + [s.worker.head] else s.written)
    // the handler jumps past the lock: the flag is raised without the mutex
    case WorkerWriteThrows => s.(error := true, worker := Top)
    case WorkerRelock => s.(mutex := ByWorker, worker := Relocked(s.worker.result))
    case WorkerFinish =>
      if s.worker.result then s.(mutex := Free, queue := s.queue[1..], worker := Top)
      else s.(mutex := Free, error := true, worker := Top)
    case OwnerBegin => s.(threadShouldDie := false, worker := Top)
    case OwnerStopLock => s.(mutex := ByOwner, owner := Locked)
    case OwnerSetFlag => s.(threadShouldDie := true, owner := FlagSet)
    case OwnerPost => s.(semaphore := s.semaphore + 1, owner := Posted)
    case OwnerUnlock => s.(mutex := Free, owner := Joining)
    case OwnerJoin => s.(owner := Idle)
    case ClearError => s.(error := false)
  }

  /** The producers whose stream is on the list and whose post is still to come. */
  ghost function MidPush(s: State): set<nat> {
    set p | p in s.producers && !s.producers[p].Holding?
  }

  /** Posts that are owed: one for every producer in the middle of a push, one for a stop whose flag is up. */
  ghost function Owed(s: State): nat {
    |MidPush(s)| + if s.owner.FlagSet? then 1 else 0
  }

  /** What a sleeping worker would have to be woken for. */
  ghost function Reasons(s: State): nat {
    |s.queue| + if s.threadShouldDie then 1 else 0
  }

  ghost predicate MutexInv(s: State) {
    && (forall p :: p in s.producers && !s.producers[p].BeforePost? <==> s.mutex == ByProducer(p))
    && (s.worker.Checking? || s.worker.Relocked? <==> s.mutex.ByWorker?)
    && (s.owner.Locked? || s.owner.FlagSet? || s.owner.Posted? <==> s.mutex.ByOwner?)
  }

  /** The part of the list that has not been written: its front stays on it until the worker takes it off. */
  ghost function Unwritten(s: State): seq<Stream> {
    if (s.worker == WantLock(true) || s.worker == Relocked(true)) && s.queue != [] then s.queue[1..] else s.queue
  }

  ghost predicate ConservationInv(s: State) {
    && s.pushed == s.written + Unwritten(s)
    && (s.worker.Writing? ==> s.queue != [] && s.queue[0] == s.worker.head)
    && (s.worker == WantLock(true) || s.worker == Relocked(true) ==>
          s.queue != [] && s.written != [] && s.written[|s.written| - 1] == s.queue[0])
  }

  ghost predicate WakeInv(s: State) {
    s.worker.AtSemaphore? ==> Reasons(s) <= s.semaphore + Owed(s)
  }

  /** A stop is requested only of a worker that has not been restarted since. */
  ghost predicate OwnerInv(s: State) {
    && (s.owner.FlagSet? || s.owner.Posted? || s.owner.Joining? ==> s.threadShouldDie)
    && (s.threadShouldDie && s.owner.Idle? ==> s.worker.Dead?)
  }

  ghost predicate Inv(s: State) {
    MutexInv(s) && ConservationInv(s) && WakeInv(s) && OwnerInv(s)
  }

  lemma MidPushGrows(s: State, p: nat)
    requires Enabled(s, ProducerPushBack(p))
    ensures |MidPush(Do(s, ProducerPushBack(p)))| == |MidPush(s)| + 1
  {
    assert p !in MidPush(s);
    assert MidPush(Do(s, ProducerPushBack(p))) == MidPush(s) + {p};
  }

  lemma MidPushShrinks(s: State, p: nat)
    requires Enabled(s, ProducerPost(p))
    ensures |MidPush(Do(s, ProducerPost(p)))| == |MidPush(s)| - 1
  {
    assert p in MidPush(s);
    assert MidPush(Do(s, ProducerPost(p))) == MidPush(s) - {p};
  }

  lemma MidPushStays(s: State, step: Step)
    requires Enabled(s, step) && !step.ProducerPushBack? && !step.ProducerPost?
    ensures MidPush(Do(s, step)) == MidPush(s)
  {
  }

  lemma MutexKept(s: State, step: Step)
    requires Inv(s) && Enabled(s, step)
    ensures MutexInv(Do(s, step))
  {
  }

  lemma PushConserves(s: State, p: nat)
    requires Inv(s) && Enabled(s, ProducerPushBack(p))
    ensures ConservationInv(Do(s, ProducerPushBack(p)))
  {
    var stream := s.producers[p].stream;
    if s.queue != [] {
      assert (s.queue + [stream])[1..] == s.queue[1..] + [stream];
    }
    assert Unwritten(Do(s, ProducerPushBack(p))) == Unwritten(s) + [stream];
    Arguments.Associate(s.written, Unwritten(s), [stream]);
  }

  lemma WriteConserves(s: State, ok: bool)
    requires Inv(s) && Enabled(s, WorkerWriteReturns(ok))
    ensures ConservationInv(Do(s, WorkerWriteReturns(ok)))
  {
    if ok {
      assert s.queue == [s.worker.head] + s.queue[1..];
      Arguments.Associate(s.written, [s.worker.head], s.queue[1..]);
    }
  }

  lemma ConservationKept(s: State, step: Step)
    requires Inv(s) && Enabled(s, step)
    ensures ConservationInv(Do(s, step))
  {
    match step
    case ProducerPushBack(p) => PushConserves(s, p);
    case WorkerWriteReturns(ok) => WriteConserves(s, ok);
    case WorkerFinish =>
      if s.worker.result {
        assert Unwritten(Do(s, step)) == s.queue[1..];
      }
    case _ =>
  }

  lemma WakeKept(s: State, step: Step)
    requires Inv(s) && Enabled(s, step)
    ensures WakeInv(Do(s, step)) && OwnerInv(Do(s, step))
  {
    match step
    case ProducerPushBack(p) => MidPushGrows(s, p);
    case ProducerPost(p) => MidPushShrinks(s, p);
    case _ => MidPushStays(s, step);
  }

  /** Every atomic action keeps the invariant. */
  lemma StepKeeps(s: State, step: Step)
    requires Inv(s) && Enabled(s, step)
    ensures Inv(Do(s, step))
  {
    MutexKept(s, step);
    ConservationKept(s, step);
    WakeKept(s, step);
  }

  // ------------------------------------------------------------------- runs

  predicate LegalRun(s: State, steps: seq<Step>)
    decreases |steps|
  {
    steps == [] || (Enabled(s, steps[0]) && LegalRun(Do(s, steps[0]), steps[1..]))
  }

  function After(s: State, steps: seq<Step>): State
    requires LegalRun(s, steps)
    decreases |steps|
  {
    if steps == [] then s else After(Do(s, steps[0]), steps[1..])
  }

  lemma {:induction false} RunKeeps(s: State, steps: seq<Step>)
    requires Inv(s) && LegalRun(s, steps)
    ensures Inv(After(s, steps))
    decreases |steps|
  {
    if steps == [] {
    } else {
      StepKeeps(s, steps[0]);
      RunKeeps(Do(s, steps[0]), steps[1..]);
    }
  }

  lemma InitialInv()
    ensures Inv(Initial)
  {
  }

  /**
   * No lost wake-up. In every interleaving, a worker that found the list empty and is at the semaphore has a post,
   * made or owed, for every stream on the list and for a requested stop; so when it is blocked and nothing is owed,
   * the list is empty and no stop is pending.
   */
  lemma NoLostWakeup(steps: seq<Step>)
    requires LegalRun(Initial, steps)
    ensures var s := After(Initial, steps);
            s.worker.AtSemaphore? ==>
              && Reasons(s) <= s.semaphore + Owed(s)
              && (s.semaphore == 0 && Owed(s) == 0 ==> s.queue == [] && !s.threadShouldDie)
  {
    InitialInv();
    RunKeeps(Initial, steps);
  }

  /**
   * Conservation. In every interleaving, failed writes and restarts included, what was written followed by what is
   * still to be written is what was pushed, in order; and a stream being written is the front of the list.
   */
  lemma Conservation(steps: seq<Step>)
    requires LegalRun(Initial, steps)
    ensures var s := After(Initial, steps);
            && s.pushed == s.written + Unwritten(s)
            && (s.worker.Writing? ==> s.queue != [] && s.queue[0] == s.worker.head)
            && (!s.worker.WantLock? && !s.worker.Relocked? ==> s.pushed == s.written + s.queue)
  {
    InitialInv();
    RunKeeps(Initial, steps);
  }

  /** The actions that finish what has been begun: all but entering Push, starting or stopping, or clearing errors. */
  predicate Completes(step: Step) {
    !step.ProducerLock? && !step.OwnerBegin? && !step.OwnerStopLock? && !step.ClearError?
  }

  lemma HolderCanMove(s: State) returns (step: Step)
    requires Inv(s) && !s.mutex.Free?
    ensures Completes(step) && Enabled(s, step)
  {
    match s.mutex
    case ByProducer(p) => step := if s.producers[p].Holding? then ProducerPushBack(p) else ProducerUnlock(p);
    case ByWorker => step := if s.worker.Checking? then WorkerCheck else WorkerFinish;
    case ByOwner =>
      step := if s.owner.Locked? then OwnerSetFlag else if s.owner.FlagSet? then OwnerPost else OwnerUnlock;
  }

  /** No deadlock: while the worker lives and there is something to write or a stop to obey, some action can complete. */
  lemma SomeoneCanMove(steps: seq<Step>) returns (step: Step)
    requires LegalRun(Initial, steps)
    requires var s := After(Initial, steps); !s.worker.Dead? && Reasons(s) > 0
    ensures Completes(step) && Enabled(After(Initial, steps), step)
  {
    InitialInv();
    RunKeeps(Initial, steps);
    var s := After(Initial, steps);
    if !s.mutex.Free? {
      step := HolderCanMove(s);
    } else if s.worker.Top? {
      step := WorkerLock;
    } else if s.worker.Writing? {
      step := WorkerWriteThrows;
    } else if s.worker.WantLock? {
      step := WorkerRelock;
    } else if s.semaphore > 0 {
      step := WorkerWait;
    } else {
      assert MidPush(s) != {};
      var p :| p in MidPush(s);
      step := ProducerPost(p);
    }
  }
}
