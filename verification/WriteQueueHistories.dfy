/** What a run of the write queue has made of it, told by its steps alone; and how the worker obeys a stop. */
module WriteQueueHistories {
  import opened Bytes
  import opened WriteQueue

  function Front(steps: seq<Step>): seq<Step>
    requires steps != []
  {
    steps[..|steps| - 1]
  }

  function Last(steps: seq<Step>): Step
    requires steps != []
  {
    steps[|steps| - 1]
  }

  /** All but the last step of a run are a run, behind which the last can be done. */
  lemma {:induction false} AllButLast(s: State, steps: seq<Step>)
    requires steps != [] && LegalRun(s, steps)
    ensures LegalRun(s, Front(steps)) && Enabled(After(s, Front(steps)), Last(steps))
    ensures After(s, steps) == Do(After(s, Front(steps)), Last(steps))
    decreases |steps|
  {
    if |steps| == 1 {
    } else {
      AllButLast(Do(s, steps[0]), steps[1..]);
      assert Front(steps[1..]) == Front(steps)[1..];
    }
  }

  // ------------------------------------------------------------ what was pushed

  /** The stream with which a producer last entered Push. */
  function Brought(steps: seq<Step>, p: nat): Stream {
    if steps == [] then []
    else if Last(steps).ProducerLock? && Last(steps).p == p then Last(steps).s
    else Brought(Front(steps), p)
  }

  /** The streams that producers have put on the list, each the one it entered with. */
  function Pushes(steps: seq<Step>): seq<Stream> {
    if steps == [] then []
    else if Last(steps).ProducerPushBack? then Pushes(Front(steps)) + [Brought(Front(steps), Last(steps).p)]
    else Pushes(Front(steps))
  }

  /** The writes that have succeeded. */
  function Successes(steps: seq<Step>): nat {
    if steps == [] then 0
    else Successes(Front(steps)) + if Last(steps) == WorkerWriteReturns(true) then 1 else 0
  }

  function Posts(steps: seq<Step>): nat {
    if steps == [] then 0
    else Posts(Front(steps)) + if Last(steps).ProducerPost? || Last(steps).OwnerPost? then 1 else 0
  }

  function Waits(steps: seq<Step>): nat {
    if steps == [] then 0 else Waits(Front(steps)) + if Last(steps).WorkerWait? then 1 else 0
  }

  /** The result of the last write that has returned. */
  function LastResult(steps: seq<Step>): bool {
    if steps == [] then true
    else if Last(steps).WorkerWriteReturns? then Last(steps).ok
    else LastResult(Front(steps))
  }

  /** A write has failed since the error was last cleared. */
  function Failed(steps: seq<Step>): bool {
    if steps == [] then false
    else if Last(steps).WorkerWriteThrows? then true
    else if Last(steps).WorkerFinish? && !LastResult(Front(steps)) then true
    else if Last(steps).ClearError? then false
    else Failed(Front(steps))
  }

  /** The worker has been told to die since it was last begun. */
  function ToldToDie(steps: seq<Step>): bool {
    if steps == [] then false
    else if Last(steps).OwnerSetFlag? then true
    else if Last(steps).OwnerBegin? then false
    else ToldToDie(Front(steps))
  }

  ghost predicate Begun(steps: seq<Step>) { exists k :: 0 <= k < |steps| && steps[k].OwnerBegin? }

  lemma BegunMore(steps: seq<Step>)
    requires steps != []
    ensures Begun(steps) <==> Begun(Front(steps)) || Last(steps).OwnerBegin?
  {
    if k :| 0 <= k < |Front(steps)| && Front(steps)[k].OwnerBegin? {
      assert steps[k].OwnerBegin?;
    }
    if Last(steps).OwnerBegin? {
      assert steps[|steps| - 1].OwnerBegin?;
    }
    if k :| 0 <= k < |steps| && steps[k].OwnerBegin? {
      assert k < |Front(steps)| ==> Front(steps)[k] == steps[k];
    }
  }

  ghost predicate TellsList(s: State, steps: seq<Step>) {
    && s.pushed == Pushes(steps) && |s.written| == Successes(steps)
    && forall p :: p in s.producers && s.producers[p].Holding? ==> s.producers[p].stream == Brought(steps, p)
  }

  ghost predicate TellsSignals(s: State, steps: seq<Step>) {
    && s.semaphore + Waits(steps) == Posts(steps)
    && (s.error <==> Failed(steps)) && (s.threadShouldDie <==> ToldToDie(steps))
    && (s.worker.WantLock? || s.worker.Relocked? ==> s.worker.result == LastResult(steps))
    && (s.worker.Dead? ==> s.threadShouldDie || !Begun(steps))
  }

  lemma ListNext(s: State, steps: seq<Step>)
    requires steps != [] && TellsList(s, Front(steps)) && Enabled(s, Last(steps))
    ensures TellsList(Do(s, Last(steps)), steps)
  {
  }

  lemma SignalsNext(s: State, steps: seq<Step>)
    requires steps != [] && TellsSignals(s, Front(steps)) && Enabled(s, Last(steps))
    ensures TellsSignals(Do(s, Last(steps)), steps)
  {
    BegunMore(steps);
  }

  /**
   * In every interleaving, what was pushed are the streams that producers brought, in the order in which they were put on
   * the list; as many have been written as writes have succeeded, and they are the first of those; the semaphore holds
   * the posts that have not been waited for; the error is up exactly if a write has failed since it was cleared; and the
   * worker is to die exactly if it has been told so since it was begun, and has not died before.
   */
  lemma {:induction false} RunTells(steps: seq<Step>)
    requires LegalRun(Initial, steps)
    ensures var s := After(Initial, steps);
            && s.pushed == Pushes(steps) && |s.written| == Successes(steps) && s.written <= s.pushed
            && s.semaphore + Waits(steps) == Posts(steps)
            && (s.error <==> Failed(steps)) && (s.threadShouldDie <==> ToldToDie(steps))
            && (s.worker.Dead? ==> ToldToDie(steps) || !Begun(steps))
    ensures TellsList(After(Initial, steps), steps) && TellsSignals(After(Initial, steps), steps)
    decreases |steps|
  {
    if steps == [] {
    } else {
      AllButLast(Initial, steps);
      RunTells(Front(steps));
      ListNext(After(Initial, Front(steps)), steps);
      SignalsNext(After(Initial, Front(steps)), steps);
      Conservation(steps);
    }
  }

  // ------------------------------------------------------------------ stopping

  predicate WorkerStep(step: Step) {
    step.WorkerLock? || step.WorkerCheck? || step.WorkerWait? || step.WorkerWriteReturns? || step.WorkerWriteThrows?
    || step.WorkerRelock? || step.WorkerFinish?
  }

  function WorkerSteps(steps: seq<Step>): nat {
    if steps == [] then 0 else (if WorkerStep(steps[0]) then 1 else 0) + WorkerSteps(steps[1..])
  }

  ghost predicate NotBegunAgain(steps: seq<Step>) { forall k :: 0 <= k < |steps| ==> !steps[k].OwnerBegin? }

  /** How far a worker that is to die is from it. */
  function ToGo(w: Worker): nat {
    match w
    case Dead => 0
    case Checking => 1
    case Top => 2
    case AtSemaphore => 3
    case Relocked(_) => 3
    case WantLock(_) => 4
    case Writing(_) => 5
  }

  lemma StopStep(s: State, step: Step)
    requires s.threadShouldDie && Enabled(s, step) && !step.OwnerBegin?
    ensures var t := Do(s, step);
            && t.threadShouldDie && (t.worker.Writing? ==> t.worker == s.worker)
            && ToGo(t.worker) + (if WorkerStep(step) then 1 else 0) <= ToGo(s.worker)
            && |t.written| <= |s.written| + (if s.worker.Writing? && !t.worker.Writing? then 1 else 0)
  {
  }

  /**
   * A stop is obeyed. From any state in which the worker has been told to die, and until it is begun again, it begins no
   * write, so that it finishes at most the one it has in hand; and after five steps of its own it is dead, whatever its
   * writes come to, and whatever is on the list.
   */
  lemma {:induction false} StopObeyed(s: State, steps: seq<Step>)
    requires s.threadShouldDie && LegalRun(s, steps) && NotBegunAgain(steps)
    ensures var t := After(s, steps);
            && t.threadShouldDie && (t.worker.Writing? ==> t.worker == s.worker)
            && |t.written| <= |s.written| + (if s.worker.Writing? then 1 else 0)
            && WorkerSteps(steps) + ToGo(t.worker) <= ToGo(s.worker)
            && (WorkerSteps(steps) >= 5 ==> t.worker.Dead?)
    decreases |steps|
  {
    if steps == [] {
    } else {
      StopStep(s, steps[0]);
      StopObeyed(Do(s, steps[0]), steps[1..]);
    }
  }

  /** How far whoever holds the mutex is from letting go of it. */
  function ToRelease(s: State): nat {
    match s.mutex
    case Free => 0
    case ByWorker => 0
    case ByProducer(p) => if p in s.producers && s.producers[p].Holding? then 2 else 1
    case ByOwner => if s.owner.Locked? then 3 else if s.owner.FlagSet? then 2 else 1
  }

  function Distance(s: State): nat {
    10 * ToGo(s.worker) + 2 * ToRelease(s) + if s.semaphore == 0 then 1 else 0
  }

  /** Some action that completes what has been begun brings a worker that is to die nearer to it. */
  lemma NearerStep(s: State) returns (step: Step)
    requires Inv(s) && s.threadShouldDie && !s.worker.Dead?
    ensures Enabled(s, step) && Completes(step) && Distance(Do(s, step)) < Distance(s)
  {
    if s.mutex.ByProducer? {
      step := if s.producers[s.mutex.p].Holding? then ProducerPushBack(s.mutex.p) else ProducerUnlock(s.mutex.p);
    } else if s.mutex.ByWorker? {
      step := if s.worker.Checking? then WorkerCheck else WorkerFinish;
    } else if s.mutex.ByOwner? {
      step := if s.owner.Locked? then OwnerSetFlag else if s.owner.FlagSet? then OwnerPost else OwnerUnlock;
    } else if s.worker.Top? {
      step := WorkerLock;
    } else if s.worker.Writing? {
      step := WorkerWriteThrows;
    } else if s.worker.WantLock? {
      step := WorkerRelock;
    } else if s.semaphore > 0 {
      step := WorkerWait;
    } else {
      assert MidPush(s) != {};
      var p :| p in MidPush(s);
      step := ProducerPost(p);
    }
  }

  /** And so it can always be brought to die, without anybody entering or starting anything. */
  lemma {:induction false} CanDie(s: State) returns (steps: seq<Step>)
    requires Inv(s) && s.threadShouldDie
    ensures LegalRun(s, steps) && After(s, steps).worker.Dead? && forall k :: 0 <= k < |steps| ==> Completes(steps[k])
    decreases Distance(s)
  {
    if s.worker.Dead? {
      steps := [];
    } else {
      var step := NearerStep(s);
      StepKeeps(s, step);
      StopStep(s, step);
      var rest := CanDie(Do(s, step));
      steps := [step] + rest;
      assert steps[1..] == rest;
    }
  }

  /** In every run, a worker that has been told to die can be brought to, and then the owner's call returns. */
  lemma StopCanEnd(before: seq<Step>) returns (steps: seq<Step>)
    requires LegalRun(Initial, before) && After(Initial, before).threadShouldDie
    ensures LegalRun(After(Initial, before), steps) && forall k :: 0 <= k < |steps| ==> Completes(steps[k])
    ensures var t := After(After(Initial, before), steps); t.worker.Dead? && (t.owner.Joining? ==> Enabled(t, OwnerJoin))
  {
    InitialInv();
    RunKeeps(Initial, before);
    steps := CanDie(After(Initial, before));
  }

  // ------------------------------------------------------- calls on their own

  lemma Prepend(s: State, step: Step, rest: seq<Step>)
    requires Enabled(s, step) && LegalRun(Do(s, step), rest)
    ensures LegalRun(s, [step] + rest) && After(s, [step] + rest) == After(Do(s, step), rest)
  {
    assert ([step] + rest)[1..] == rest;
  }

  /** While nobody holds the mutex, anybody can push anything: it comes to lie at the end of the list, with its post. */
  lemma PushCompletes(s: State, p: nat, stream: Stream) returns (steps: seq<Step>)
    requires s.mutex.Free? && p !in s.producers
    ensures LegalRun(s, steps)
    ensures After(s, steps) ==
            s.(queue := s.queue + [stream], pushed := s.pushed + [stream], semaphore := s.semaphore + 1)
  {
    var s1 := Do(s, ProducerLock(p, stream));
    var s2 := Do(s1, ProducerPushBack(p));
    var s3 := Do(s2, ProducerUnlock(p));
    assert s3.producers - {p} == s.producers;
    Prepend(s3, ProducerPost(p), []);
    Prepend(s2, ProducerUnlock(p), [ProducerPost(p)] + []);
    Prepend(s1, ProducerPushBack(p), [ProducerUnlock(p)] + ([ProducerPost(p)] + []));
    steps := [ProducerPushBack(p)] + ([ProducerUnlock(p)] + ([ProducerPost(p)] + []));
    Prepend(s, ProducerLock(p, stream), steps);
    steps := [ProducerLock(p, stream)] + steps;
  }

  /**
   * A worker that looks at a list with something on it, and is not to die, writes the front and takes it off, or leaves
   * it there and raises the error when the write fails.
   */
  lemma WriteCompletes(s: State, ok: bool) returns (steps: seq<Step>)
    requires s.mutex.Free? && s.worker.Top? && s.queue != [] && !s.threadShouldDie
    ensures LegalRun(s, steps)
    ensures After(s, steps) == if ok then s.(queue := s.queue[1..], written := s.written + [s.queue[0]]) else s.(error := true)
  {
    var s1 := Do(s, WorkerLock);
    var s2 := Do(s1, WorkerCheck);
    var s3 := Do(s2, WorkerWriteReturns(ok));
    var s4 := Do(s3, WorkerRelock);
    Prepend(s4, WorkerFinish, []);
    Prepend(s3, WorkerRelock, [WorkerFinish] + []);
    Prepend(s2, WorkerWriteReturns(ok), [WorkerRelock] + ([WorkerFinish] + []));
    steps := [WorkerWriteReturns(ok)] + ([WorkerRelock] + ([WorkerFinish] + []));
    Prepend(s1, WorkerCheck, steps);
    steps := [WorkerCheck] + steps;
    Prepend(s, WorkerLock, steps);
    steps := [WorkerLock] + steps;
  }

  /** One that finds the list empty goes to the semaphore, and on from there when there is a post. */
  lemma WaitCompletes(s: State) returns (steps: seq<Step>)
    requires s.mutex.Free? && s.worker.Top? && s.queue == [] && !s.threadShouldDie && s.semaphore > 0
    ensures LegalRun(s, steps) && After(s, steps) == s.(semaphore := s.semaphore - 1)
  {
    var s1 := Do(s, WorkerLock);
    var s2 := Do(s1, WorkerCheck);
    Prepend(s2, WorkerWait, []);
    Prepend(s1, WorkerCheck, [WorkerWait] + []);
    Prepend(s, WorkerLock, [WorkerCheck] + ([WorkerWait] + []));
    steps := [WorkerLock] + ([WorkerCheck] + ([WorkerWait] + []));
  }

  /** While nobody holds the mutex, the owner can ask a live worker to stop, and begin a dead one. */
  lemma StopCompletes(s: State) returns (steps: seq<Step>)
    requires s.mutex.Free? && s.owner.Idle? && !s.worker.Dead?
    ensures LegalRun(s, steps)
    ensures After(s, steps) == s.(threadShouldDie := true, semaphore := s.semaphore + 1, owner := Joining)
  {
    var s1 := Do(s, OwnerStopLock);
    var s2 := Do(s1, OwnerSetFlag);
    var s3 := Do(s2, OwnerPost);
    Prepend(s3, OwnerUnlock, []);
    Prepend(s2, OwnerPost, [OwnerUnlock] + []);
    Prepend(s1, OwnerSetFlag, [OwnerPost] + ([OwnerUnlock] + []));
    steps := [OwnerSetFlag] + ([OwnerPost] + ([OwnerUnlock] + []));
    Prepend(s, OwnerStopLock, steps);
    steps := [OwnerStopLock] + steps;
  }

  lemma {:induction false} Joined(s: State, steps: seq<Step>, more: seq<Step>)
    requires LegalRun(s, steps) && LegalRun(After(s, steps), more)
    ensures LegalRun(s, steps + more) && After(s, steps + more) == After(After(s, steps), more)
    decreases |steps|
  {
    if steps == [] {
      assert steps + more == more;
    } else {
      Joined(Do(s, steps[0]), steps[1..], more);
      assert (steps + more)[1..] == steps[1..] + more;
    }
  }

  /**
   * From the beginning: the worker is begun, finds nothing and waits; a stream is pushed, which wakes it, and is written;
   * a stop is asked for, and the worker dies with nothing lost.
   */
  lemma WholeLife(p: nat, stream: Stream) returns (steps: seq<Step>)
    ensures LegalRun(Initial, steps)
    ensures var t := After(Initial, steps);
            t.worker.Dead? && t.owner.Joining? && t.written == t.pushed == [stream] && t.queue == [] && !t.error
  {
    steps := [OwnerBegin, WorkerLock, WorkerCheck];
    var begun := Do(Initial, OwnerBegin);
    Prepend(Do(begun, WorkerLock), WorkerCheck, []);
    Prepend(begun, WorkerLock, [WorkerCheck] + []);
    Prepend(Initial, OwnerBegin, [WorkerLock] + ([WorkerCheck] + []));
    assert steps == [OwnerBegin] + ([WorkerLock] + ([WorkerCheck] + []));
    var waiting := Initial.(worker := AtSemaphore);
    assert After(Initial, steps) == waiting;
    var push := PushCompletes(waiting, p, stream);
    Joined(Initial, steps, push);
    steps := steps + push;
    var there := waiting.(queue := [stream], pushed := [stream], semaphore := 1);
    assert After(Initial, steps) == there;
    Prepend(there, WorkerWait, []);
    Joined(Initial, steps, [WorkerWait] + []);
    steps := steps + ([WorkerWait] + []);
    var awake := there.(semaphore := 0, worker := Top);
    assert After(Initial, steps) == awake;
    var write := WriteCompletes(awake, true);
    Joined(Initial, steps, write);
    steps := steps + write;
    var done := awake.(queue := [], written := [stream]);
    assert After(Initial, steps) == done;
    var stop := StopCompletes(done);
    Joined(Initial, steps, stop);
    steps := steps + stop;
    var told := done.(threadShouldDie := true, semaphore := 1, owner := Joining);
    Prepend(Do(told, WorkerLock), WorkerCheck, []);
    Prepend(told, WorkerLock, [WorkerCheck] + []);
    Joined(Initial, steps, [WorkerLock] + ([WorkerCheck] + []));
    steps := steps + ([WorkerLock] + ([WorkerCheck] + []));
  }
}
