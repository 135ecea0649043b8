/** What a run has made of a ConationQueue, told by its steps alone. */
module ConationQueueHistories {
  import opened Bytes
  import opened ConationQueue

  function Front(steps: seq<Step>): seq<Step>
    requires steps != []
  {
    steps[..|steps| - 1]
  }

  function Last(steps: seq<Step>): Step
    requires steps != []
  {
    steps[|steps| - 1]
  }

  /** All but the last step of a run are a run, behind which the last can be done. */
  lemma {:induction false} AllButLast(s: State, steps: seq<Step>)
    requires steps != [] && LegalRun(s, steps)
    ensures LegalRun(s, Front(steps)) && Enabled(After(s, Front(steps)), Last(steps))
    ensures After(s, steps) == Do(After(s, Front(steps)), Last(steps))
    decreases |steps|
  {
    if |steps| == 1 {
    } else {
      AllButLast(Do(s, steps[0]), steps[1..]);
      assert Front(steps[1..]) == Front(steps)[1..];
    }
  }

  /** The stream with which a thread last entered Push, and whether it last entered Pop to take something out. */
  function Brought(steps: seq<Step>, t: nat): Stream {
    if steps == [] then []
    else if Last(steps).PushLock? && Last(steps).t == t then Last(steps).s
    else Brought(Front(steps), t)
  }

  function MeansToTake(steps: seq<Step>, t: nat): bool {
    if steps == [] then false
    else if Last(steps).PopLock? && Last(steps).t == t then Last(steps).actuallyPop
    else MeansToTake(Front(steps), t)
  }

  /** The streams that pushes have queued, each the one it entered with. */
  function Pushes(steps: seq<Step>): seq<Stream> {
    if steps == [] then []
    else if Last(steps).PushAdd? then Pushes(Front(steps)) + [Brought(Front(steps), Last(steps).t)]
    else Pushes(Front(steps))
  }

  /** The last step is that of a WaitPop, or of a Pop that means to take something out. */
  predicate TakesOut(steps: seq<Step>)
    requires steps != []
  {
    Last(steps).Take? || (Last(steps).PopReturn? && MeansToTake(Front(steps), Last(steps).t))
  }

  /** The streams handed out: one by every such step that finds more pushed than has been handed out before it. */
  function Deliveries(steps: seq<Step>): nat {
    if steps == [] then 0
    else
      var before := Deliveries(Front(steps));
      before + if TakesOut(steps) && |Pushes(Front(steps))| > before then 1 else 0
  }

  /** Those handed out by Pop. */
  function Takings(steps: seq<Step>): nat {
    if steps == [] then 0
    else
      Takings(Front(steps))
      + if TakesOut(steps) && Last(steps).PopReturn? && |Pushes(Front(steps))| > Deliveries(Front(steps)) then 1 else 0
  }

  /** A WaitPop has found that everything pushed had been handed out. */
  function Starvation(steps: seq<Step>): bool {
    if steps == [] then false
    else Starvation(Front(steps)) || (Last(steps).Take? && |Pushes(Front(steps))| == Deliveries(Front(steps)))
  }

  function Posts(steps: seq<Step>): nat {
    if steps == [] then 0 else Posts(Front(steps)) + if Last(steps).PushPost? then 1 else 0
  }

  function Wakes(steps: seq<Step>): nat {
    if steps == [] then 0 else Wakes(Front(steps)) + if Last(steps).WaitWake? then 1 else 0
  }

  ghost predicate Tells(s: State, steps: seq<Step>) {
    && s.pushed == Pushes(steps) && |s.delivered| == Deliveries(steps) && s.taken == Takings(steps)
    && (s.starved <==> Starvation(steps)) && s.semaphore + Wakes(steps) == Posts(steps)
    && (forall t :: t in s.threads && s.threads[t].PushHolding? ==> s.threads[t].stream == Brought(steps, t))
    && (forall t :: t in s.threads && s.threads[t].PopHolding? ==> s.threads[t].actuallyPop == MeansToTake(steps, t))
  }

  lemma TellsNext(s: State, steps: seq<Step>)
    requires steps != [] && Inv(s) && Tells(s, Front(steps)) && Enabled(s, Last(steps))
    ensures Tells(Do(s, Last(steps)), steps)
  {
    assert |s.pushed| == |s.delivered| + |s.queue|;
  }

  lemma {:induction false} TellsAlways(steps: seq<Step>)
    requires LegalRun(Initial, steps)
    ensures Inv(After(Initial, steps)) && Tells(After(Initial, steps), steps)
    decreases |steps|
  {
    if steps == [] {
      assert Past(Initial) == {};
    } else {
      AllButLast(Initial, steps);
      TellsAlways(Front(steps));
      TellsNext(After(Initial, Front(steps)), steps);
      StepKeeps(After(Initial, Front(steps)), Last(steps));
    }
  }

  /** What the state is, told by the steps. */
  ghost predicate AsTold(s: State, steps: seq<Step>) {
    var all, n := Pushes(steps), Deliveries(steps);
    && s.pushed == all && n <= |all| && s.delivered == all[..n] && s.queue == all[n..]
    && s.taken == Takings(steps) && (s.starved <==> Starvation(steps)) && s.semaphore + Wakes(steps) == Posts(steps)
  }

  lemma HoldsOut(s: State, steps: seq<Step>)
    requires Tells(s, steps) && s.pushed == s.delivered + s.queue
    ensures AsTold(s, steps)
  {
  }

  /**
   * In every run the streams handed out are the first of those pushed, as many as there were WaitPops and destructive
   * Pops that found one, and the queue holds the others; `taken` counts the Pops among them; a waiter has starved exactly
   * if a WaitPop found none; and the semaphore holds the posts that have not been waited for.
   */
  lemma RunTells(steps: seq<Step>)
    requires LegalRun(Initial, steps)
    ensures AsTold(After(Initial, steps), steps)
  {
    TellsAlways(steps);
    HoldsOut(After(Initial, steps), steps);
  }

  // ------------------------------------------------------------- a run that starves

  lemma Prepend(s: State, step: Step, rest: seq<Step>)
    requires Enabled(s, step) && LegalRun(Do(s, step), rest)
    ensures LegalRun(s, [step] + rest) && After(s, [step] + rest) == After(Do(s, step), rest)
  {
    assert ([step] + rest)[1..] == rest;
  }

  /** A stream is pushed, and taken out by a Pop: behind that a WaitPop alone can come upon an empty queue. */
  lemma PopThenStarve(a: Stream) returns (steps: seq<Step>)
    ensures LegalRun(Initial, steps) && Takings(steps) == 1
    ensures var s := After(Initial, steps);
            Quiescent(s) && s.taken == 1 && s.delivered == [a] && s.queue == [] && !s.starved && CanStarve(s)
  {
    var s1 := Initial.(mutex := By(0), threads := map[0 := PushHolding(a)]);
    var s2 := s1.(queue := [a], pushed := [a], threads := map[0 := PushAdded]);
    var s3 := s2.(semaphore := 1, threads := map[0 := PushPosted]);
    var s4 := s3.(mutex := Free, threads := map[]);
    var s5 := s4.(mutex := By(1), threads := map[1 := PopHolding(true)]);
    var s6 := s4.(queue := [], delivered := [a], taken := 1);
    assert Do(Initial, PushLock(0, a)) == s1 && Do(s1, PushAdd(0)) == s2 && Do(s2, PushPost(0)) == s3;
    assert Do(s3, PushUnlock(0)) == s4 && Do(s4, PopLock(1, true)) == s5 && Do(s5, PopReturn(1)) == s6;
    steps := [];
    Prepend(s5, PopReturn(1), steps);
    steps := [PopReturn(1)] + steps;
    Prepend(s4, PopLock(1, true), steps);
    steps := [PopLock(1, true)] + steps;
    Prepend(s3, PushUnlock(0), steps);
    steps := [PushUnlock(0)] + steps;
    Prepend(s2, PushPost(0), steps);
    steps := [PushPost(0)] + steps;
    Prepend(s1, PushAdd(0), steps);
    steps := [PushAdd(0)] + steps;
    Prepend(Initial, PushLock(0, a), steps);
    steps := [PushLock(0, a)] + steps;
    RunTells(steps);
    StarvationExactly(steps);
  }

  // ------------------------------------------------------- calls on their own

  /** While nobody holds the mutex, a thread that is in no call can push anything: it lies at the end, with its post. */
  lemma PushCompletes(s: State, t: nat, stream: Stream) returns (steps: seq<Step>)
    requires s.mutex.Free? && t !in s.threads
    ensures LegalRun(s, steps)
    ensures After(s, steps) == s.(queue := s.queue + [stream], pushed := s.pushed + [stream], semaphore := s.semaphore + 1)
  {
    var s1 := Do(s, PushLock(t, stream));
    var s2 := Do(s1, PushAdd(t));
    var s3 := Do(s2, PushPost(t));
    assert s3.threads - {t} == s.threads;
    Prepend(s3, PushUnlock(t), []);
    Prepend(s2, PushPost(t), [PushUnlock(t)] + []);
    Prepend(s1, PushAdd(t), [PushPost(t)] + ([PushUnlock(t)] + []));
    steps := [PushAdd(t)] + ([PushPost(t)] + ([PushUnlock(t)] + []));
    Prepend(s, PushLock(t, stream), steps);
    steps := [PushLock(t, stream)] + steps;
  }

  /** A Pop hands out the front, and takes it out of the queue if it means to; it leaves the semaphore alone. */
  lemma PopCompletes(s: State, t: nat, actuallyPop: bool) returns (steps: seq<Step>)
    requires s.mutex.Free? && t !in s.threads
    ensures LegalRun(s, steps)
    ensures After(s, steps) ==
            if s.queue == [] || !actuallyPop then s
            else s.(queue := s.queue[1..], delivered := s.delivered + [s.queue[0]], taken := s.taken + 1)
  {
    var s1 := Do(s, PopLock(t, actuallyPop));
    assert s1.threads - {t} == s.threads;
    Prepend(s1, PopReturn(t), []);
    Prepend(s, PopLock(t, actuallyPop), [PopReturn(t)] + []);
    steps := [PopLock(t, actuallyPop)] + ([PopReturn(t)] + []);
  }

  /** A WaitPop for which there is a post takes it, and the front with it. */
  lemma WaitPopCompletes(s: State, t: nat) returns (steps: seq<Step>)
    requires s.mutex.Free? && t !in s.threads && s.semaphore > 0 && s.queue != []
    ensures LegalRun(s, steps)
    ensures After(s, steps) ==
            s.(semaphore := s.semaphore - 1, queue := s.queue[1..], delivered := s.delivered + [s.queue[0]])
  {
    var s1 := Do(s, WaitEnter(t));
    var s2 := Do(s1, WaitWake(t));
    var s3 := Do(s2, TakeLock(t));
    assert s3.threads - {t} == s.threads;
    Prepend(s3, Take(t), []);
    Prepend(s2, TakeLock(t), [Take(t)] + []);
    Prepend(s1, WaitWake(t), [TakeLock(t)] + ([Take(t)] + []));
    steps := [WaitWake(t)] + ([TakeLock(t)] + ([Take(t)] + []));
    Prepend(s, WaitEnter(t), steps);
    steps := [WaitEnter(t)] + steps;
  }

  lemma {:induction false} Joined(s: State, steps: seq<Step>, more: seq<Step>)
    requires LegalRun(s, steps) && LegalRun(After(s, steps), more)
    ensures LegalRun(s, steps + more) && After(s, steps + more) == After(After(s, steps), more)
    decreases |steps|
  {
    if steps == [] {
      assert steps + more == more;
    } else {
      Joined(Do(s, steps[0]), steps[1..], more);
      assert (steps + more)[1..] == steps[1..] + more;
    }
  }

  /** A WaitPop that is blocked on an empty queue is woken by a push, and hands out what was pushed. */
  lemma WokenByPush(s: State, t: nat, u: nat, stream: Stream) returns (steps: seq<Step>)
    requires s.mutex.Free? && t !in s.threads && u !in s.threads && t != u && s.semaphore == 0 && s.queue == []
    ensures LegalRun(s, steps) && steps != [] && steps[0] == WaitEnter(t)
    ensures After(s, steps) == s.(pushed := s.pushed + [stream], delivered := s.delivered + [stream])
  {
    var blocked := Do(s, WaitEnter(t));
    var push := PushCompletes(blocked, u, stream);
    var there := After(blocked, push);
    var s2 := Do(there, WaitWake(t));
    var s3 := Do(s2, TakeLock(t));
    assert s3.threads - {t} == s.threads;
    Prepend(s3, Take(t), []);
    Prepend(s2, TakeLock(t), [Take(t)] + []);
    Prepend(there, WaitWake(t), [TakeLock(t)] + ([Take(t)] + []));
    Joined(blocked, push, [WaitWake(t)] + ([TakeLock(t)] + ([Take(t)] + [])));
    steps := push + ([WaitWake(t)] + ([TakeLock(t)] + ([Take(t)] + [])));
    Prepend(s, WaitEnter(t), steps);
    steps := [WaitEnter(t)] + steps;
  }
}
