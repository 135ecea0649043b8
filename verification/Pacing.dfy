/** The loop counter that paces the scheduled-routine pass. */
module Pacing {

  const SERVER_CORE_FREQUENCY_MS: nat := 5
  const PASSES: nat := 1000 / SERVER_CORE_FREQUENCY_MS

  /** The static counter of the master loop. */
  class Core {
    var iterCounter: nat

    constructor ()
      ensures iterCounter == 0
    {
      iterCounter := 0;
    }

    /** The tail of one pass: every so often the routines are looked at and the counter starts over. */
    method Tick() returns (due: bool)
      requires iterCounter <= PASSES
      modifies this
      ensures due == (old(iterCounter) == PASSES)
      ensures iterCounter == (if due then 0 else old(iterCounter) + 1) <= PASSES
    {
      due := iterCounter == PASSES;
      if due {
        iterCounter := 0;
      } else {
        iterCounter := iterCounter + 1;
      }
    }
  }

  /** Milliseconds gone by after the first n passes. */
  function Elapsed(start: nat, passes: seq<nat>, n: nat): nat
    requires n <= |passes|
  {
    if n == 0 then start else Elapsed(start, passes, n - 1) + passes[n - 1]
  }

  lemma {:induction false} ElapsedAtLeast(start: nat, passes: seq<nat>, a: nat, b: nat)
    requires a <= b <= |passes| && forall k :: 0 <= k < |passes| ==> passes[k] >= SERVER_CORE_FREQUENCY_MS
    ensures Elapsed(start, passes, b) >= Elapsed(start, passes, a) + SERVER_CORE_FREQUENCY_MS * (b - a)
    decreases b
  {
    if a == b {
    } else {
      ElapsedAtLeast(start, passes, a, b - 1);
    }
  }

  /** The pass in which the k-th call falls. */
  function CallPass(k: nat): nat { 201 * k + 200 }

  /** What time() returns at a moment given in milliseconds. */
  function Seconds(ms: nat): nat { ms / 1000 }

  /**
   * Any number of passes, each taking some time and at least its sleep. The routines are looked at in every 201st
   * pass and in no other.
   */
  method RunLoop(start: nat, passes: seq<nat>) returns (calls: seq<nat>)
    ensures |calls| == |passes| / 201
    ensures forall k :: 0 <= k < |calls| ==> CallPass(k) < |passes| && calls[k] == Elapsed(start, passes, CallPass(k))
  {
    var core := new Core();
    assert PASSES == 200;
    calls := [];
    var now := start;
    for i := 0 to |passes|
      invariant now == Elapsed(start, passes, i)
      invariant core.iterCounter <= 200 && 201 * |calls| + core.iterCounter == i
      invariant fresh(core)
      invariant forall k :: 0 <= k < |calls| ==> CallPass(k) < i && calls[k] == Elapsed(start, passes, CallPass(k))
    {
      var due := core.Tick();
      if due {
        calls := calls + [now];
      }
      now := now + passes[i];
    }
  }

  /**
   * Consecutive calls are at least 1005 milliseconds apart, so their times in whole seconds strictly increase over
   * the whole run and no second is looked at twice.
   */
  lemma SecondsIncrease(start: nat, passes: seq<nat>, j: nat, k: nat)
    requires forall i :: 0 <= i < |passes| ==> passes[i] >= SERVER_CORE_FREQUENCY_MS
    requires j < k && CallPass(k) < |passes|
    ensures Elapsed(start, passes, CallPass(k)) >= Elapsed(start, passes, CallPass(j)) + 1005 * (k - j)
    ensures Seconds(Elapsed(start, passes, CallPass(j))) < Seconds(Elapsed(start, passes, CallPass(k)))
  {
    ElapsedAtLeast(start, passes, CallPass(j), CallPass(k));
    assert CallPass(k) - CallPass(j) == 201 * (k - j);
  }

  /** The bound is met: with the shortest sleeps two calls are exactly 1005 milliseconds apart. */
  lemma {:induction false} ShortestGap(start: nat, passes: seq<nat>, j: nat)
    requires CallPass(j + 1) < |passes|
    requires forall i :: 0 <= i < |passes| ==> passes[i] == SERVER_CORE_FREQUENCY_MS
    ensures Elapsed(start, passes, CallPass(j + 1)) == Elapsed(start, passes, CallPass(j)) + 1005
  {
    ElapsedExactly(start, passes, CallPass(j), CallPass(j + 1));
  }

  lemma {:induction false} ElapsedExactly(start: nat, passes: seq<nat>, a: nat, b: nat)
    requires a <= b <= |passes| && forall k :: 0 <= k < |passes| ==> passes[k] == SERVER_CORE_FREQUENCY_MS
    ensures Elapsed(start, passes, b) == Elapsed(start, passes, a) + SERVER_CORE_FREQUENCY_MS * (b - a)
    decreases b
  {
    if a == b {
    } else {
      ElapsedExactly(start, passes, a, b - 1);
    }
  }
}
