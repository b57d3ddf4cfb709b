/**
 * The run loop of the event processor as a function of its environment.
 *
 * The loop body calls the polling backend once; what each call returns, and
 * whether the pid map is empty when the loop condition reads it, are given
 * per iteration as a Tick. The loop keeps an idle counter, reset by an
 * iteration that dispatched events and incremented (as a Java int) by one
 * that did not, and after every body it executes
 * `isRunning.compareAndSet(mapEmpty && idleCount > LINGER_ITERATIONS, false)`,
 * leaving the loop when that succeeds, i.e. when the gate equals the stop
 * condition.
 */
module RunLoop {
  import opened JavaInt

  /**
   * What one call of `process()` did: dispatched events, found none, threw
   * an Exception (caught by run()), or threw an Error (which run() does not
   * catch).
   */
  datatype Poll = Dispatched | Idle | Failed | Fatal {
    /** The call returned normally. */
    predicate Returned() {
      Dispatched? || Idle?
    }
  }

  /** The environment of one iteration. */
  datatype Tick = Tick(poll: Poll, registryEmpty: bool)

  /**
   * How a run ends: the start rendezvous failed before the loop; `process()`
   * threw an Exception in iteration `iterations`, or an Error, which leaves
   * run() without clearing the gate; the compare-and-set after iteration
   * `iterations` succeeded; or the environment ran out while the loop was
   * still going, after `iterations` iterations with the given idle counter.
   */
  datatype Outcome =
    | BarrierBroken
    | Crashed(iterations: nat)
    | Aborted(iterations: nat)
    | Stopped(iterations: nat)
    | Unfinished(iterations: nat, idleCount: int)

  /** The idle counter after an iteration whose backend call returned `poll`. */
  function NextIdle(idleCount: int, poll: Poll): (r: int)
    requires IsInt(idleCount)
    ensures IsInt(r)
  {
    if poll == Dispatched then 0 else Inc(idleCount)
  }

  /** The idle counter after the first k iterations. */
  function IdleCount(ticks: seq<Tick>, k: nat): (c: int)
    requires k <= |ticks|
    ensures IsInt(c)
  {
    if k == 0 then 0 else NextIdle(IdleCount(ticks, k - 1), ticks[k - 1].poll)
  }

  /** The stop condition read after iteration k (0-based): empty map and more than `lingerIterations` idle polls. */
  predicate StopCondition(lingerIterations: int, ticks: seq<Tick>, k: nat)
    requires k < |ticks|
  {
    ticks[k].registryEmpty && IdleCount(ticks, k + 1) > lingerIterations
  }

  /** Iteration k neither throws nor ends the loop. */
  predicate Continues(gate: bool, lingerIterations: int, ticks: seq<Tick>, k: nat)
    requires k < |ticks|
  {
    ticks[k].poll.Returned() && StopCondition(lingerIterations, ticks, k) != gate
  }

  /** The do-while loop from iteration i on, with idle counter `idle`; the gate holds `gate` throughout. */
  function RunFrom(gate: bool, lingerIterations: int, ticks: seq<Tick>, i: nat, idle: int): (r: Outcome)
    requires i <= |ticks| && IsInt(idle)
    ensures !r.BarrierBroken?
    ensures r.Crashed? || r.Aborted? || r.Stopped? ==> i < r.iterations <= |ticks|
    ensures r.Unfinished? ==> r.iterations == |ticks|
    decreases |ticks| - i
  {
    if i == |ticks| then Unfinished(i, idle)
    else if ticks[i].poll == Failed then Crashed(i + 1)
    else if ticks[i].poll == Fatal then Aborted(i + 1)
    else
      var c := NextIdle(idle, ticks[i].poll);
      if gate == (ticks[i].registryEmpty && c > lingerIterations) then Stopped(i + 1)
      else RunFrom(gate, lingerIterations, ticks, i + 1, c)
  }

  /** The whole of run(): the start rendezvous, then the loop from a zero idle counter. */
  function Run(gate: bool, lingerIterations: int, barrierBroken: bool, ticks: seq<Tick>): (r: Outcome)
    ensures r.BarrierBroken? <==> barrierBroken
    ensures r.Crashed? || r.Aborted? || r.Stopped? ==> 1 <= r.iterations <= |ticks|
    ensures r.Unfinished? ==> r.iterations == |ticks|
  {
    if barrierBroken then BarrierBroken else RunFrom(gate, lingerIterations, ticks, 0, 0)
  }

  /**
   * The gate after run(): cleared on every exit that reaches `set(false)`;
   * untouched while the loop is still going or after an Error escapes.
   */
  function GateAfter(gate: bool, outcome: Outcome): (g: bool)
    ensures g ==> gate
    ensures !(outcome.Unfinished? || outcome.Aborted?) ==> !g
    ensures outcome.Unfinished? || outcome.Aborted? ==> g == gate
  {
    (outcome.Unfinished? || outcome.Aborted?) && gate
  }

  /** How each outcome of the loop from iteration i on comes about, in both directions. */
  lemma {:induction false} RunFromCharacterised(gate: bool, lingerIterations: int, ticks: seq<Tick>, i: nat, n: nat, c: int)
    requires i <= |ticks|
    ensures RunFrom(gate, lingerIterations, ticks, i, IdleCount(ticks, i)) == Stopped(n) <==>
      i < n <= |ticks| && (forall j :: i <= j < n - 1 ==> Continues(gate, lingerIterations, ticks, j)) &&
      ticks[n - 1].poll.Returned() && StopCondition(lingerIterations, ticks, n - 1) == gate
    ensures RunFrom(gate, lingerIterations, ticks, i, IdleCount(ticks, i)) == Crashed(n) <==>
      i < n <= |ticks| && (forall j :: i <= j < n - 1 ==> Continues(gate, lingerIterations, ticks, j)) &&
      ticks[n - 1].poll == Failed
    ensures RunFrom(gate, lingerIterations, ticks, i, IdleCount(ticks, i)) == Aborted(n) <==>
      i < n <= |ticks| && (forall j :: i <= j < n - 1 ==> Continues(gate, lingerIterations, ticks, j)) &&
      ticks[n - 1].poll == Fatal
    ensures RunFrom(gate, lingerIterations, ticks, i, IdleCount(ticks, i)) == Unfinished(n, c) <==>
      n == |ticks| && (forall j :: i <= j < |ticks| ==> Continues(gate, lingerIterations, ticks, j)) &&
      c == IdleCount(ticks, |ticks|)
    decreases |ticks| - i
  {
    if i < |ticks| && Continues(gate, lingerIterations, ticks, i) {
      RunFromCharacterised(gate, lingerIterations, ticks, i + 1, n, c);
    }
  }

  /**
   * The loop stops after iteration n exactly when n is the first iteration
   * whose stop condition equals the gate, and no earlier iteration threw.
   */
  lemma StoppedWhen(gate: bool, lingerIterations: int, ticks: seq<Tick>, n: nat)
    ensures Run(gate, lingerIterations, false, ticks) == Stopped(n) <==>
      1 <= n <= |ticks| && (forall j :: 0 <= j < n - 1 ==> Continues(gate, lingerIterations, ticks, j)) &&
      ticks[n - 1].poll.Returned() && StopCondition(lingerIterations, ticks, n - 1) == gate
  {
    RunFromCharacterised(gate, lingerIterations, ticks, 0, n, 0);
  }

  /** An Exception from `process()` ends the run in the iteration where it happens. */
  lemma CrashedWhen(gate: bool, lingerIterations: int, ticks: seq<Tick>, n: nat)
    ensures Run(gate, lingerIterations, false, ticks) == Crashed(n) <==>
      1 <= n <= |ticks| && (forall j :: 0 <= j < n - 1 ==> Continues(gate, lingerIterations, ticks, j)) &&
      ticks[n - 1].poll == Failed
  {
    RunFromCharacterised(gate, lingerIterations, ticks, 0, n, 0);
  }

  /** An Error from `process()` ends the run in the iteration where it happens. */
  lemma AbortedWhen(gate: bool, lingerIterations: int, ticks: seq<Tick>, n: nat)
    ensures Run(gate, lingerIterations, false, ticks) == Aborted(n) <==>
      1 <= n <= |ticks| && (forall j :: 0 <= j < n - 1 ==> Continues(gate, lingerIterations, ticks, j)) &&
      ticks[n - 1].poll == Fatal
  {
    RunFromCharacterised(gate, lingerIterations, ticks, 0, n, 0);
  }

  /** The loop is still going when the environment runs out exactly when every iteration continued. */
  lemma UnfinishedWhen(gate: bool, lingerIterations: int, ticks: seq<Tick>, n: nat, c: int)
    ensures Run(gate, lingerIterations, false, ticks) == Unfinished(n, c) <==>
      n == |ticks| && (forall j :: 0 <= j < |ticks| ==> Continues(gate, lingerIterations, ticks, j)) &&
      c == IdleCount(ticks, |ticks|)
  {
    RunFromCharacterised(gate, lingerIterations, ticks, 0, n, c);
  }

  /**
   * The idle counter after k iterations is the length of the run of
   * non-dispatching polls that ends at iteration k (while that cannot
   * overflow).
   */
  lemma {:induction false} IdleCountIsIdleRun(ticks: seq<Tick>, k: nat)
    requires k <= |ticks| && k <= INT_MAX
    ensures var c := IdleCount(ticks, k);
      0 <= c <= k &&
      (forall m :: k - c <= m < k ==> ticks[m].poll != Dispatched) &&
      (c < k ==> ticks[k - c - 1].poll == Dispatched)
  {
    if k > 0 {
      IdleCountIsIdleRun(ticks, k - 1);
    }
  }

  /**
   * Whenever the idle counter is non-negative, even after wrapping, it is at
   * most the length of the run of non-dispatching polls that ends at
   * iteration k.
   */
  lemma {:induction false} NonNegativeIdleCountIsIdleRun(ticks: seq<Tick>, k: nat)
    requires k <= |ticks|
    ensures var c := IdleCount(ticks, k);
      0 <= c ==> c <= k && forall m :: k - c <= m < k ==> ticks[m].poll != Dispatched
  {
    if k > 0 {
      NonNegativeIdleCountIsIdleRun(ticks, k - 1);
    }
  }

  /**
   * With the gate set, a natural stop needs an empty map and more than
   * `lingerIterations` non-dispatching polls in a row just before it.
   */
  lemma StopNeedsIdleEmptyRegistry(lingerIterations: int, ticks: seq<Tick>, n: nat)
    requires 0 <= lingerIterations
    requires Run(true, lingerIterations, false, ticks) == Stopped(n)
    ensures 1 <= n <= |ticks| && ticks[n - 1].registryEmpty
    ensures lingerIterations < n
    ensures forall m :: n - 1 - lingerIterations <= m < n ==> ticks[m].poll != Dispatched
  {
    StoppedWhen(true, lingerIterations, ticks, n);
    NonNegativeIdleCountIsIdleRun(ticks, n);
  }

  /** With the gate set, no natural stop happens while the map stays non-empty. */
  lemma BusyRegistryKeepsRunning(lingerIterations: int, ticks: seq<Tick>, m: nat)
    requires m <= |ticks| && forall j :: 0 <= j < m ==> !ticks[j].registryEmpty
    ensures var r := Run(true, lingerIterations, false, ticks);
      r.Stopped? ==> r.iterations > m
  {
    var r := Run(true, lingerIterations, false, ticks);
    if r.Stopped? {
      StoppedWhen(true, lingerIterations, ticks, r.iterations);
    }
  }

  /** Idle counter after k all-idle, non-failing iterations is k. */
  lemma {:induction false} IdleCountOfIdleTicks(ticks: seq<Tick>, k: nat)
    requires k <= |ticks| && k <= INT_MAX
    requires forall j :: 0 <= j < k ==> ticks[j].poll == Idle
    ensures IdleCount(ticks, k) == k
  {
    if k > 0 {
      IdleCountOfIdleTicks(ticks, k - 1);
    }
  }

  /**
   * With the gate set, an empty map and every poll idle, the loop runs
   * exactly lingerIterations + 1 iterations.
   */
  lemma IdleProcessorLingers(lingerIterations: int, ticks: seq<Tick>)
    requires 0 <= lingerIterations < INT_MAX && lingerIterations < |ticks|
    requires forall j :: 0 <= j < |ticks| ==> ticks[j] == Tick(Idle, true)
    ensures Run(true, lingerIterations, false, ticks) == Stopped(lingerIterations + 1)
  {
    forall j | 0 <= j < lingerIterations
      ensures Continues(true, lingerIterations, ticks, j)
    {
      IdleCountOfIdleTicks(ticks, j + 1);
    }
    IdleCountOfIdleTicks(ticks, lingerIterations + 1);
    StoppedWhen(true, lingerIterations, ticks, lingerIterations + 1);
  }

  /**
   * With the gate already clear, compareAndSet(false, false) succeeds on the
   * first iteration: since lingerIterations >= 1 the stop condition cannot hold
   * yet, so the loop leaves after one body.
   */
  lemma ClearedGateRunsOnce(lingerIterations: int, ticks: seq<Tick>)
    requires lingerIterations >= 1 && |ticks| >= 1
    ensures Run(false, lingerIterations, false, ticks) ==
      match ticks[0].poll
      case Failed => Crashed(1)
      case Fatal => Aborted(1)
      case _ => Stopped(1)
  {
  }
}
