/**
 * BaseEventProcessor: the registry maps, the running gate, and the run loop
 * over the environment a polling backend and the spawning threads present.
 */
module Processor {
  import opened Wrappers
  import opened JavaInt
  import opened Config
  import opened Atomic
  import opened RunLoop

  /** One processor; T stands for the process handle type. */
  class EventProcessor<T> {
    /** The static constants, resolved once per JVM from the system properties. */
    const settings: Settings
    ghost const overrides: Overrides
    var pidToProcessMap: map<int, T>
    var fildesToProcessMap: map<int, T>
    const isRunning: AtomicBoolean

    /** The constants are those the static initialiser resolves from some valid overrides. */
    ghost predicate Valid() {
      overrides.Valid() && settings == Resolve(overrides)
    }

    /** A new processor: both maps empty, gate clear. */
    constructor (overrides: Overrides)
      requires overrides.Valid()
      ensures Valid() && this.overrides == overrides
      ensures pidToProcessMap == map[] && fildesToProcessMap == map[]
      ensures fresh(isRunning) && !isRunning.value
    {
      this.overrides := overrides;
      settings := Resolve(overrides);
      pidToProcessMap := map[];
      fildesToProcessMap := map[];
      isRunning := new AtomicBoolean();
    }

    /** Claim the processor: wins iff the gate was clear; the gate is set afterwards either way. */
    method CheckAndSetRunning() returns (won: bool)
      modifies isRunning
      ensures won <==> !old(isRunning.value)
      ensures isRunning.value
    {
      won := isRunning.CompareAndSet(false, true);
    }

    /**
     * run(): the start rendezvous (which may fail), then the do-while loop
     * over `ticks`, one per iteration. Returns how the run ended; the gate
     * is clear after every exit that reaches `set(false)`, and unchanged
     * after an Error or if the environment ran out first.
     */
    method Run(barrierBroken: bool, ticks: seq<Tick>) returns (outcome: Outcome)
      modifies isRunning
      ensures outcome == RunLoop.Run(old(isRunning.value), settings.lingerIterations, barrierBroken, ticks)
      ensures isRunning.value == GateAfter(old(isRunning.value), outcome)
    {
      if barrierBroken {
        isRunning.Set(false);
        return BarrierBroken;
      }
      ghost var gate := isRunning.value;
      var lingerIterations := settings.lingerIterations;
      var idleCount := 0;
      var i := 0;
      while i < |ticks|
        invariant i <= |ticks| && IsInt(idleCount)
        invariant isRunning.value == gate
        invariant RunFrom(gate, lingerIterations, ticks, i, idleCount) == RunFrom(gate, lingerIterations, ticks, 0, 0)
      {
        var tick := ticks[i];
        if tick.poll == Failed {
          isRunning.Set(false);
          return Crashed(i + 1);
        }
        if tick.poll == Fatal {
          return Aborted(i + 1);
        }
        if tick.poll == Dispatched {
          idleCount := 0;
        } else {
          idleCount := Inc(idleCount);
        }
        i := i + 1;
        var stop := isRunning.CompareAndSet(tick.registryEmpty && idleCount > lingerIterations, false);
        if stop {
          isRunning.Set(false);
          return Stopped(i);
        }
      }
      return Unfinished(i, idleCount);
    }
  }

  /** With the resolved constants, a processor whose gate is clear leaves its loop after the first iteration. */
  lemma ClearedGateRunsOnceResolved(overrides: Overrides, ticks: seq<Tick>)
    requires overrides.Valid() && |ticks| >= 1
    ensures var r := RunLoop.Run(false, Resolve(overrides).lingerIterations, false, ticks);
      r == Crashed(1) || r == Aborted(1) || r == Stopped(1)
  {
    ClearedGateRunsOnce(Resolve(overrides).lingerIterations, ticks);
  }

  /** With the resolved constants, an idle processor with no processes runs LINGER_ITERATIONS + 1 iterations. */
  lemma IdleProcessorLingersResolved(overrides: Overrides, ticks: seq<Tick>)
    requires overrides.Valid()
    requires Resolve(overrides).lingerIterations < |ticks|
    requires forall j :: 0 <= j < |ticks| ==> ticks[j] == Tick(Idle, true)
    ensures RunLoop.Run(true, Resolve(overrides).lingerIterations, false, ticks) ==
      Stopped(Resolve(overrides).lingerIterations + 1)
  {
    var s := Resolve(overrides);
    IterationsBounded(overrides);
    SettingsAreInts(overrides);
    IdleProcessorLingers(s.lingerIterations, ticks);
  }

  /** Linger 1000 ms, poll 250 ms: an idle, empty processor stops after its fifth iteration. */
  lemma ShortLingerScenario(ticks: seq<Tick>)
    requires |ticks| >= 5 && forall j :: 0 <= j < |ticks| ==> ticks[j] == Tick(Idle, true)
    ensures RunLoop.Run(true, Resolve(Overrides(None, Some(1000), Some(250))).lingerIterations, false, ticks) == Stopped(5)
  {
    ShortLingerSettings();
    IdleProcessorLingersResolved(Overrides(None, Some(1000), Some(250)), ticks);
  }

  /**
   * A client: claim an idle processor, run it to its end, and claim it
   * again. The second claim succeeds whenever the run ended and cleared the
   * gate; an idle processor with no processes ends after LINGER_ITERATIONS + 1
   * iterations and can be claimed again.
   */
  method ClaimRunReclaim(p: EventProcessor<int>, ticks: seq<Tick>) returns (first: bool, outcome: Outcome, second: bool)
    requires p.Valid() && !p.isRunning.value
    modifies p.isRunning
    ensures first
    ensures second <==> !(outcome.Unfinished? || outcome.Aborted?)
    ensures p.settings.lingerIterations < |ticks| && (forall j :: 0 <= j < |ticks| ==> ticks[j] == Tick(Idle, true)) ==>
      outcome == Stopped(p.settings.lingerIterations + 1) && second
  {
    first := p.CheckAndSetRunning();
    outcome := p.Run(false, ticks);
    second := p.CheckAndSetRunning();
    if p.settings.lingerIterations < |ticks| && forall j :: 0 <= j < |ticks| ==> ticks[j] == Tick(Idle, true) {
      IdleProcessorLingersResolved(p.overrides, ticks);
    }
  }
}
