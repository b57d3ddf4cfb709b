# NuProcess event processor core, in Dafny

This project models `BaseEventProcessor`, the abstract base of NuProcess's
event processors. One processor thread watches many child processes through
an OS polling backend (kqueue, epoll) instead of one thread per child. The
model covers three pieces of its logic.

- **Configuration** (module `Config`). The static initialiser resolves three
  process-wide constants from optional system properties, via the local
  `lingerTimeMs`, which the model keeps in `Settings`. `EVENT_BATCH_SIZE`
  is the override or 1. The linger time is the override or 2500 ms, raised to
  at least 1000. `DEADPOOL_POLL_INTERVAL` is the override or 250 ms, clamped
  into [100, linger time]. `LINGER_ITERATIONS` is linger time divided by poll
  interval, using Java's truncating `/`. `JavaInt` supplies the Java `int`
  range, the wrap-around `x++` and truncating division.
- **Running gate** (module `Atomic`, method `CheckAndSetRunning`). An
  `AtomicBoolean` that starts false. `checkAndSetRunning` is
  `compareAndSet(false, true)`: it wins iff the gate was clear.
- **Run loop** (modules `RunLoop` and `Processor`). `RunLoop.RunFrom` is the
  do-while loop as a function of its environment. `EventProcessor.Run` is the
  imperative loop, proved equal to that function. Each loop body calls the
  polling backend once, then resets the idle counter or increments it as a
  Java `int`. After each body the loop runs
  `isRunning.compareAndSet(mapEmpty && idleCount > LINGER_ITERATIONS, false)`
  and leaves when that call succeeds. So it leaves when the gate *equals*
  the stop condition. With the gate set, that is the first iteration where
  the stop condition holds. With the gate already clear, it is the first
  iteration because `LINGER_ITERATIONS >= 1` (`ClearedGateRunsOnce`). A
  failed start rendezvous also ends the run, and so does an `Exception`
  thrown by `process()`. Every exit through the `catch (Exception e)` block
  or the normal path clears the gate. An `Error` thrown by `process()` is not
  caught, so it leaves `run()` with the gate unchanged (`Aborted`).

The environment is given as a sequence of `Tick`s, one per iteration. Each
tick says what `process()` did and whether `pidToProcessMap` was empty when the
loop condition read it. If the sequence runs out while the loop would go on,
the outcome is `Unfinished` and the gate is unchanged. The four results of
`process()` are:
- `Dispatched`: it returned true.
- `Idle`: it returned false.
- `Failed`: it threw an `Exception`.
- `Fatal`: it threw an `Error`.

The sequential model takes the static constants as the value
`Resolve(overrides)`, which the constructor receives.

The code clamps neither of these values:
- `EVENT_BATCH_SIZE` (line 25): zero or negative overrides are kept
  (`BatchSizeUnclamped`).
- `LINGER_ITERATIONS` (line 31): there is no `max(1, …)`. It is
  at least 1 anyway because the poll interval never exceeds the linger time
  (`IterationsBounded`).

## Model

| member | source | states |
|---|---|---|
| `Wrappers.Option.GetOr` | src/main/java/org/nuprocess/internal/BaseEventProcessor.java:25 | `Integer.getInteger(name, default)`: the property's value when present, the default otherwise |
| `JavaInt.Inc` | src/main/java/org/nuprocess/internal/BaseEventProcessor.java:60 | `idleCount++` on a Java int: an int congruent to x + 1 modulo 2^32, greater than x unless x is INT_MAX |
| `JavaInt.Div` | src/main/java/org/nuprocess/internal/BaseEventProcessor.java:31 | Java's truncating `/`: stays an int; magnitude is the exact quotient of the magnitudes and the sign is that of a·b, except that INT_MIN / -1 overflows to INT_MIN; equals mathematical division on a non-negative dividend and positive divisor |
| `Config.Max` | src/main/java/org/nuprocess/internal/BaseEventProcessor.java:27-29 | `Math.max`: the larger of the two arguments |
| `Config.Min` | src/main/java/org/nuprocess/internal/BaseEventProcessor.java:29 | `Math.min`: the smaller of the two arguments |
| `Config.LingerTime` | src/main/java/org/nuprocess/internal/BaseEventProcessor.java:27 | linger time is at least 1000; 2500 without an override; otherwise max(1000, override) |
| `Config.PollInterval` | src/main/java/org/nuprocess/internal/BaseEventProcessor.java:29 | the poll interval lies in [100, linger time]; a requested value (override or 250) below 100 gives 100, one above the linger time gives the linger time, and one in range is kept |
| `Config.LingerIterations` | src/main/java/org/nuprocess/internal/BaseEventProcessor.java:31 | at least 1; the whole number of poll intervals that fit in the linger time (r·poll ≤ linger < (r+1)·poll) |
| `Config.Resolve` | src/main/java/org/nuprocess/internal/BaseEventProcessor.java:23-32 | for every override: batch size is the override or 1; linger and poll interval are exactly `LingerTime` and `PollInterval` of the overrides; linger ≥ 1000; 100 ≤ poll ≤ linger; iterations ≥ 1 and count whole poll intervals in the linger time |
| `Config.IterationsBounded` | src/main/java/org/nuprocess/internal/BaseEventProcessor.java:29-31 | 1 ≤ LINGER_ITERATIONS ≤ lingerTimeMs / 100 for all overrides |
| `Config.SettingsAreInts` | src/main/java/org/nuprocess/internal/BaseEventProcessor.java:23-32 | the three constants and the local linger time fit in a Java int, so the initialiser cannot overflow |
| `Config.DefaultSettings` | src/main/java/org/nuprocess/internal/BaseEventProcessor.java:25-31 | with no overrides: batch 1, linger 2500, poll 250, iterations 10 |
| `Config.ShortLingerSettings` | src/main/java/org/nuprocess/internal/BaseEventProcessor.java:27-31 | linger 1000 with poll 250 gives 4 iterations |
| `Config.BatchSizeUnclamped` | src/main/java/org/nuprocess/internal/BaseEventProcessor.java:25 | EVENT_BATCH_SIZE is exactly the override, with no clamping |
| `Config.ResolveIdempotent` | src/main/java/org/nuprocess/internal/BaseEventProcessor.java:23-32 | feeding resolved values back in as overrides resolves to the same constants: clamping is idempotent |
| `Atomic.Cas` | src/main/java/org/nuprocess/internal/BaseEventProcessor.java:95 | compare-and-set succeeds iff the cell holds the expected value; only then does it take the new value |
| `Atomic.Activations` | src/main/java/org/nuprocess/internal/BaseEventProcessor.java:93-96 | the answers of n successive `checkAndSetRunning` calls, one per call |
| `Atomic.ExactlyOneActivation` | src/main/java/org/nuprocess/internal/BaseEventProcessor.java:93-96 | of n callers claiming an idle gate, exactly one (the first to take effect) gets true |
| `Atomic.NoActivationWhileActive` | src/main/java/org/nuprocess/internal/BaseEventProcessor.java:93-96 | while the gate is set, every claim returns false (that a claim leaves the gate set is `Processor.EventProcessor.CheckAndSetRunning`'s `ensures isRunning.value`) |
| `Atomic.AtomicBoolean.constructor` | src/main/java/org/nuprocess/internal/BaseEventProcessor.java:38 | a new AtomicBoolean holds false |
| `Atomic.AtomicBoolean.Set` | src/main/java/org/nuprocess/internal/BaseEventProcessor.java:64-69 | `set(v)` stores v |
| `Atomic.AtomicBoolean.CompareAndSet` | src/main/java/org/nuprocess/internal/BaseEventProcessor.java:63 | succeeds iff the old value equals `expected`; stores `update` on success and changes nothing otherwise |
| `RunLoop.NextIdle` | src/main/java/org/nuprocess/internal/BaseEventProcessor.java:54-61 | the idle counter stays a Java int after each iteration |
| `RunLoop.IdleCount` | src/main/java/org/nuprocess/internal/BaseEventProcessor.java:51-62 | the idle counter after k iterations, starting from 0, is a Java int |
| `RunLoop.Run` | src/main/java/org/nuprocess/internal/BaseEventProcessor.java:45-71 | the whole of run(): a failed rendezvous, and only that, ends it before the loop; otherwise the do-while body runs at least once before any exit, and never more often than the environment allows |
| `RunLoop.RunFrom` | src/main/java/org/nuprocess/internal/BaseEventProcessor.java:52-63 | the do-while loop: ends by exception or CAS in a later iteration within the environment, or is still running when the environment ends, never with a rendezvous failure |
| `RunLoop.GateAfter` | src/main/java/org/nuprocess/internal/BaseEventProcessor.java:63-69 | the gate after run(): never set by run(); cleared by every exit that reaches `set(false)`; an uncaught Error or an unfinished loop leaves it exactly as it was, so after an Error on a claimed processor no later claim can win |
| `RunLoop.RunFromCharacterised` | src/main/java/org/nuprocess/internal/BaseEventProcessor.java:52-63 | from any iteration on, both directions: when the loop stops, ends by Exception, ends by Error or is still running, in terms of the per-iteration stop condition |
| `RunLoop.StoppedWhen` | src/main/java/org/nuprocess/internal/BaseEventProcessor.java:63 | the loop stops after iteration n iff n ≥ 1 is the first iteration whose stop condition equals the gate and nothing threw before |
| `RunLoop.CrashedWhen` | src/main/java/org/nuprocess/internal/BaseEventProcessor.java:54-69 | the run ends in the catch block in iteration n iff `process()` threw an Exception there and every earlier iteration continued |
| `RunLoop.AbortedWhen` | src/main/java/org/nuprocess/internal/BaseEventProcessor.java:54-66 | an Error escapes run() in iteration n iff `process()` threw an Error there and every earlier iteration continued |
| `RunLoop.UnfinishedWhen` | src/main/java/org/nuprocess/internal/BaseEventProcessor.java:52-63 | the loop is still running at the end of the environment iff every iteration continued; its idle counter is then IdleCount |
| `RunLoop.IdleCountIsIdleRun` | src/main/java/org/nuprocess/internal/BaseEventProcessor.java:51-62 | the idle counter is the length of the run of non-dispatching polls just before it: 0 after a dispatching poll, one more after an idle one |
| `RunLoop.NonNegativeIdleCountIsIdleRun` | src/main/java/org/nuprocess/internal/BaseEventProcessor.java:51-62 | whenever the counter is non-negative, wrapped or not, it is at most the length of the run of non-dispatching polls just before it |
| `RunLoop.StopNeedsIdleEmptyRegistry` | src/main/java/org/nuprocess/internal/BaseEventProcessor.java:63 | with the gate set, a natural stop happens only with an empty map after more than LINGER_ITERATIONS idle polls in a row |
| `RunLoop.BusyRegistryKeepsRunning` | src/main/java/org/nuprocess/internal/BaseEventProcessor.java:63 | with the gate set, the loop does not stop naturally while the map is non-empty |
| `RunLoop.IdleCountOfIdleTicks` | src/main/java/org/nuprocess/internal/BaseEventProcessor.java:58-61 | after k idle iterations the counter is k, for k ≤ INT_MAX |
| `RunLoop.IdleProcessorLingers` | src/main/java/org/nuprocess/internal/BaseEventProcessor.java:51-63 | with the gate set, an empty map and only idle polls, exactly LINGER_ITERATIONS + 1 iterations run |
| `RunLoop.ClearedGateRunsOnce` | src/main/java/org/nuprocess/internal/BaseEventProcessor.java:63 | with the gate already clear and LINGER_ITERATIONS ≥ 1, `compareAndSet(false, false)` ends the loop after the first iteration (unless `process()` threw there) |
| `Processor.EventProcessor.constructor` | src/main/java/org/nuprocess/internal/BaseEventProcessor.java:34-39 | a new processor has both maps empty, the gate clear, and the constants resolved from the given overrides |
| `Processor.EventProcessor.CheckAndSetRunning` | src/main/java/org/nuprocess/internal/BaseEventProcessor.java:93-96 | returns true iff the gate was clear; the gate is set afterwards |
| `Processor.EventProcessor.Run` | src/main/java/org/nuprocess/internal/BaseEventProcessor.java:45-71 | the loop computes the RunLoop outcome from the initial gate; every exit that reaches `set(false)` (normal stop, Exception, failed rendezvous) clears the gate, and an Error leaves it unchanged |
| `Processor.ClearedGateRunsOnceResolved` | src/main/java/org/nuprocess/internal/BaseEventProcessor.java:63 | with any resolved constants, a processor whose gate is clear leaves after one iteration (by stop, Exception or Error) |
| `Processor.IdleProcessorLingersResolved` | src/main/java/org/nuprocess/internal/BaseEventProcessor.java:51-63 | with any resolved constants, an idle empty processor runs exactly LINGER_ITERATIONS + 1 iterations |
| `Processor.ShortLingerScenario` | src/main/java/org/nuprocess/internal/BaseEventProcessor.java:27-63 | linger 1000, poll 250: an idle empty processor stops after exactly its fifth iteration |
| `Processor.ClaimRunReclaim` | src/main/java/org/nuprocess/internal/BaseEventProcessor.java:93-96 | claiming an idle processor succeeds; claiming it again after its run succeeds iff the run ended by a path that clears the gate; an idle processor with no processes stops after LINGER_ITERATIONS + 1 iterations and can be claimed again |

## Left out

- The start rendezvous (`startBarrier.await()`, `getSpawnBarrier`, lines 49 and 83-87) is thread synchronisation. It appears only as a flag saying the rendezvous failed, which takes the exception path.
- An `Error` thrown by `await()` at line 49 is not modelled. Like an `Error` from `process()`, it would leave `run()` with the gate still set, so every later `checkAndSetRunning` returns false. The model covers that case only for `process()`, as the `Fatal` poll.
- Atomicity and races on the `AtomicBoolean` and the two `ConcurrentHashMap`s are not modelled. Calls take effect one at a time. Inserts by spawning threads appear only as each iteration's map-emptiness snapshot.
- `process()` and the polling backends that implement it are not part of this model. Each call is an oracle result in the environment.
- `Integer.getInteger` parsing of system properties is a library call. Each lookup is an `Option<int>`.
- The handle type and the contents of `pidToProcessMap` and `fildesToProcessMap` are left out. Nothing in this class inserts or removes entries.
- `Processor.EventProcessor.Run`: a loop that never stops is seen only through a finite environment. Its `Unfinished` outcome stands for "still running after these iterations".
- `RunLoop.IdleCountIsIdleRun`: proved only while the counter cannot wrap (k ≤ INT_MAX). After 2^31 - 1 idle iterations `idleCount++` wraps to INT_MIN, and `Inc` models that wrap.
