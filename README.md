# stopwatch-rs in Dafny

A model of `Stopwatch` from `src/lib.rs`: a small copyable value with three
fields — the start instant (present while running), the instant of the last
split, and the stored elapsed duration — and the operations `new`
(`Default::default`), `start_new`, `start`, `stop`, `split`, `reset`,
`restart`, the derived `Clone`, and the `Display` rendering `<millis>ms`.

Files:

- `clock.dfy` (module `Clock`): instants and durations as natural numbers of
  nanoseconds, the saturating difference of two instants, and truncation to
  whole milliseconds.
- `decimal.dfy` (module `Decimal`): the decimal text of a natural number, as
  Rust's `{}` writes an unsigned integer, and its inverse reading.
- `stopwatch.dfy` (module `StopwatchLib`): the value `State`, the pure
  transition functions `StartFrom`, `StopFrom` and `SplitFrom`, the rendering
  `Render`, and the class `Stopwatch` whose methods update its three fields in
  place, each method's contract tying the new fields (and the returned value)
  to the transition function of the old ones.
- `lifecycle.dfy` (module `Lifecycle`): properties of single transitions and
  of whole sequences of operations read from a monotonic clock.
- `scenarios.dfy` (module `Scenarios`): the unit tests of `src/lib.rs`
  restated as client code of the class, with each sleep replaced by a later
  clock reading.

Every operation that reads the clock takes the reading as a parameter `now`.
The subtraction `now - start` saturates at zero, as tokio's `Instant`
subtraction does, so no operation needs a precondition; the facts that rely
on the clock being monotonic are stated over chronological sequences of
operations in `Lifecycle`.

The model follows the code where its doc comments say otherwise:

- the comment on `elapsed` (`src/lib.rs:9`) says it is 0 when stopped, but
  `stop` stores the measured duration there (`src/lib.rs:54`), and the model
  keeps it (`StopFrom`);
- the comment on `start_time` (`src/lib.rs:5`) says it is absent only if the
  stopwatch never started, but `stop` clears it (`src/lib.rs:55`), so its
  absence means "stopped".

`Consistent` is the invariant every reachable value satisfies: a split exists
only while running, and a running stopwatch stores zero elapsed until its
first split. `split` reads the clock twice (`src/lib.rs:78` for the recorded
instant, `src/lib.rs:79` for the measurement), and the model takes both
readings, so after a split the stored elapsed time is at least, not exactly,
the time from start to the recorded split; that ordering, which depends on
the clock being monotonic, is `Lifecycle.InstantsOrdered`.

## Model

| member | source | states |
|---|---|---|
| `Clock.DurationSince` | src/lib.rs:54 | the measured duration added to the start instant gives the reading; zero if the start is later than the reading |
| `Clock.AsMillis` | src/lib.rs:25 | `as_millis` truncates: the result in milliseconds is at most the duration and one more millisecond exceeds it |
| `Clock.AsMillisMonotone` | src/lib.rs:144 | a longer duration never shows fewer whole milliseconds |
| `Decimal.DecimalString` | src/lib.rs:25 | the rendered number is a non-empty string of digits with no leading zero, starting with '0' exactly for zero |
| `Decimal.DecimalRoundTrip` | src/lib.rs:25 | reading the decimal text back gives the number written |
| `Decimal.DecimalStringInjective` | src/lib.rs:25 | two numbers have the same decimal text exactly when they are equal |
| `StopwatchLib.Default` | src/lib.rs:13-20 | the default value is stopped, has no split and zero elapsed |
| `StopwatchLib.StartFrom` | src/lib.rs:36-40 | from any state, start runs from the reading, with no split and zero elapsed, and the result is consistent |
| `StopwatchLib.StopFrom` | src/lib.rs:51-61 | stop always leaves the stopwatch stopped and keeps consistency; when running it clears the split, stores the time since start (zero if the reading is before the start) and returns exactly the stored value; when stopped it returns zero and changes nothing |
| `StopwatchLib.SplitFrom` | src/lib.rs:75-84 | split never changes the start; it returns a measurement exactly when running, then records its first reading as the split and stores and returns the time from the original start to its second reading (zero if that reading is before the start), which is at least the time from start to the split; when stopped it changes nothing |
| `StopwatchLib.Render` | src/lib.rs:23-26 | the text is decimal digits, with no leading zero, immediately followed by "ms", and the digits denote the stored elapsed time in whole truncated milliseconds |
| `StopwatchLib.RenderDeterminesMillis` | src/lib.rs:23-26 | two values render alike exactly when their stored elapsed times agree in whole milliseconds |
| `StopwatchLib.RenderExample` | src/lib.rs:25 | 1500 ms and any sub-millisecond rest render as "1500ms" |
| `StopwatchLib.Stopwatch.constructor` | src/lib.rs:31-33 | `new` gives the default value |
| `StopwatchLib.Stopwatch.StartNew` | src/lib.rs:43-47 | `start_new` gives a fresh stopwatch equal to the default one started at the reading |
| `StopwatchLib.Stopwatch.Start` | src/lib.rs:36-40 | the fields become those of `StartFrom` of the old value |
| `StopwatchLib.Stopwatch.Stop` | src/lib.rs:51-61 | the fields and the returned duration are those of `StopFrom` of the old value; consistency is kept |
| `StopwatchLib.Stopwatch.Reset` | src/lib.rs:64-66 | the whole value becomes the default one |
| `StopwatchLib.Stopwatch.Restart` | src/lib.rs:69-72 | the whole value becomes the default one started at the reading, whatever it was before |
| `StopwatchLib.Stopwatch.Split` | src/lib.rs:75-84 | the fields and the returned measurement are those of `SplitFrom` of the old value and the two clock readings; consistency is kept |
| `StopwatchLib.Stopwatch.Clone` | src/lib.rs:3 | a copy is a fresh object holding the same value, so later updates to either leave the other unchanged |
| `Lifecycle.ApplyKeepsConsistent` | src/lib.rs:36-84 | every operation keeps the fields consistent |
| `Lifecycle.ApplyKeepsOrdered` | src/lib.rs:36-84 | an operation whose readings are in order and no earlier than the last reading keeps every held instant no later than its last reading, and a split between the start and the instant elapsed was measured at |
| `Lifecycle.RestartIsStart` | src/lib.rs:36-40 | restart and start leave the same state, and start's result does not depend on the state before |
| `Lifecycle.ResetIsDefault` | src/lib.rs:64-66 | reset from any state gives the constructed state |
| `Lifecycle.StopTwice` | src/lib.rs:51-61 | a second stop returns zero and changes nothing |
| `Lifecycle.StopMeasuresFromStart` | src/lib.rs:139-145 | start then stop returns and stores the time between them; 50 ms of waiting shows as at least 50 ms |
| `Lifecycle.SplitsMeasureFromStart` | src/lib.rs:75-84 | a second split, or a stop after a split, measures from the original start; the lap is the difference of two splits |
| `Lifecycle.RunningElapsedBound` | src/lib.rs:78-79 | while running, the stored elapsed time never exceeds the time since start, and a recorded split lies within it |
| `Lifecycle.SplitNeverDecreases` | src/lib.rs:75-84 | a split measured at a later reading never reports less than the stored elapsed time |
| `Lifecycle.RunKeepsConsistent` | src/lib.rs:36-84 | any sequence of operations keeps the fields consistent |
| `Lifecycle.RunKeepsOrdered` | src/lib.rs:36-84 | operations read from a monotonic clock keep the held instants ordered up to the latest reading |
| `Lifecycle.ReachableSplitsNeverDecrease` | src/lib.rs:75-84 | every stopwatch built from a default one by operations read from a monotonic clock is consistent, a split it holds lies within its stored elapsed time, and a later split reports at least what it stores and exactly the time since its start |
| `Scenarios.StartAndStartNew` | src/lib.rs:92-113 | a new stopwatch is stopped with no split and zero elapsed; starting it makes it run; start_new gives a running stopwatch with no split and zero elapsed |
| `Scenarios.SplitOnlyWhileRunning` | src/lib.rs:115-127 | split records an instant on a running stopwatch and none on a stopped one |
| `Scenarios.StopKeepsElapsed` | src/lib.rs:129-145 | stop clears both instants and stores the time between start and stop; 50 ms of waiting shows as at least 50 whole ms |
| `Scenarios.ResetClears` | src/lib.rs:147-161 | reset clears a running, split stopwatch; a later stop and reset leave zero elapsed |
| `Scenarios.RestartedCopyIsIndependent` | src/lib.rs:163-181 | restarting a copy leaves the original's start and split alone and gives the copy a different start (given the clock advanced) and no split; restart after stop leaves zero elapsed |

## Left out

- Reading the clock (`Instant::now()` and `Instant::elapsed()`): each operation takes the reading as a parameter.
- `Duration` as seconds plus nanoseconds, and its overflow limits: durations and instants are unbounded natural numbers of nanoseconds.
- The `Formatter` and `write!` plumbing of `Display::fmt`: only the text written is modelled.
- The sleeps and wall-clock thresholds of the tests: each becomes a later clock reading in `Scenarios`.
- The test's claim that a restarted copy has a different start instant holds only if the clock advanced; `Scenarios.RestartedCopyIsIndependent` requires a strictly later reading.
- Rust's implicit `Copy`: in Rust `let b = a;` copies the value, while in the model `var b := a;` makes a second reference to the same `Stopwatch` object. An independent copy is obtained only through `Clone` or by taking the `State` value (`Value()`).
- Thread safety and concurrent use: the source offers none; the model is sequential.
