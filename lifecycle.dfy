/** Properties of the stopwatch's transitions, one at a time and over whole
    sequences of operations applied to a stopwatch by its owner. */
module Lifecycle {
  import opened Clock
  import opened StopwatchLib

  /** An operation a caller applies to a stopwatch it owns, and the clock
      reading it takes (ignored by reset). Split reads the clock twice: first
      the instant it records (`splitAt`), then `at`, which it measures with. */
  datatype Op = Start | Stop | Split(splitAt: Instant) | Reset | Restart
  datatype Event = Event(op: Op, at: Instant)

  /** The first clock reading an event takes. */
  function FirstReading(e: Event): Instant {
    if e.op.Split? then e.op.splitAt else e.at
  }

  /** The state after one operation; the values stop and split return are dropped. */
  function Apply(s: State, e: Event): State {
    match e.op
    case Start => StartFrom(s, e.at)
    case Stop => StopFrom(s, e.at).0
    case Split(splitAt) => SplitFrom(s, splitAt, e.at).0
    case Reset => Default()
    case Restart => StartFrom(Default(), e.at)
  }

  /** The state after a sequence of operations, first to last. */
  function Run(s: State, events: seq<Event>): State
    decreases |events|
  {
    if events == [] then s else Run(Apply(s, events[0]), events[1..])
  }

  /** The clock readings of `events` never go backwards and none is before `t`:
      what a monotonic clock guarantees. */
  predicate Chronological(t: Instant, events: seq<Event>)
    decreases |events|
  {
    events == [] ||
    (t <= FirstReading(events[0]) <= events[0].at && Chronological(events[0].at, events[1..]))
  }

  /** The latest clock reading: the last event's, or `t` if there is none. */
  function LastReading(t: Instant, events: seq<Event>): Instant {
    if events == [] then t else events[|events| - 1].at
  }

  /** How the held instants lie on a clock that has reached `now`: while
      running, the instant the stored elapsed time was measured at (start plus
      elapsed) is no later than `now`, and a split lies between the start and
      that instant; every held instant is no later than `now`. */
  predicate InstantsOrdered(s: State, now: Instant) {
    match s.startTime
    case None => s.lastSplit.Some? ==> s.lastSplit.value <= now
    case Some(t0) =>
      t0 + s.elapsed <= now &&
      (s.lastSplit.Some? ==> t0 <= s.lastSplit.value <= t0 + s.elapsed)
  }

  // ---------------------------------------------------------------------
  // Single transitions

  /** Each operation keeps the fields consistent. */
  lemma ApplyKeepsConsistent(s: State, e: Event)
    requires Consistent(s)
    ensures Consistent(Apply(s, e))
  {
  }

  /** An operation whose clock readings are not before the previous one, nor
      out of order, keeps the instants ordered up to its last reading. */
  lemma ApplyKeepsOrdered(s: State, t: Instant, e: Event)
    requires InstantsOrdered(s, t) && t <= FirstReading(e) <= e.at
    ensures InstantsOrdered(Apply(s, e), e.at)
  {
  }

  /** Restart leaves exactly the state start leaves: start already discards
      the running interval, the split and the stored elapsed time. */
  lemma RestartIsStart(s: State, now: Instant)
    ensures Apply(s, Event(Restart, now)) == Apply(s, Event(Start, now))
    ensures forall s' :: Apply(s', Event(Start, now)) == Apply(s, Event(Start, now))
  {
  }

  /** Reset from any state gives the constructed state. */
  lemma ResetIsDefault(s: State, now: Instant)
    ensures Apply(s, Event(Reset, now)) == Default()
    ensures Run(s, [Event(Reset, now)]) == Run(Default(), [])
  {
  }

  /** A second stop finds the stopwatch stopped: it returns zero and changes nothing. */
  lemma StopTwice(s: State, t1: Instant, t2: Instant)
    ensures StopFrom(StopFrom(s, t1).0, t2) == (StopFrom(s, t1).0, 0)
  {
  }

  /** Stopping a started stopwatch returns, and stores, the time since its
      start; at least 50 ms of waiting shows as at least 50 ms. */
  lemma StopMeasuresFromStart(s: State, t0: Instant, t1: Instant)
    requires t0 <= t1
    ensures StopFrom(StartFrom(s, t0), t1) == (State(None, None, t1 - t0), t1 - t0)
    ensures t1 - t0 >= 50 * NanosPerMilli ==> AsMillis(StopFrom(StartFrom(s, t0), t1).1) >= 50
  {
  }

  /** Splits are cumulative: a second split measures from the original start,
      not from the first split, and the lap between them is the difference
      of the two measurements. */
  lemma SplitsMeasureFromStart(s: State, u1: Instant, t1: Instant, u2: Instant, t2: Instant)
    requires s.IsRunning() && s.startTime.value <= t1 <= t2
    ensures SplitFrom(SplitFrom(s, u1, t1).0, u2, t2).1 == Some(t2 - s.startTime.value)
    ensures SplitFrom(SplitFrom(s, u1, t1).0, u2, t2).1.value - SplitFrom(s, u1, t1).1.value == t2 - t1
    ensures StopFrom(SplitFrom(s, u1, t1).0, t2).1 == t2 - s.startTime.value
  {
  }

  /** While running, the stored elapsed time never exceeds the time since
      start, and a recorded split lies within the stored elapsed time. */
  lemma RunningElapsedBound(s: State, now: Instant)
    requires InstantsOrdered(s, now) && s.IsRunning()
    ensures s.startTime.value + s.elapsed <= now
    ensures s.lastSplit.Some? ==> s.lastSplit.value - s.startTime.value <= s.elapsed
  {
  }

  /** A split whose readings come after `now` never reports less than what the
      stopwatch already stores. */
  lemma SplitNeverDecreases(s: State, now: Instant, splitAt: Instant, later: Instant)
    requires InstantsOrdered(s, now) && s.IsRunning() && now <= later
    ensures SplitFrom(s, splitAt, later).1.value >= s.elapsed
  {
  }

  // ---------------------------------------------------------------------
  // Sequences of operations

  /** Any sequence of operations keeps the fields consistent. */
  lemma {:induction false} RunKeepsConsistent(s: State, events: seq<Event>)
    requires Consistent(s)
    ensures Consistent(Run(s, events))
    decreases |events|
  {
    if events != [] {
      ApplyKeepsConsistent(s, events[0]);
      RunKeepsConsistent(Apply(s, events[0]), events[1..]);
    }
  }

  /** Operations read from a monotonic clock keep the instants ordered up to
      the latest reading. */
  lemma {:induction false} RunKeepsOrdered(s: State, t: Instant, events: seq<Event>)
    requires InstantsOrdered(s, t) && Chronological(t, events)
    ensures InstantsOrdered(Run(s, events), LastReading(t, events))
    decreases |events|
  {
    if events != [] {
      ApplyKeepsOrdered(s, t, events[0]);
      RunKeepsOrdered(Apply(s, events[0]), events[0].at, events[1..]);
      if |events| > 1 {
        assert events[1..][|events[1..]| - 1] == events[|events| - 1];
      }
    }
  }

  /** Every stopwatch built from a default one is consistent; a split it holds
      lies within its stored elapsed time; and once it runs, a split measured
      at a later clock reading reports at least what it stores and exactly the
      time since its start. */
  lemma ReachableSplitsNeverDecrease(events: seq<Event>, splitAt: Instant, now: Instant)
    requires Chronological(0, events) && LastReading(0, events) <= now
    ensures Consistent(Run(Default(), events))
    ensures Run(Default(), events).IsRunning() ==>
      SplitFrom(Run(Default(), events), splitAt, now).1.value >= Run(Default(), events).elapsed &&
      Run(Default(), events).startTime.value + SplitFrom(Run(Default(), events), splitAt, now).1.value == now
    ensures Run(Default(), events).lastSplit.Some? ==>
      Run(Default(), events).lastSplit.value - Run(Default(), events).startTime.value <= Run(Default(), events).elapsed
  {
    var s := Run(Default(), events);
    RunKeepsConsistent(Default(), events);
    RunKeepsOrdered(Default(), 0, events);
    if s.IsRunning() {
      RunningElapsedBound(s, LastReading(0, events));
      SplitNeverDecreases(s, LastReading(0, events), splitAt, now);
    }
  }
}
