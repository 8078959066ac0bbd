/** The stopwatch of src/lib.rs: a value with three fields that is either
    stopped (no start instant) or running (a start instant), with operations
    start, stop, split, reset and restart, and a rendering of its stored
    elapsed time as whole milliseconds followed by "ms".

    Each operation is given twice: as a pure transition function on the
    value `State`, which the lemmas talk about, and as a method of the class
    `Stopwatch`, which updates its fields in place as the Rust methods taking
    `&mut self` do, and whose contract ties the new fields to that function. */
module StopwatchLib {
  import opened Clock
  import opened Decimal

  datatype Option<T> = None | Some(value: T)

  /** The three fields of the stopwatch. */
  datatype State = State(startTime: Option<Instant>, lastSplit: Option<Instant>, elapsed: Duration)
  {
    /** The presence of a start instant is what makes the stopwatch running. */
    predicate IsRunning() {
      startTime.Some?
    }
  }

  /** The value every constructor and reset produces (Default::default). */
  function Default(): (s: State)
    ensures !s.IsRunning() && s.lastSplit == None && s.elapsed == 0
  {
    State(None, None, 0)
  }

  /** What the fields satisfy in every state the operations can produce: a
      split exists only while running, and a running stopwatch with no split
      stores zero elapsed. (How the stored instants and the stored elapsed
      time are ordered depends on the clock; see `Lifecycle.InstantsOrdered`.) */
  predicate Consistent(s: State) {
    match s.startTime
    case None => s.lastSplit == None
    case Some(_) => s.lastSplit == None ==> s.elapsed == 0
  }

  /** `start` at clock reading `now`: whatever the state before, the stopwatch
      runs from `now`, with no split and nothing elapsed. */
  function StartFrom(s: State, now: Instant): (r: State)
    ensures r.IsRunning() && r.startTime.value == now
    ensures r.lastSplit == None && r.elapsed == 0
    ensures Consistent(r)
  {
    State(Some(now), None, 0)
  }

  /** `stop` at clock reading `now`: the new state and the duration returned. */
  function StopFrom(s: State, now: Instant): (r: (State, Duration))
    ensures !r.0.IsRunning() && (Consistent(s) ==> Consistent(r.0))
    ensures s.IsRunning() ==>
      r.0.lastSplit == None && r.1 == r.0.elapsed &&
      (s.startTime.value <= now ==> s.startTime.value + r.1 == now) &&
      (now < s.startTime.value ==> r.1 == 0)
    ensures !s.IsRunning() ==> r.0 == s && r.1 == 0
  {
    match s.startTime
    case Some(t1) =>
      var elapsed := DurationSince(now, t1);
      (State(None, None, elapsed), elapsed)
    case None => (s, 0)
  }

  /** `split`, which reads the clock twice: `splitAt` is the instant it
      records as the split, `now` the later reading it measures with. Returns
      the new state and the measurement, which is absent when the stopwatch is
      not running. */
  function SplitFrom(s: State, splitAt: Instant, now: Instant): (r: (State, Option<Duration>))
    ensures r.0.startTime == s.startTime && (Consistent(s) ==> Consistent(r.0))
    ensures r.1.Some? <==> s.IsRunning()
    ensures s.IsRunning() ==>
      r.0.lastSplit == Some(splitAt) && r.1 == Some(r.0.elapsed) &&
      (s.startTime.value <= now ==> s.startTime.value + r.1.value == now) &&
      (now < s.startTime.value ==> r.1 == Some(0))
    ensures s.IsRunning() && s.startTime.value <= splitAt <= now ==>
      splitAt - s.startTime.value <= r.1.value
    ensures !s.IsRunning() ==> r.0 == s
  {
    match s.startTime
    case Some(t1) =>
      var elapsed := DurationSince(now, t1);
      (State(s.startTime, Some(splitAt), elapsed), Some(elapsed))
    case None => (s, None)
  }

  /** The text Display::fmt writes: the stored elapsed time in whole
      milliseconds, in decimal, immediately followed by "ms". */
  function Render(s: State): (text: string)
    ensures |text| >= 3 && text[|text| - 2..] == "ms"
    ensures AllDigits(text[..|text| - 2])
    ensures DecimalValue(text[..|text| - 2]) == AsMillis(s.elapsed)
    ensures |text| > 3 ==> text[0] != '0'
  {
    var digits := DecimalString(AsMillis(s.elapsed));
    DecimalRoundTrip(AsMillis(s.elapsed));
    assert (digits + "ms")[..|digits|] == digits;
    digits + "ms"
  }

  /** The text tells the millisecond count exactly: two values render the
      same exactly when their stored elapsed times agree in whole milliseconds. */
  lemma RenderDeterminesMillis(a: State, b: State)
    ensures Render(a) == Render(b) <==> AsMillis(a.elapsed) == AsMillis(b.elapsed)
  {
  }

  /** A stored elapsed time of 1.5 s, with any sub-millisecond rest, renders as "1500ms". */
  lemma RenderExample(nanos: nat)
    requires nanos < NanosPerMilli
    ensures Render(State(None, None, 1500 * NanosPerMilli + nanos)) == "1500ms"
  {
  }

  /** The stopwatch object. Its fields are updated in place; copying it
      (Clone) gives a fresh, independent object. */
  class Stopwatch {
    var startTime: Option<Instant>
    var lastSplit: Option<Instant>
    var elapsed: Duration

    /** The value the fields hold together. */
    function Value(): State
      reads this
    {
      State(startTime, lastSplit, elapsed)
    }

    ghost predicate Valid()
      reads this
    {
      Consistent(Value())
    }

    /** Stopwatch::new, which is Default::default. */
    constructor ()
      ensures Valid() && Value() == Default()
    {
      startTime, lastSplit, elapsed := None, None, 0;
    }

    /** Stopwatch::start_new: a default stopwatch, started at `now`. */
    static method StartNew(now: Instant) returns (sw: Stopwatch)
      ensures fresh(sw) && sw.Valid()
      ensures sw.Value() == StartFrom(Default(), now)
    {
      sw := new Stopwatch();
      sw.Start(now);
    }

    /** Stopwatch::start, reading the clock as `now`. */
    method Start(now: Instant)
      modifies this
      ensures Valid() && Value() == StartFrom(old(Value()), now)
    {
      startTime := Some(now);
      lastSplit := None;
      elapsed := 0;
    }

    /** Stopwatch::stop, reading the clock as `now`. */
    method Stop(now: Instant) returns (d: Duration)
      modifies this
      ensures old(Valid()) ==> Valid()
      ensures (Value(), d) == StopFrom(old(Value()), now)
    {
      match startTime
      case Some(t1) =>
        elapsed := DurationSince(now, t1);
        startTime := None;
        lastSplit := None;
        d := elapsed;
      case None =>
        d := 0;
    }

    /** Stopwatch::reset: the whole value is overwritten with the default. */
    method Reset()
      modifies this
      ensures Valid() && Value() == Default()
    {
      var d := Default();
      startTime, lastSplit, elapsed := d.startTime, d.lastSplit, d.elapsed;
    }

    /** Stopwatch::restart: reset, then start at `now`. */
    method Restart(now: Instant)
      modifies this
      ensures Valid() && Value() == StartFrom(Default(), now)
    {
      Reset();
      Start(now);
    }

    /** Stopwatch::split: the split instant is the clock reading `splitAt`,
        the measurement is taken at the next reading, `now`. */
    method Split(splitAt: Instant, now: Instant) returns (d: Option<Duration>)
      modifies this
      ensures old(Valid()) ==> Valid()
      ensures (Value(), d) == SplitFrom(old(Value()), splitAt, now)
    {
      match startTime
      case Some(t1) =>
        lastSplit := Some(splitAt);
        elapsed := DurationSince(now, t1);
        d := Some(elapsed);
      case None =>
        d := None;
    }

    /** The derived Clone (the type is Copy): a new object holding the same value. */
    method Clone() returns (c: Stopwatch)
      ensures fresh(c) && c.Value() == Value()
    {
      c := new Stopwatch();
      c.startTime, c.lastSplit, c.elapsed := startTime, lastSplit, elapsed;
    }
  }
}
