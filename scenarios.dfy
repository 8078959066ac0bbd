/** The unit tests of src/lib.rs, restated as client code of the stopwatch
    object. Each sleep of a test becomes a later clock reading; each method
    returns the values the test inspects, and its contract states what the
    test asserts of them, proved from the methods' contracts alone. */
module Scenarios {
  import opened Clock
  import opened StopwatchLib

  /** `new` gives a stopped, zeroed stopwatch; starting it makes it run;
      start_new gives a running stopwatch with no split and zero elapsed. */
  method StartAndStartNew(t0: Instant, t1: Instant) returns (created: State, started: State, startedNew: State)
    ensures created.startTime == None && created.lastSplit == None && created.elapsed == 0
    ensures started.startTime != None
    ensures startedNew.startTime != None && startedNew.lastSplit == None && startedNew.elapsed == 0
  {
    var sw := new Stopwatch();
    created := sw.Value();
    sw.Start(t0);
    started := sw.Value();
    var sw2 := Stopwatch.StartNew(t1);
    startedNew := sw2.Value();
  }

  /** Split records an instant only on a running stopwatch. */
  method SplitOnlyWhileRunning(t0: Instant, u1: Instant, t1: Instant) returns (running: State, stopped: State)
    ensures running.lastSplit != None
    ensures stopped.lastSplit == None
  {
    var sw := Stopwatch.StartNew(t0);
    var _ := sw.Split(u1, t1);
    running := sw.Value();
    var idle := new Stopwatch();
    var _ := idle.Split(u1, t1);
    stopped := idle.Value();
  }

  /** Stop clears both instants and keeps what it measured: a wait of at least
      50 ms between start and stop shows as at least 50 whole milliseconds. */
  method StopKeepsElapsed(t0: Instant, t1: Instant) returns (stopped: State)
    requires t0 + 50 * NanosPerMilli <= t1
    ensures stopped.startTime == None && stopped.lastSplit == None
    ensures stopped.elapsed == t1 - t0 && AsMillis(stopped.elapsed) >= 50
  {
    var sw := new Stopwatch();
    sw.Start(t0);
    var _ := sw.Stop(t1);
    stopped := sw.Value();
    AsMillisMonotone(50 * NanosPerMilli, stopped.elapsed);
  }

  /** Reset clears a running, split stopwatch; stopping and resetting it
      again leaves zero elapsed. */
  method ResetClears(t0: Instant, u1: Instant, t1: Instant, t2: Instant) returns (reset: State, final: State)
    ensures reset.startTime == None && reset.lastSplit == None
    ensures final.elapsed == 0
  {
    var sw := Stopwatch.StartNew(t0);
    var _ := sw.Split(u1, t1);
    sw.Reset();
    reset := sw.Value();
    var _ := sw.Stop(t2);
    sw.Reset();
    final := sw.Value();
  }

  /** Restarting a copy leaves the original alone; restarting after a stop
      carries nothing over. The copy's start differs from the original's
      only because the clock has advanced (t0 < t2). */
  method RestartedCopyIsIndependent(t0: Instant, u1: Instant, t1: Instant, t2: Instant, t3: Instant, t4: Instant)
    returns (original: State, copy: State, final: State)
    requires t0 < t2
    ensures original.startTime == Some(t0) && original.lastSplit == Some(u1)
    ensures copy.startTime != original.startTime && copy.lastSplit == None
    ensures final.elapsed == 0
  {
    var sw1 := Stopwatch.StartNew(t0);
    var _ := sw1.Split(u1, t1);
    var sw2 := sw1.Clone();
    sw2.Restart(t2);
    original := sw1.Value();
    copy := sw2.Value();
    var _ := sw1.Stop(t3);
    sw1.Restart(t4);
    final := sw1.Value();
  }
}
