// The system clock (include/clock.h, src/clock.cpp). Clock::start drives
// its owner through the four phases of a cycle until a phase fails or the
// owner stops the clock. The owner's state is a value of type S and its
// four callbacks a function of the phase; a callback that calls stop()
// says so in its Reaction. Pacing (tick, sleep) is left out, and the
// unbounded loop carries a bound on the number of cycles, `fuel`.
module Clock {
  import opened Errors

  /** The four callbacks, in the order one cycle calls them. */
  datatype Edge = RisingEdge | HighClock | FallingEdge | LowClock

  datatype ClockState = Running | Stopped

  /** Clock::Cycle; start sets it to Low and nothing else changes it. */
  datatype Cycle = High | Low

  /** One callback's result: the owner's new state, its error, and whether it stopped the clock. */
  datatype Reaction<S> = Reaction(state: S, err: SystemError, stop: bool)

  /** One pass of the loop body: the owner's state, the error, whether the clock was stopped, and the callbacks made. */
  datatype Pass<S> = Pass(state: S, err: SystemError, stop: bool, called: seq<Edge>)

  /** Clock::start's result with the clock's final state. */
  datatype Outcome<S> = Outcome(state: S, err: SystemError, clock: ClockState)

  const FullCycle: seq<Edge> := [RisingEdge, HighClock, FallingEdge, LowClock]

  /** Callbacks `i` onwards of one cycle, leaving at the first error; `stop` accumulates. */
  function PassFrom<S>(hook: (Edge, S) -> Reaction<S>, s: S, stop: bool, i: nat): Pass<S>
    requires i <= 4
    decreases 4 - i
  {
    if i == 4 then Pass(s, NoError, stop, [])
    else
      var r := hook(FullCycle[i], s);
      if r.err != NoError then Pass(r.state, r.err, stop || r.stop, [FullCycle[i]])
      else
        var rest := PassFrom(hook, r.state, stop || r.stop, i + 1);
        Pass(rest.state, rest.err, rest.stop, [FullCycle[i]] + rest.called)
  }

  /**
   * One iteration of the loop in Clock::start: Rising, High, Falling and
   * Low in that order; the first failing callback ends the pass, and no
   * later one is called.
   */
  function OnePass<S>(hook: (Edge, S) -> Reaction<S>, s: S): Pass<S> {
    PassFrom(hook, s, false, 0)
  }

  /** The callbacks from `i` on are made in cycle order, all of them unless one fails. */
  lemma {:induction false} PassFromCallsInOrder<S>(hook: (Edge, S) -> Reaction<S>, s: S, stop: bool, i: nat)
    requires i <= 4
    ensures var p := PassFrom(hook, s, stop, i);
      p.called <= FullCycle[i..] && (i < 4 ==> p.called != []) &&
      (p.err == NoError ==> p.called == FullCycle[i..]) &&
      (|p.called| < 4 - i ==> p.err != NoError) &&
      (stop ==> p.stop)
    decreases 4 - i
  {
    if i < 4 {
      var r := hook(FullCycle[i], s);
      if r.err == NoError {
        PassFromCallsInOrder(hook, r.state, stop || r.stop, i + 1);
      }
    }
  }

  /**
   * A pass calls Rising first and then the others in order, up to the first
   * failing one: all four when none fails, fewer only after an error.
   */
  lemma PassCallsInOrder<S>(hook: (Edge, S) -> Reaction<S>, s: S)
    ensures var p := OnePass(hook, s);
      1 <= |p.called| <= 4 && p.called == FullCycle[..|p.called|] &&
      (p.err == NoError ==> p.called == FullCycle) &&
      (|p.called| < 4 ==> p.err != NoError)
  {
    PassFromCallsInOrder(hook, s, false, 0);
  }

  /** A pass in which no callback fails: the four callbacks one after the other. */
  lemma CleanPass<S>(hook: (Edge, S) -> Reaction<S>, s0: S, s1: S, s2: S, s3: S, s4: S,
                     stop1: bool, stop2: bool, stop3: bool, stop4: bool)
    requires hook(RisingEdge, s0) == Reaction(s1, NoError, stop1)
    requires hook(HighClock, s1) == Reaction(s2, NoError, stop2)
    requires hook(FallingEdge, s2) == Reaction(s3, NoError, stop3)
    requires hook(LowClock, s3) == Reaction(s4, NoError, stop4)
    ensures OnePass(hook, s0) == Pass(s4, NoError, stop1 || stop2 || stop3 || stop4, FullCycle)
  {
    var p4 := PassFrom(hook, s4, stop1 || stop2 || stop3 || stop4, 4);
    var p3 := PassFrom(hook, s3, stop1 || stop2 || stop3, 3);
    assert p3 == Pass(s4, NoError, stop1 || stop2 || stop3 || stop4, [LowClock]);
    var p2 := PassFrom(hook, s2, stop1 || stop2, 2);
    assert p2 == Pass(s4, NoError, stop1 || stop2 || stop3 || stop4, [FallingEdge, LowClock]);
    var p1 := PassFrom(hook, s1, stop1, 1);
    assert p1 == Pass(s4, NoError, stop1 || stop2 || stop3 || stop4, [HighClock, FallingEdge, LowClock]);
  }

  /** Clock::start: loop while there is no error and the clock runs; at most `fuel` passes. */
  function Run<S>(hook: (Edge, S) -> Reaction<S>, s: S, fuel: nat): Outcome<S>
    decreases fuel
  {
    if fuel == 0 then Outcome(s, NoError, Running)
    else
      var p := OnePass(hook, s);
      var clock := if p.stop then Stopped else Running;
      if p.err != NoError || clock == Stopped then Outcome(p.state, p.err, clock)
      else Run(hook, p.state, fuel - 1)
  }

  /** The loop has come to an end: an error, or the clock stopped. */
  predicate Ended<S>(r: Outcome<S>) {
    r.err != NoError || r.clock == Stopped
  }

  /** The error returned is the one of the first failing callback, and the loop ends with it. */
  lemma FailingPassEndsRun<S>(hook: (Edge, S) -> Reaction<S>, s: S, fuel: nat)
    requires fuel > 0 && OnePass(hook, s).err != NoError
    ensures Run(hook, s, fuel).err == OnePass(hook, s).err
    ensures Run(hook, s, fuel).state == OnePass(hook, s).state
  {
  }

  /** A stop() during a pass is observed at the next loop test: that pass is the last. */
  lemma StopIsObservedAtNextTest<S>(hook: (Edge, S) -> Reaction<S>, s: S, fuel: nat)
    requires fuel > 0 && OnePass(hook, s).stop
    ensures Run(hook, s, fuel) == Outcome(OnePass(hook, s).state, OnePass(hook, s).err, Stopped)
  {
  }

  /** Running `a` passes and then `b` more is running `a + b` passes. */
  lemma {:induction false} RunComposes<S>(hook: (Edge, S) -> Reaction<S>, s: S, a: nat, b: nat)
    requires !Ended(Run(hook, s, a))
    ensures Run(hook, s, a + b) == Run(hook, Run(hook, s, a).state, b)
    decreases a
  {
    if a > 0 {
      var p := OnePass(hook, s);
      assert Run(hook, s, a) == Run(hook, p.state, a - 1);
      RunComposes(hook, p.state, a - 1, b);
    }
  }

  /** Once the loop has ended, more fuel changes nothing. */
  lemma {:induction false} EndedIsFinal<S>(hook: (Edge, S) -> Reaction<S>, s: S, a: nat, b: nat)
    requires Ended(Run(hook, s, a))
    ensures Run(hook, s, a + b) == Run(hook, s, a)
    decreases a
  {
    if a > 0 {
      var p := OnePass(hook, s);
      if p.err == NoError && !p.stop {
        assert Run(hook, s, a) == Run(hook, p.state, a - 1);
        EndedIsFinal(hook, p.state, a - 1, b);
      }
    }
  }

  /** The clock of a component: its phase and whether it runs. */
  class Clock<S(!new)> {
    var cycle: Cycle
    var state: ClockState

    constructor ()
      ensures cycle == Low && state == Stopped
    {
      cycle := Low;
      state := Stopped;
    }

    method Stop()
      modifies this
      ensures state == Stopped && cycle == old(cycle)
    {
      state := Stopped;
    }

    /** One callback inside the loop body. */
    static method Call(hook: (Edge, S) -> Reaction<S>, e: Edge, s: S, stop: bool) returns (s': S, err: SystemError, stop': bool)
      ensures s' == hook(e, s).state && err == hook(e, s).err && stop' == (stop || hook(e, s).stop)
    {
      var r := hook(e, s);
      s', err, stop' := r.state, r.err, stop || r.stop;
    }

    /** The body of the for loop: the four callbacks, leaving at the first error. */
    static method Body(hook: (Edge, S) -> Reaction<S>, s: S) returns (s': S, err: SystemError, stop: bool)
      ensures var p := OnePass(hook, s); s' == p.state && err == p.err && stop == p.stop
    {
      s', err, stop := Call(hook, RisingEdge, s, false);
      if err == NoError {
        s', err, stop := Call(hook, HighClock, s', stop);
        if err == NoError {
          s', err, stop := Call(hook, FallingEdge, s', stop);
          if err == NoError {
            s', err, stop := Call(hook, LowClock, s', stop);
          }
        }
      }
    }

    /** Clock::start, with at most `fuel` passes of the loop. */
    method Start(hook: (Edge, S) -> Reaction<S>, s: S, fuel: nat) returns (s': S, err: SystemError)
      modifies this
      ensures Outcome(s', err, state) == Run(hook, s, fuel) && cycle == Low
    {
      cycle := Low;
      err := NoError;
      s' := s;
      state := Running;
      var n: nat := fuel;
      while err == NoError && state == Running && n > 0
        invariant n <= fuel && cycle == Low
        invariant err == NoError && state == Running ==> Run(hook, s, fuel) == Run(hook, s', n)
        invariant !(err == NoError && state == Running) ==> Run(hook, s, fuel) == Outcome(s', err, state)
        decreases n
      {
        var stop;
        s', err, stop := Body(hook, s');
        if stop {
          state := Stopped;
        }
        n := n - 1;
      }
      if err == NoError && state == Running {
        assert Run(hook, s', n) == Outcome(s', err, state);
      }
    }
  }
}
