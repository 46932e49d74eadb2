// The current engine's BackPlane (src/cpu/backplane.cpp,
// src/include/backplane.h): the container that owns the bus and the units,
// keeps the first error, alternates a SystemClock and an IOClock phase, and
// stops its clock when the halt line is asserted after a high or low clock.
module Backplane {
  import opened Bits
  import opened Errors
  import opened Wrappers
  import opened SystemBus
  import opened Components
  import Clock

  /** BackPlane::ClockPhase. */
  datatype Phase = SystemClock | IOClock

  function Toggled(ph: Phase): Phase {
    if ph == SystemClock then IOClock else SystemClock
  }

  /** A BackPlane's state: the bus, the units in insertion order, the recorded error and the phase. */
  datatype Plane = Plane(bus: Lines, units: seq<Unit>, error: SystemError, phase: Phase)

  /**
   * BackPlane::onClockEvent: a recorded error comes back at once, the
   * units hear the hook only in the SystemClock phase, and the IOClock
   * phase does nothing.
   */
  function Event(h: Hook, p: Plane): (r: Fired)
    ensures p.error != NoError ==> r == Fired(p.units, p.bus, p.error)
    ensures p.error == NoError && p.phase == IOClock ==> r == Fired(p.units, p.bus, NoError)
  {
    if p.error != NoError then Fired(p.units, p.bus, p.error)
    else if p.phase == SystemClock then Dispatch(h, p.units, p.bus, 0)
    else Fired(p.units, p.bus, NoError)
  }

  /**
   * BackPlane::onRisingClockEdge. Its status() round is diagnostics that
   * always answer NoError, so the reportError branch is not taken; the
   * error of the round is returned but not recorded.
   */
  function RisingPhase(p: Plane): Clock.Reaction<Plane> {
    var f := Event(Hook.Rising, p);
    Clock.Reaction(p.(bus := f.bus, units := f.units), f.err, false)
  }

  /** BackPlane::onHighClock: the error is recorded, and with none the halt line stops the clock. */
  function HighPhase(p: Plane): Clock.Reaction<Plane> {
    var f := Event(Hook.High, p);
    Clock.Reaction(p.(bus := f.bus, units := f.units, error := f.err), f.err, f.err == NoError && f.bus.Halted())
  }

  /** BackPlane::onFallingClockEdge: the error is returned, not recorded. */
  function FallingPhase(p: Plane): Clock.Reaction<Plane> {
    var f := Event(Hook.Falling, p);
    Clock.Reaction(p.(bus := f.bus, units := f.units), f.err, false)
  }

  /** BackPlane::onLowClock: as onHighClock, and then the phase flips, error or not. */
  function LowPhase(p: Plane): Clock.Reaction<Plane> {
    var f := Event(Hook.Low, p);
    Clock.Reaction(p.(bus := f.bus, units := f.units, error := f.err, phase := Toggled(p.phase)),
      f.err, f.err == NoError && f.bus.Halted())
  }

  /** The callbacks the clock makes into the BackPlane. */
  function Tick(e: Clock.Edge, p: Plane): Clock.Reaction<Plane> {
    match e
    case RisingEdge => RisingPhase(p)
    case HighClock => HighPhase(p)
    case FallingEdge => FallingPhase(p)
    case LowClock => LowPhase(p)
  }

  /**
   * BackPlane::reset: a recorded error comes back at once; otherwise the
   * bus is reset, then every unit, and the answer is NoError.
   */
  function AfterReset(p: Plane): (Plane, SystemError) {
    if p.error != NoError then (p, p.error)
    else (p.(bus := p.bus.Reset(), units := Dispatch(Hook.Reset, p.units, p.bus.Reset(), 0).units), NoError)
  }

  /** BackPlane::reportError: NoError passes through; an error stops the clock and is returned. */
  function Reported(p: Plane): Clock.Reaction<Plane> {
    Clock.Reaction(p, p.error, p.error != NoError)
  }

  /** BackPlane::controller()->getValue(): the instruction register of the first controller. */
  function ControllerIR(units: seq<Unit>): (r: Option<byte>)
    ensures r.Some? <==> exists k :: 0 <= k < |units| && units[k].Ctl?
    ensures r.Some? ==> exists k :: 0 <= k < |units| && units[k].Ctl? && units[k].ir == r.value
  {
    if |units| == 0 then None
    else if units[0].Ctl? then Some(units[0].ir)
    else
      var r := ControllerIR(units[1..]);
      assert forall k :: 1 <= k < |units| ==> units[k] == units[1..][k - 1];
      r
  }

  /** BackPlane::run: reset first when IR holds the halt opcode `hlt`, then start the clock. */
  function RunFrom(p: Plane, hlt: byte, fuel: nat): Clock.Outcome<Plane> {
    var start := if ControllerIR(p.units) == Some(hlt) then AfterReset(p).0 else p;
    Clock.Run(Tick, start, fuel)
  }

  /** A phase entered with a recorded error returns it, dispatches nothing and does not stop the clock. */
  lemma RecordedErrorIsSticky(e: Clock.Edge, p: Plane)
    requires p.error != NoError
    ensures Tick(e, p).err == p.error && !Tick(e, p).stop
    ensures Tick(e, p).state == if e == Clock.LowClock then p.(phase := Toggled(p.phase)) else p
    ensures AfterReset(p) == (p, p.error)
  {
  }

  /** In the IOClock phase no unit hears the hook; only the halt test remains. */
  lemma IOClockIsQuiet(e: Clock.Edge, p: Plane)
    requires p.error == NoError && p.phase == IOClock
    ensures Tick(e, p).err == NoError
    ensures Tick(e, p).state == if e == Clock.LowClock then p.(phase := SystemClock) else p
    ensures Tick(e, p).stop <==> (e == Clock.HighClock || e == Clock.LowClock) && p.bus.Halted()
  {
  }

  /** Only the low clock moves the phase, and it always flips it. */
  lemma PhaseAlternates(e: Clock.Edge, p: Plane)
    ensures Tick(e, p).state.phase == if e == Clock.LowClock then Toggled(p.phase) else p.phase
    ensures Toggled(p.phase) != p.phase && Toggled(Toggled(p.phase)) == p.phase
  {
  }

  /**
   * The clock is stopped by a high or low clock exactly when it ends
   * without error and with the halt line asserted; the rising and falling
   * edges never stop it.
   */
  lemma HaltStopsTheClock(e: Clock.Edge, p: Plane)
    ensures Tick(e, p).stop <==>
      (e == Clock.HighClock || e == Clock.LowClock) && Tick(e, p).err == NoError && Tick(e, p).state.bus.Halted()
  {
  }

  /** High and low record their error; rising and falling leave the record as it was. */
  lemma WhichPhasesRecord(e: Clock.Edge, p: Plane)
    ensures e == Clock.HighClock || e == Clock.LowClock ==> Tick(e, p).state.error == Tick(e, p).err
    ensures e == Clock.RisingEdge || e == Clock.FallingEdge ==> Tick(e, p).state.error == p.error
  {
  }

  /** The falling edge changes nothing at all. */
  lemma FallingEdgeIsInert(p: Plane)
    ensures Tick(Clock.FallingEdge, p) == Clock.Reaction(p, p.error, false)
  {
    FallingIsInert(p.units, p.bus, 0);
  }

  /** reportError stops the clock exactly when there is an error, and returns it. */
  lemma ReportErrorStopsOnError(p: Plane)
    ensures Reported(p).err == p.error && Reported(p).state == p
    ensures Reported(p).stop <==> p.error != NoError
  {
  }

  /** With no recorded error, reset resets the bus and every unit and answers NoError. */
  lemma ResetClearsEverything(p: Plane)
    requires p.error == NoError
    ensures AfterReset(p) == (p.(bus := p.bus.Reset(), units := ClearedFrom(p.units, 0)), NoError)
  {
    ResetClearsEveryUnit(p.units, p.bus.Reset(), 0);
  }

  /** run starts from the reset state when IR holds the halt opcode, and from the current state otherwise. */
  lemma RunResetsAfterHalt(p: Plane, hlt: byte, fuel: nat)
    requires p.error == NoError
    ensures ControllerIR(p.units) == Some(hlt) ==>
      RunFrom(p, hlt, fuel) == Clock.Run(Tick, p.(bus := p.bus.Reset(), units := ClearedFrom(p.units, 0)), fuel)
    ensures ControllerIR(p.units) != Some(hlt) ==> RunFrom(p, hlt, fuel) == Clock.Run(Tick, p, fuel)
  {
    ResetClearsEverything(p);
  }

  class BackPlane {
    var bus: Lines
    var units: seq<Unit>
    var error: SystemError
    var phase: Phase
    const clock: Clock.Clock<Plane>

    function State(): Plane
      reads this
    {
      Plane(bus, units, error, phase)
    }

    /** A BackPlane with the given units, the bus at power-on, and the clock stopped. */
    constructor (us: seq<Unit>)
      ensures units == us && error == NoError && phase == SystemClock && PowerOn(bus)
      ensures fresh(clock) && clock.state == Clock.Stopped
    {
      bus := Lines(0, 0, 0, 0, 0, true, true, true, true, true, false, true, 0);
      units := us;
      error := NoError;
      phase := SystemClock;
      clock := new Clock.Clock();
    }

    method OnClockEvent(h: Hook) returns (err: SystemError)
      modifies this
      ensures Fired(units, bus, err) == Event(h, old(State()))
      ensures error == old(error) && phase == old(phase)
    {
      if error != NoError {
        return error;
      }
      if phase == SystemClock {
        var f := ForAllComponents(h, units, bus);
        units, bus, err := f.units, f.bus, f.err;
      } else {
        err := NoError;
      }
    }

    method Stop()
      modifies clock
      ensures clock.state == Clock.Stopped && clock.cycle == old(clock.cycle)
    {
      clock.Stop();
    }

    /** Stop the clock when the reaction says so. */
    method StopIf(stop: bool)
      modifies clock
      ensures clock.state == if stop then Clock.Stopped else old(clock.state)
      ensures clock.cycle == old(clock.cycle)
    {
      if stop {
        clock.Stop();
      }
    }

    method OnRisingClockEdge() returns (err: SystemError)
      modifies this
      ensures Clock.Reaction(State(), err, false) == RisingPhase(old(State()))
    {
      err := OnClockEvent(Hook.Rising);
    }

    method OnHighClock() returns (err: SystemError)
      modifies this, clock
      ensures State() == HighPhase(old(State())).state && err == HighPhase(old(State())).err
      ensures clock.state == if HighPhase(old(State())).stop then Clock.Stopped else old(clock.state)
    {
      error := OnClockEvent(Hook.High);
      StopIf(error == NoError && bus.Halted());
      err := error;
    }

    method OnFallingClockEdge() returns (err: SystemError)
      modifies this
      ensures Clock.Reaction(State(), err, false) == FallingPhase(old(State()))
    {
      err := OnClockEvent(Hook.Falling);
    }

    method OnLowClock() returns (err: SystemError)
      modifies this, clock
      ensures State() == LowPhase(old(State())).state && err == LowPhase(old(State())).err
      ensures clock.state == if LowPhase(old(State())).stop then Clock.Stopped else old(clock.state)
    {
      error := OnClockEvent(Hook.Low);
      StopIf(error == NoError && bus.Halted());
      phase := if phase == SystemClock then IOClock else SystemClock;
      err := error;
    }

    method ReportError() returns (err: SystemError)
      modifies clock
      ensures err == Reported(State()).err
      ensures clock.state == if Reported(State()).stop then Clock.Stopped else old(clock.state)
    {
      if error == NoError {
        return NoError;
      }
      clock.Stop();
      err := error;
    }

    method Reset() returns (err: SystemError)
      modifies this
      ensures (State(), err) == AfterReset(old(State()))
    {
      if error != NoError {
        return error;
      }
      bus := bus.Reset();
      ResetClearsEveryUnit(units, bus, 0);
      var f := ForAllComponents(Hook.Reset, units, bus);
      units := f.units;
      err := NoError;
    }

    method Run(hlt: byte, fuel: nat) returns (err: SystemError)
      modifies this, clock
      ensures Clock.Outcome(State(), err, clock.state) == RunFrom(old(State()), hlt, fuel)
    {
      if ControllerIR(units) == Some(hlt) {
        var ignored := Reset();
      }
      var p;
      p, err := clock.Start(Tick, State(), fuel);
      bus, units, error, phase := p.bus, p.units, p.error, p.phase;
    }
  }
}
