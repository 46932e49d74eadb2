// The test harness of the current engine (include/harness.h): a container
// that runs whole clock cycles over its units, counts the cycles a program
// completes, and can start a cycle from explicitly set bus wires.
module Harness {
  import opened Bits
  import opened Errors
  import opened SystemBus
  import opened Components
  import Ids
  import Clock

  /** The harness's bus and units. */
  datatype Bench = Bench(bus: Lines, units: seq<Unit>)

  /** A bench after some phases, and the error that ended them. */
  datatype Ran = Ran(bench: Bench, err: SystemError)

  /** Harness::run's result: the bench, the error it records, and the number of completed cycles. */
  datatype Outcome = Outcome(bench: Bench, err: SystemError, count: nat)

  /** One of the harness's phase hooks: every unit in order, to the first error. */
  function HookRound(h: Hook, b: Bench): Ran {
    var f := Dispatch(h, b.units, b.bus, 0);
    Ran(Bench(f.bus, f.units), f.err)
  }

  /** Harness::cycle(num): rising, high, falling and low; an error skips the later phases. */
  function CycleOf(b: Bench): Ran {
    var r1 := HookRound(Hook.Rising, b);
    if r1.err != NoError then r1
    else
      var r2 := HookRound(Hook.High, r1.bench);
      if r2.err != NoError then r2
      else
        var r3 := HookRound(Hook.Falling, r2.bench);
        if r3.err != NoError then r3
        else HookRound(Hook.Low, r3.bench)
  }

  /** The harness's phase hooks seen as clock callbacks; the harness never stops a clock. */
  function Phase(e: Clock.Edge, b: Bench): Clock.Reaction<Bench> {
    var r := HookRound(HookOf(e), b);
    Clock.Reaction(r.bench, r.err, false)
  }

  /**
   * A harness cycle is one pass of the clock's loop body over the same
   * hooks, so it calls the phases in cycle order and no phase after a
   * failing one.
   */
  lemma CycleIsOnePass(b: Bench)
    ensures var p := Clock.OnePass(Phase, b);
      CycleOf(b) == Ran(p.state, p.err) && !p.stop &&
      p.called == Clock.FullCycle[..|p.called|] &&
      (p.err == NoError ==> p.called == Clock.FullCycle) && (|p.called| < 4 ==> p.err != NoError)
  {
    var r1 := HookRound(Hook.Rising, b);
    if r1.err == NoError {
      var r2 := HookRound(Hook.High, r1.bench);
      if r2.err == NoError {
        var r3 := HookRound(Hook.Falling, r2.bench);
        if r3.err == NoError {
          assert Clock.PassFrom(Phase, r3.bench, false, 3) == Clock.PassFrom(Phase, r3.bench, false, 3);
        }
        assert Clock.PassFrom(Phase, r2.bench, false, 2) == Clock.PassFrom(Phase, r2.bench, false, 2);
      }
      assert Clock.PassFrom(Phase, r1.bench, false, 1) == Clock.PassFrom(Phase, r1.bench, false, 1);
    }
    Clock.PassCallsInOrder(Phase, b);
  }

  /** `n` applications of `step`, ending early at the first failing one. */
  function RepeatBy(step: Bench -> Ran, b: Bench, n: nat): Ran
    decreases n
  {
    if n == 0 then Ran(b, NoError)
    else
      var c := step(b);
      if c.err != NoError then c else RepeatBy(step, c.bench, n - 1)
  }

  /** `n` cycles, ending early at the first failing one. */
  function Repeat(b: Bench, n: nat): Ran {
    RepeatBy(CycleOf, b, n)
  }

  /** Running `m` steps without error and then `n` more is running `m + n`. */
  lemma {:induction false} RepeatComposes(step: Bench -> Ran, b: Bench, m: nat, n: nat)
    requires RepeatBy(step, b, m).err == NoError
    ensures RepeatBy(step, b, m + n) == RepeatBy(step, RepeatBy(step, b, m).bench, n)
    decreases m
  {
    if m > 0 {
      var c := step(b);
      assert RepeatBy(step, b, m) == RepeatBy(step, c.bench, m - 1);
      RepeatComposes(step, c.bench, m - 1, n);
    }
  }

  /** The first of `n` steps: it fails, or the other `n - 1` follow from its result. */
  lemma RepeatFirst(step: Bench -> Ran, b: Bench, n: nat)
    requires n > 0
    ensures step(b).err != NoError ==> RepeatBy(step, b, n) == step(b)
    ensures step(b).err == NoError ==> RepeatBy(step, b, n) == RepeatBy(step, step(b).bench, n - 1)
  {
  }

  /** One more step after `n` error-free ones. */
  lemma RepeatOneMore(step: Bench -> Ran, b: Bench, n: nat)
    requires RepeatBy(step, b, n).err == NoError
    ensures RepeatBy(step, b, n + 1) == step(RepeatBy(step, b, n).bench)
  {
    RepeatComposes(step, b, n, 1);
    assert RepeatBy(step, RepeatBy(step, b, n).bench, 1) == step(RepeatBy(step, b, n).bench);
  }

  /** The do-while test of Harness::run after `i` completed cycles: halt not asserted and the limit not reached. */
  predicate Continues(b: Bench, limit: int, i: nat) {
    !b.bus.Halted() && (limit == -1 || i < limit)
  }

  /**
   * The loop of Harness::run from completed-cycle count `i`: run a cycle;
   * an error leaves with `i`; otherwise count it and test. At most
   * `fuel` further cycles follow this one.
   */
  function Loop(b: Bench, limit: int, i: nat, fuel: nat): Outcome
    decreases fuel
  {
    var c := CycleOf(b);
    if c.err != NoError then Outcome(c.bench, c.err, i)
    else if fuel > 0 && Continues(c.bench, limit, i + 1) then Loop(c.bench, limit, i + 1, fuel - 1)
    else Outcome(c.bench, NoError, i + 1)
  }

  /** Harness::run(debug, cycles): the recorded error is cleared and the loop starts at zero. */
  function RunOf(b: Bench, limit: int, fuel: nat): Outcome {
    Loop(b, limit, 0, fuel)
  }

  /**
   * The count is the number of cycles completed without error: they leave
   * the bench as returned, or the next one fails with the error returned.
   */
  lemma {:induction false} LoopCountsCompletedCycles(b: Bench, limit: int, i: nat, fuel: nat)
    ensures var r := Loop(b, limit, i, fuel);
      i <= r.count <= i + fuel + 1 &&
      Repeat(b, r.count - i).err == NoError &&
      (r.err == NoError ==> r.count > i && Repeat(b, r.count - i).bench == r.bench) &&
      (r.err != NoError ==> CycleOf(Repeat(b, r.count - i).bench) == Ran(r.bench, r.err))
    decreases fuel
  {
    var c := CycleOf(b);
    if c.err == NoError && fuel > 0 && Continues(c.bench, limit, i + 1) {
      var r := Loop(c.bench, limit, i + 1, fuel - 1);
      assert Loop(b, limit, i, fuel) == r;
      LoopCountsCompletedCycles(c.bench, limit, i + 1, fuel - 1);
      assert Repeat(b, r.count - i) == Repeat(c.bench, r.count - (i + 1));
    } else if c.err == NoError {
      assert Repeat(b, 1) == Repeat(c.bench, 0);
    }
  }

  /** No cycle before the last left the loop's test false. */
  lemma {:induction false} LoopDidNotStopEarlier(b: Bench, limit: int, i: nat, fuel: nat, k: nat)
    requires 1 <= k < Loop(b, limit, i, fuel).count - i
    ensures Continues(Repeat(b, k).bench, limit, i + k)
    decreases fuel
  {
    var c := CycleOf(b);
    if c.err == NoError && fuel > 0 && Continues(c.bench, limit, i + 1) {
      assert Loop(b, limit, i, fuel) == Loop(c.bench, limit, i + 1, fuel - 1);
      assert Repeat(b, k) == Repeat(c.bench, k - 1);
      if k > 1 {
        LoopDidNotStopEarlier(c.bench, limit, i + 1, fuel - 1, k - 1);
      }
    }
  }

  /** An error-free run ends because halt is asserted, the limit is reached, or the fuel is spent. */
  lemma {:induction false} LoopEndsOnHaltOrLimit(b: Bench, limit: int, i: nat, fuel: nat)
    requires Loop(b, limit, i, fuel).err == NoError
    ensures var r := Loop(b, limit, i, fuel); !Continues(r.bench, limit, r.count) || r.count == i + fuel + 1
    decreases fuel
  {
    var c := CycleOf(b);
    if fuel > 0 && Continues(c.bench, limit, i + 1) {
      assert Loop(b, limit, i, fuel) == Loop(c.bench, limit, i + 1, fuel - 1);
      LoopEndsOnHaltOrLimit(c.bench, limit, i + 1, fuel - 1);
    }
  }

  function Max1(limit: int): nat {
    if limit > 1 then limit else 1
  }

  /** A cycle limit other than -1 bounds the count; the first cycle always runs, so a limit below 1 gives at most 1. */
  lemma {:induction false} LoopRespectsLimit(b: Bench, limit: int, i: nat, fuel: nat)
    requires limit != -1 && i < Max1(limit)
    ensures Loop(b, limit, i, fuel).count <= Max1(limit)
    decreases fuel
  {
    var c := CycleOf(b);
    if c.err == NoError && fuel > 0 && Continues(c.bench, limit, i + 1) {
      assert Loop(b, limit, i, fuel) == Loop(c.bench, limit, i + 1, fuel - 1);
      LoopRespectsLimit(c.bench, limit, i + 1, fuel - 1);
    }
  }

  /** With a limit of at least 1, fuel that covers the limit gives the same result as any more fuel. */
  lemma {:induction false} FuelBeyondLimitIsIrrelevant(b: Bench, limit: int, i: nat, f1: nat, f2: nat)
    requires limit >= 1 && i + f1 + 1 >= limit && i + f2 + 1 >= limit
    ensures Loop(b, limit, i, f1) == Loop(b, limit, i, f2)
    decreases f1
  {
    var c := CycleOf(b);
    if c.err == NoError && Continues(c.bench, limit, i + 1) {
      assert f1 > 0 && f2 > 0;
      assert Loop(b, limit, i, f1) == Loop(c.bench, limit, i + 1, f1 - 1);
      assert Loop(b, limit, i, f2) == Loop(c.bench, limit, i + 1, f2 - 1);
      FuelBeyondLimitIsIrrelevant(c.bench, limit, i + 1, f1 - 1, f2 - 1);
    }
  }

  /**
   * Harness::run executes at least one cycle; the count it returns is the
   * number of cycles completed without error; an error-free run stops
   * after the first cycle that leaves halt asserted or reaches the limit;
   * and a limit other than -1 bounds the count.
   */
  lemma RunCountsCycles(b: Bench, limit: int, fuel: nat)
    ensures var r := RunOf(b, limit, fuel);
      Repeat(b, r.count).err == NoError &&
      (r.err != NoError ==> CycleOf(Repeat(b, r.count).bench) == Ran(r.bench, r.err)) &&
      (r.err == NoError ==>
        r.count >= 1 && Repeat(b, r.count).bench == r.bench &&
        (!Continues(r.bench, limit, r.count) || r.count == fuel + 1)) &&
      (limit != -1 ==> r.count <= Max1(limit))
    ensures var r := RunOf(b, limit, fuel);
      forall k :: 1 <= k < r.count ==> Continues(Repeat(b, k).bench, limit, k)
  {
    var r := RunOf(b, limit, fuel);
    LoopCountsCompletedCycles(b, limit, 0, fuel);
    if r.err == NoError {
      LoopEndsOnHaltOrLimit(b, limit, 0, fuel);
    }
    if limit != -1 {
      LoopRespectsLimit(b, limit, 0, fuel);
    }
    forall k | 1 <= k < r.count
      ensures Continues(Repeat(b, k).bench, limit, k)
    {
      LoopDidNotStopEarlier(b, limit, 0, fuel, k);
    }
  }

  /** A failing first cycle is not counted. */
  lemma FailingFirstCycleCountsZero(b: Bench, limit: int, fuel: nat)
    requires CycleOf(b).err != NoError
    ensures RunOf(b, limit, fuel) == Outcome(CycleOf(b).bench, CycleOf(b).err, 0)
  {
  }

  /** Harness::cycle(xdata, xaddr, get, put, opflags, data, addr): initialise the bus, then one cycle. */
  function WiredCycle(b: Bench, xd: bool, xa: bool, getReg: byte, putReg: byte, opflags: byte, dataVal: byte, addrVal: byte): Ran {
    CycleOf(b.(bus := b.bus.Initialize(xd, xa, getReg, putReg, opflags, dataVal, addrVal)))
  }

  /**
   * A cycle started from wires that ask for a GP_A to GP_B data transfer
   * copies A into B, leaves A alone, and leaves A's byte on the data bus.
   */
  lemma TransferCycle(x: byte, y: byte, b: Lines)
    ensures var r := WiredCycle(Bench(b, [Reg(Ids.GP_A, x), Reg(Ids.GP_B, y)]), false, true, Ids.GP_A, Ids.GP_B, 0, 0, 0);
      r.err == NoError && r.bench.units == [Reg(Ids.GP_A, x), Reg(Ids.GP_B, x)] && r.bench.bus.dataBus == x
  {
    var b0 := b.Initialize(false, true, Ids.GP_A, Ids.GP_B, 0, 0, 0);
    var us := [Reg(Ids.GP_A, x), Reg(Ids.GP_B, y)];
    var vs := [Reg(Ids.GP_A, x), Reg(Ids.GP_B, x)];
    RegisterTransfer(x, y, b0);
    var r := Dispatch(Hook.Rising, us, b0, 0);
    var b1 := r.bus;
    assert HookRound(Hook.Rising, Bench(b0, us)) == Ran(Bench(b1, r.units), NoError);
    assert HookRound(Hook.High, Bench(b1, r.units)) == Ran(Bench(b1, vs), NoError);
    FallingIsInert(vs, b1, 0);
    assert HookRound(Hook.Falling, Bench(b1, vs)) == Ran(Bench(b1, vs), NoError);
    RegistersIgnoreLow(vs, b1, 0);
  }

  class Harness {
    var bus: Lines
    var units: seq<Unit>
    var error: SystemError

    function State(): Bench
      reads this
    {
      Bench(bus, units)
    }

    constructor (us: seq<Unit>)
      ensures units == us && error == NoError && PowerOn(bus)
    {
      bus := Lines(0, 0, 0, 0, 0, true, true, true, true, true, false, true, 0);
      units := us;
      error := NoError;
    }

    /** onRisingClockEdge, onHighClock, onFallingClockEdge and onLowClock: one hook over every unit. */
    method Round(h: Hook) returns (err: SystemError)
      modifies this
      ensures Ran(State(), err) == HookRound(h, old(State())) && error == old(error)
    {
      var f := ForAllComponents(h, units, bus);
      units, bus, err := f.units, f.bus, f.err;
    }

    method Cycle() returns (err: SystemError)
      modifies this
      ensures Ran(State(), err) == CycleOf(old(State())) && error == old(error)
    {
      err := Round(Hook.Rising);
      if err == NoError {
        err := Round(Hook.High);
        if err == NoError {
          err := Round(Hook.Falling);
          if err == NoError {
            err := Round(Hook.Low);
          }
        }
      }
    }

    /** Harness::run with the cycle limit `limit` (-1 for none) and at most `fuel` cycles after the first. */
    method Run(limit: int, fuel: nat) returns (count: nat)
      modifies this
      ensures Outcome(State(), error, count) == RunOf(old(State()), limit, fuel)
    {
      error := NoError;
      count := 0;
      var n: nat := fuel;
      while true
        invariant RunOf(old(State()), limit, fuel) == Loop(State(), limit, count, n)
        decreases n
      {
        ghost var before := State();
        error := Cycle();
        if error != NoError {
          return;
        }
        count := count + 1;
        if !(n > 0 && Continues(State(), limit, count)) {
          return;
        }
        n := n - 1;
        assert Loop(before, limit, count - 1, n + 1) == Loop(State(), limit, count, n);
      }
    }

    /** Harness::cycles(count): `count` cycles, returning the first error. */
    method Cycles(count: int) returns (err: SystemError)
      modifies this
      ensures Ran(State(), err) == Repeat(old(State()), if count < 0 then 0 else count)
      ensures error == old(error)
    {
      var i := 0;
      ghost var n: nat := if count < 0 then 0 else count;
      while i < count
        invariant 0 <= i <= n && error == old(error)
        invariant Repeat(old(State()), n) == Repeat(State(), n - i)
        decreases count - i
      {
        ghost var before := State();
        err := Cycle();
        RepeatFirst(CycleOf, before, n - i);
        if err != NoError {
          return;
        }
        i := i + 1;
      }
      err := NoError;
    }

    /** Harness::cycle with explicit wires. */
    method CycleFrom(xd: bool, xa: bool, getReg: byte, putReg: byte, opflags: byte, dataVal: byte, addrVal: byte)
      returns (err: SystemError)
      modifies this
      ensures Ran(State(), err) == WiredCycle(old(State()), xd, xa, getReg, putReg, opflags, dataVal, addrVal)
      ensures error == old(error)
    {
      bus := bus.Initialize(xd, xa, getReg, putReg, opflags, dataVal, addrVal);
      err := Cycle();
    }
  }
}
