// The current engine's controller (src/cpu/controller.cpp): the instruction
// register plus a step counter that fetches, then plays the microcode steps
// of the instruction held in IR. The microcode table itself is compiled in
// from a file that is not part of this model, so it is a parameter here.
module CpuController {
  import opened Bits
  import opened Errors
  import opened SystemBus
  import Ids
  import CpuRegister

  /** What a microcode step does; `NoAction` is the all-zero action of an unprogrammed step. */
  datatype Action = NoAction | XData | XAddr | IO | Other

  datatype MicroCodeStep = MicroCodeStep(action: Action, src: byte, target: byte, opflags: byte)

  /** One table entry: the opcode it was written for, its mnemonic and its programmed steps. */
  datatype MicroCode = MicroCode(opcode: byte, instruction: string, steps: seq<MicroCodeStep>)

  /** The step an unprogrammed slot reads as. */
  const NoStep: MicroCodeStep := MicroCodeStep(NoAction, 0, 0, 0)

  /** The table is indexed by any value of the instruction register, so it has 256 entries. */
  type Table = t: seq<MicroCode> | |t| == 256 witness seq(256, _ => MicroCode(0, "", []))

  /** Controller::instruction: the mnemonic, or "hlt" when the entry belongs to another opcode. */
  function Instruction(table: Table, ir: byte): (s: string)
    ensures table[ir].opcode == ir ==> s == table[ir].instruction
    ensures table[ir].opcode != ir ==> s == "hlt"
  {
    if table[ir].opcode != ir then "hlt" else table[ir].instruction
  }

  /** Controller::findMicroCodeStep: `steps[step - 2]` of the entry for IR; slots past the programmed ones are zero. */
  function FindStep(table: Table, ir: byte, step: byte): MicroCodeStep
    requires step >= 2
  {
    var steps := table[ir].steps;
    if step as int - 2 < |steps| then steps[step as int - 2] else NoStep
  }

  /** The bus, the step counter and the error after one low clock. */
  datatype Effect = Effect(bus: Lines, step: byte, err: SystemError)

  /**
   * The counter while a step runs: a step carrying Done sets it to -1
   * (0xFF), so that the final `step++` brings it to 0.
   */
  function Held(mc: MicroCodeStep, step: byte): byte {
    if mc.opflags & Done != 0 then 0xFF else step
  }

  /** The default branch of Controller::onLowClock: carry out one microcode step. */
  function Execute(mc: MicroCodeStep, step: byte, b: Lines): Effect {
    match mc.action
    case NoAction => Effect(b, step, InvalidInstruction)
    case XData => Effect(b.Xdata(mc.src, mc.target, mc.opflags & Mask), Held(mc, step) + 1, NoError)
    case XAddr => Effect(b.Xaddr(mc.src, mc.target, mc.opflags & Mask), Held(mc, step) + 1, NoError)
    case Other =>
      if mc.opflags & Mask == Halt then Effect(b.Stop(), Held(mc, step) + 1, NoError)
      else Effect(b, Held(mc, step), InvalidMicroCode)
    case IO => Effect(b, Held(mc, step), InvalidMicroCode)
  }

  /**
   * Controller::onLowClock: the two fetch steps, then the instruction's
   * microcode. An error returns before the final increment.
   */
  function Low(table: Table, ir: byte, step: byte, b: Lines): Effect {
    if step == 0 then Effect(b.Xaddr(Ids.PC, Ids.MEMADDR, Inc), 1, NoError)
    else if step == 1 then Effect(b.Xdata(Ids.MEM, Ids.IR, OpNone), 2, NoError)
    else Execute(FindStep(table, ir, step), step, b)
  }

  /** Step 0 sends PC to the memory pointer with Inc; step 1 loads IR from memory. */
  lemma FetchSteps(table: Table, ir: byte, b: Lines)
    ensures Low(table, ir, 0, b) == Effect(b.Xaddr(Ids.PC, Ids.MEMADDR, Inc), 1, NoError)
    ensures Low(table, ir, 1, b) == Effect(b.Xdata(Ids.MEM, Ids.IR, OpNone), 2, NoError)
  {
  }

  /** A step the controller can carry out without an error. */
  predicate Executable(mc: MicroCodeStep) {
    mc.action == XData || mc.action == XAddr || (mc.action == Other && mc.opflags & Mask == Halt)
  }

  /** The bus after an executable step: the transfer with Done stripped, or halt asserted. */
  function Issued(mc: MicroCodeStep, b: Lines): Lines {
    match mc.action
    case XData => b.Xdata(mc.src, mc.target, mc.opflags & Mask)
    case XAddr => b.Xaddr(mc.src, mc.target, mc.opflags & Mask)
    case _ => b.Stop()
  }

  /**
   * An executable step puts its transfer on the bus with the Done bit
   * masked off (or asserts halt), and moves the counter to the next step,
   * or to 0 when it carries Done.
   */
  lemma ExecutableStepAdvances(mc: MicroCodeStep, step: byte, b: Lines)
    requires Executable(mc)
    ensures Execute(mc, step, b) == Effect(Issued(mc, b), if mc.opflags & Done != 0 then 0 else step + 1, NoError)
  {
  }

  /** The opflags forwarded to the bus never carry the Done bit. */
  lemma DoneIsStripped(mc: MicroCodeStep, b: Lines)
    requires mc.action == XData || mc.action == XAddr
    ensures Issued(mc, b).op & Done == 0
    ensures Issued(mc, b).op == mc.opflags & Mask
  {
  }

  /** Step k >= 2 carries out entry k - 2 of the steps programmed for IR. */
  lemma ExecutesProgrammedStep(table: Table, ir: byte, step: byte, b: Lines)
    requires 2 <= step && step as int - 2 < |table[ir].steps|
    ensures Low(table, ir, step, b) == Execute(table[ir].steps[step as int - 2], step, b)
  {
  }

  /**
   * An unprogrammed step is InvalidInstruction; an IO action or an OTHER
   * action without Halt is InvalidMicroCode. Neither touches the bus, and
   * the counter is not advanced (it is left at 0xFF when the failing step
   * carried Done).
   */
  lemma ErrorsLeaveStep(mc: MicroCodeStep, step: byte, b: Lines)
    requires !Executable(mc)
    ensures Execute(mc, step, b).bus == b
    ensures mc.action == NoAction ==> Execute(mc, step, b) == Effect(b, step, InvalidInstruction)
    ensures mc.action != NoAction ==>
      Execute(mc, step, b) == Effect(b, if mc.opflags & Done != 0 then 0xFF else step, InvalidMicroCode)
  {
  }

  /** A step past the programmed ones is an unprogrammed step. */
  lemma PastProgramIsInvalid(table: Table, ir: byte, step: byte, b: Lines)
    requires 2 <= step && step as int - 2 >= |table[ir].steps|
    ensures Low(table, ir, step, b) == Effect(b, step, InvalidInstruction)
  {
  }

  /** `k` low clocks in a row with IR held at `ir`, stopping at the first error. */
  function Clocks(table: Table, ir: byte, step: byte, b: Lines, k: nat): Effect
    decreases k
  {
    if k == 0 then Effect(b, step, NoError)
    else
      var e := Low(table, ir, step, b);
      if e.err != NoError then e else Clocks(table, ir, e.step, e.bus, k - 1)
  }

  /** The first of `k` clean low clocks, then the other `k - 1`. */
  lemma ClocksFirst(table: Table, ir: byte, step: byte, b: Lines, k: nat)
    requires k > 0 && Low(table, ir, step, b).err == NoError
    ensures var e := Low(table, ir, step, b); Clocks(table, ir, step, b, k) == Clocks(table, ir, e.step, e.bus, k - 1)
  {
  }

  /**
   * An instruction of `n` programmed steps: every step executable, only
   * the last one carrying Done, and short enough that the byte counter
   * does not wrap.
   */
  predicate Completes(steps: seq<MicroCodeStep>, n: nat) {
    1 <= n <= |steps| && n + 2 <= 255 &&
    (forall j :: 0 <= j < n ==> Executable(steps[j])) &&
    (forall j :: 0 <= j < n - 1 ==> steps[j].opflags & Done == 0) &&
    steps[n - 1].opflags & Done != 0
  }

  /** One clock of step j + 2 of a completing instruction. */
  lemma CompletingStep(table: Table, ir: byte, step: byte, b: Lines, n: nat)
    requires Completes(table[ir].steps, n) && 2 <= step as int < n + 2
    ensures Low(table, ir, step, b).err == NoError
    ensures step as int < n + 1 ==> Low(table, ir, step, b).step as int == step as int + 1
    ensures step as int == n + 1 ==> Low(table, ir, step, b).step == 0
  {
    var mc := table[ir].steps[step as int - 2];
    ExecutesProgrammedStep(table, ir, step, b);
    ExecutableStepAdvances(mc, step, b);
  }

  lemma {:induction false} RemainingSteps(table: Table, ir: byte, step: byte, b: Lines, n: nat)
    requires Completes(table[ir].steps, n) && 2 <= step as int < n + 2
    ensures Clocks(table, ir, step, b, n + 2 - step as int) == Effect(Clocks(table, ir, step, b, n + 2 - step as int).bus, 0, NoError)
    ensures forall k :: 0 < k < n + 2 - step as int ==>
      Clocks(table, ir, step, b, k).step as int == step as int + k && Clocks(table, ir, step, b, k).err == NoError
    decreases n + 2 - step as int
  {
    CompletingStep(table, ir, step, b, n);
    var e := Low(table, ir, step, b);
    ClocksFirst(table, ir, step, b, n + 2 - step as int);
    if step as int < n + 1 {
      RemainingSteps(table, ir, e.step, e.bus, n);
      forall k | 0 < k < n + 2 - step as int
        ensures Clocks(table, ir, step, b, k) == Clocks(table, ir, e.step, e.bus, k - 1)
      {
        ClocksFirst(table, ir, step, b, k);
      }
    }
  }

  /**
   * An instruction of `n` programmed steps takes exactly n + 2 low clocks:
   * the counter is back at 0 after n + 2 of them and at no point before.
   */
  lemma {:induction false} InstructionTakesStepsPlusTwo(table: Table, ir: byte, b: Lines, n: nat)
    requires Completes(table[ir].steps, n)
    ensures Clocks(table, ir, 0, b, n + 2).err == NoError
    ensures Clocks(table, ir, 0, b, n + 2).step == 0
    ensures forall k :: 0 < k < n + 2 ==> Clocks(table, ir, 0, b, k).step != 0
  {
    var b1 := Low(table, ir, 0, b).bus;
    var b2 := Low(table, ir, 1, b1).bus;
    RemainingSteps(table, ir, 2, b2, n);
    assert Clocks(table, ir, 0, b, n + 2) == Clocks(table, ir, 2, b2, n);
    forall k | 0 < k < n + 2 ensures Clocks(table, ir, 0, b, k).step != 0 {
      if k == 1 {
        assert Clocks(table, ir, 0, b, 1).step == 1;
      } else {
        assert Clocks(table, ir, 0, b, k) == Clocks(table, ir, 2, b2, k - 2);
      }
    }
  }

  /** The controller: the IR register plus the step counter, sharing the bus. */
  class Controller {
    const id: byte
    var value: byte
    var step: byte
    const table: Table
    const bus: SystemBus

    constructor (microCode: Table, sharedBus: SystemBus)
      ensures id == Ids.IR && value == 0 && step == 0 && table == microCode && bus == sharedBus
    {
      id := Ids.IR;
      value := 0;
      step := 0;
      table := microCode;
      bus := sharedBus;
    }

    function InstructionName(): string
      reads this
    {
      Instruction(table, value)
    }

    /** Controller::reset: the register's reset, then the step counter. */
    method Reset() returns (err: SystemError)
      modifies this
      ensures value == 0 && step == 0 && err == NoError
    {
      value := 0;
      step := 0;
      err := NoError;
    }

    /** The inherited register drive: IR's value onto the data bus. */
    method OnRisingClockEdge() returns (err: SystemError)
      modifies bus
      ensures bus.State() == CpuRegister.Rising(id, value, old(bus.State()))
      ensures err == NoError
    {
      if !bus.xdata && bus.get == id {
        bus.PutOnDataBus(value);
      }
      err := NoError;
    }

    /** The inherited register latch: the fetched opcode into IR. */
    method OnHighClock() returns (err: SystemError)
      modifies this
      ensures value == CpuRegister.High(id, old(value), bus.State()) && step == old(step)
      ensures err == NoError
    {
      if !bus.xdata && bus.put == id {
        value := bus.dataBus;
      }
      err := NoError;
    }

    /** The switch on the action of an executable step: the transfer or the halt goes on the bus. */
    method Issue(mc: MicroCodeStep)
      requires Executable(mc)
      modifies bus
      ensures bus.State() == Issued(mc, old(bus.State()))
    {
      match mc.action {
        case XData =>
          bus.Xdata(mc.src, mc.target, mc.opflags & Mask);
        case XAddr =>
          bus.Xaddr(mc.src, mc.target, mc.opflags & Mask);
        case Other =>
          bus.Stop();
      }
    }

    /**
     * One microcode step; a step carrying Done parks the counter at 0xFF
     * first. An IO action, or an OTHER action without Halt, fails before
     * the bus is touched.
     */
    method ExecuteStep(mc: MicroCodeStep) returns (err: SystemError)
      modifies this, bus
      ensures Effect(bus.State(), step, err) == Execute(mc, old(step), old(bus.State()))
      ensures value == old(value)
    {
      if mc.action == NoAction {
        return InvalidInstruction;
      }
      if mc.opflags & Done != 0 {
        step := 0xFF;
      }
      if !Executable(mc) {
        ErrorsLeaveStep(mc, old(step), bus.State());
        return InvalidMicroCode;
      }
      ExecutableStepAdvances(mc, old(step), old(bus.State()));
      Issue(mc);
      step := step + 1;
      err := NoError;
    }

    method OnLowClock() returns (err: SystemError)
      modifies this, bus
      ensures Effect(bus.State(), step, err) == Low(table, value, old(step), old(bus.State()))
      ensures value == old(value)
    {
      if step == 0 {
        bus.Xaddr(Ids.PC, Ids.MEMADDR, Inc);
        step := 1;
        err := NoError;
      } else if step == 1 {
        bus.Xdata(Ids.MEM, Ids.IR, OpNone);
        step := 2;
        err := NoError;
      } else {
        err := ExecuteStep(FindStep(table, value, step));
      }
    }
  }
}
