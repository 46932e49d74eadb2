// The earlier generation's controller (include/controller.h,
// src/controller.cpp): the instruction register plus a step counter. Its
// microcode is a list of (instruction, step) entries ended by an all-zero
// sentinel, searched front to back on every clock.
module RealController {
  import opened Bits
  import opened Errors
  import opened Wrappers
  import opened ControlLines
  import CpuRegister

  const OP_NONE: byte := 0x00
  const OP_INC: byte := 0x01
  const OP_DONE: byte := 0xF0
  const OP_MASK: byte := 0x0F
  const OP_HALT: byte := 0x0F

  // Component ids of include/realsystem.h.
  const IR: byte := 6
  const MEM: byte := 7
  const PC: byte := 8
  const MEMADDR: byte := 15

  /** MicroCode::Action, in declaration order: an all-zero entry is an XDATA entry. */
  datatype Action = XData | XAddr | IO | Other

  datatype MicroCode = MicroCode(instruction: byte, step: byte, action: Action, src: byte, target: byte, opflags: byte)

  /** The entry that ends the list: instruction and step both zero. */
  predicate Sentinel(mc: MicroCode) {
    mc.instruction == 0 && mc.step == 0
  }

  predicate Matches(mc: MicroCode, ir: byte, step: byte) {
    mc.instruction == ir && mc.step == step
  }

  /** Entry `k` is reached by the scan: it and every entry before it are not the sentinel. */
  predicate Listed(table: seq<MicroCode>, k: int) {
    0 <= k < |table| && forall j :: 0 <= j <= k ==> !Sentinel(table[j])
  }

  /** What findMicroCode promises of its answer. */
  ghost predicate FirstListedMatch(table: seq<MicroCode>, ir: byte, step: byte, r: Option<nat>) {
    match r
    case Some(k) =>
      Listed(table, k) && Matches(table[k], ir, step) &&
      forall j :: 0 <= j < k ==> !Matches(table[j], ir, step)
    case None =>
      forall k :: Listed(table, k) ==> !Matches(table[k], ir, step)
  }

  /**
   * Controller::findMicroCode from entry `from` on: the first entry
   * matching (IR, step) before the sentinel, or None. The scan also stops
   * at the end of the list.
   */
  function Find(table: seq<MicroCode>, ir: byte, step: byte, from: nat): (r: Option<nat>)
    requires from <= |table| && forall j :: 0 <= j < from ==> !Sentinel(table[j]) && !Matches(table[j], ir, step)
    ensures FirstListedMatch(table, ir, step, r)
    decreases |table| - from
  {
    if from == |table| || Sentinel(table[from]) then None
    else if Matches(table[from], ir, step) then Some(from)
    else Find(table, ir, step, from + 1)
  }

  /** There is only one answer findMicroCode could give. */
  lemma {:induction false} FirstListedMatchUnique(table: seq<MicroCode>, ir: byte, step: byte, r: Option<nat>, q: Option<nat>)
    requires FirstListedMatch(table, ir, step, r) && FirstListedMatch(table, ir, step, q)
    ensures r == q
  {
  }

  /** The linear search of Controller::findMicroCode. */
  method FindMicroCode(table: seq<MicroCode>, ir: byte, step: byte) returns (r: Option<nat>)
    ensures FirstListedMatch(table, ir, step, r)
  {
    var ix := 0;
    while ix < |table| && !Sentinel(table[ix])
      invariant 0 <= ix <= |table|
      invariant forall j :: 0 <= j < ix ==> !Sentinel(table[j]) && !Matches(table[j], ir, step)
    {
      if Matches(table[ix], ir, step) {
        return Some(ix);
      }
      ix := ix + 1;
    }
    r := None;
    if ix < |table| {
      assert forall k :: Listed(table, k) ==> k < ix;
    }
  }

  /** The wires, the step counter, the error and whether the clock was stopped, after one low clock. */
  datatype Effect = Effect(wires: Wires, step: byte, err: SystemError, stop: bool)

  /** The counter while an entry runs: any bit of OP_DONE sets it to -1 (0xFF) before the final increment. */
  function Held(mc: MicroCode, step: byte): byte {
    if mc.opflags & OP_DONE != 0 then 0xFF else step
  }

  /** The lines an XDATA or XADDR entry drives. */
  function Issued(mc: MicroCode, w: Wires): (r: Wires)
    requires mc.action == XData || mc.action == XAddr
    ensures r.control.DataTransfer() <==> mc.action == XData
    ensures r.control.AddrTransfer() <==> mc.action == XAddr
    ensures r.control.get == mc.src && r.control.put == mc.target && r.control.op == mc.opflags & OP_MASK
    ensures r.dataBus == w.dataBus && r.addrBus == w.addrBus
  {
    if mc.action == XData then w.Xdata(mc.src, mc.target, mc.opflags & OP_MASK)
    else w.Xaddr(mc.src, mc.target, mc.opflags & OP_MASK)
  }

  /** The switch on a found entry's action. OTHER with OP_HALT stops the system's clock. */
  function Execute(mc: MicroCode, step: byte, w: Wires): Effect {
    match mc.action
    case XData | XAddr => Effect(Issued(mc, w), Held(mc, step) + 1, NoError, false)
    case Other =>
      if mc.opflags & OP_MASK == OP_HALT then Effect(w, Held(mc, step) + 1, NoError, true)
      else Effect(w, Held(mc, step), InvalidMicroCode, false)
    case IO => Effect(w, Held(mc, step), InvalidMicroCode, false)
  }

  /** Controller::onLowClock. */
  function Low(table: seq<MicroCode>, ir: byte, step: byte, w: Wires): Effect {
    if step == 0 then Effect(w.Xaddr(PC, MEMADDR, OP_INC), 1, NoError, false)
    else if step == 1 then Effect(w.Xdata(MEM, IR, OP_NONE), 2, NoError, false)
    else match Find(table, ir, step, 0)
      case None => Effect(w, step, InvalidInstruction, false)
      case Some(k) => Execute(table[k], step, w)
  }

  /** Steps 0 and 1 are the fixed fetch: PC to the memory pointer with Inc, then memory to IR. */
  lemma FetchSteps(table: seq<MicroCode>, ir: byte, w: Wires)
    ensures Low(table, ir, 0, w) == Effect(w.Xaddr(PC, MEMADDR, OP_INC), 1, NoError, false)
    ensures Low(table, ir, 1, w) == Effect(w.Xdata(MEM, IR, OP_NONE), 2, NoError, false)
  {
  }

  /** With no listed entry for (IR, step) the clock fails with InvalidInstruction and nothing moves. */
  lemma MissingEntryIsInvalidInstruction(table: seq<MicroCode>, ir: byte, step: byte, w: Wires)
    requires step >= 2 && forall k :: Listed(table, k) ==> !Matches(table[k], ir, step)
    ensures Low(table, ir, step, w) == Effect(w, step, InvalidInstruction, false)
  {
    FirstListedMatchUnique(table, ir, step, Find(table, ir, step, 0), None);
  }

  /** A found entry is what the low clock runs. */
  lemma FoundEntryRuns(table: seq<MicroCode>, ir: byte, step: byte, w: Wires, k: nat)
    requires step >= 2 && FirstListedMatch(table, ir, step, Some(k))
    ensures Low(table, ir, step, w) == Execute(table[k], step, w)
  {
    FirstListedMatchUnique(table, ir, step, Find(table, ir, step, 0), Some(k));
  }

  /**
   * Running an entry: a transfer goes out with the upper nibble masked
   * off, OP_HALT stops the clock, and the counter moves on, or back to 0
   * when the entry carries OP_DONE. Any other OTHER operation and any IO
   * entry fail with InvalidMicroCode and change no line; the counter is
   * then left where OP_DONE put it, at 0xFF, or else where it was.
   */
  lemma EntryEffect(mc: MicroCode, step: byte, w: Wires)
    ensures var e := Execute(mc, step, w);
      e.err == NoError ==> e.step == (if mc.opflags & OP_DONE != 0 then 0 else step + 1)
    ensures var e := Execute(mc, step, w);
      e.err == NoError && mc.action != Other ==> e.wires.control.op == mc.opflags & OP_MASK && !e.stop
    ensures var e := Execute(mc, step, w);
      e.stop <==> mc.action == Other && mc.opflags & OP_MASK == OP_HALT
    ensures var e := Execute(mc, step, w);
      e.err != NoError <==> mc.action == IO || (mc.action == Other && mc.opflags & OP_MASK != OP_HALT)
    ensures var e := Execute(mc, step, w);
      e.err != NoError ==> e.wires == w && e.step == (if mc.opflags & OP_DONE != 0 then 0xFF else step)
  {
    match mc.action {
      case XData =>
      case XAddr =>
      case Other =>
      case IO =>
    }
  }

  /** The controller of the earlier system: IR plus the step counter. */
  class Controller {
    var value: byte
    var step: byte
    const table: seq<MicroCode>

    constructor (microCode: seq<MicroCode>)
      ensures value == 0 && step == 0 && table == microCode
    {
      value := 0;
      step := 0;
      table := microCode;
    }

    /** Controller::reset clears the step counter only; IR keeps its value. */
    method Reset() returns (err: SystemError)
      modifies this
      ensures step == 0 && value == old(value) && err == NoError
    {
      step := 0;
      err := NoError;
    }

    /** The inherited register drive of IR. */
    method OnRisingClockEdge(w: Wires) returns (w': Wires, err: SystemError)
      ensures w' == w.WithBuses(CpuRegister.Rising(IR, value, w.AsLines())) && err == NoError
    {
      w', err := w, NoError;
      if !w.control.xdata && w.control.get == IR {
        w' := w.(dataBus := value);
      }
    }

    /** The inherited register latch of IR. */
    method OnHighClock(w: Wires) returns (err: SystemError)
      modifies this
      ensures value == CpuRegister.High(IR, old(value), w.AsLines()) && step == old(step) && err == NoError
    {
      if !w.control.xdata && w.control.put == IR {
        value := w.dataBus;
      }
      err := NoError;
    }

    /** The found entry's part of the low clock, on the counter value `step`. */
    static method ExecuteEntry(mc: MicroCode, step: byte, w: Wires) returns (w': Wires, step': byte, err: SystemError, stop: bool)
      ensures Effect(w', step', err, stop) == Execute(mc, step, w)
    {
      var held := Held(mc, step);
      if mc.action == IO || (mc.action == Other && mc.opflags & OP_MASK != OP_HALT) {
        return w, held, InvalidMicroCode, false;
      }
      step', err := held + 1, NoError;
      if mc.action == Other {
        w', stop := w, true;
      } else {
        w', stop := Issued(mc, w), false;
      }
    }

    method OnLowClock(w: Wires) returns (w': Wires, err: SystemError, stop: bool)
      modifies this
      ensures Effect(w', step, err, stop) == Low(table, value, old(step), w) && value == old(value)
    {
      if step == 0 {
        w', err, stop := w.Xaddr(PC, MEMADDR, OP_INC), NoError, false;
        step := 1;
      } else if step == 1 {
        w', err, stop := w.Xdata(MEM, IR, OP_NONE), NoError, false;
        step := 2;
      } else {
        var found := FindMicroCode(table, value, step);
        if found.None? {
          MissingEntryIsInvalidInstruction(table, value, step, w);
          return w, InvalidInstruction, false;
        }
        FoundEntryRuns(table, value, step, w, found.value);
        w', step, err, stop := ExecuteEntry(table[found.value], step, w);
      }
    }
  }
}
