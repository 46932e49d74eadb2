// The units of the current engine as values, and the in-order dispatch of
// one clock hook over them. A container (BackPlane, Harness) owns the bus
// and an ordered list of units; each hook is offered to every unit in list
// order and the first error ends the round.
module Components {
  import opened Bits
  import opened Errors
  import opened SystemBus
  import Ids
  import Banks
  import CpuRegister
  import CpuAddressRegister
  import Alu
  import CpuController
  import Clock

  type BankList = bs: seq<Banks.Bank> | Banks.ValidBanks(bs) witness []

  /**
   * One slot of the container. `Empty` is a null slot; `Arith` is the ALU,
   * whose left-operand register is the unit at index `lhsAt`; `Mem` is the
   * banked memory with its pointer; `Ctl` is the controller with its
   * microcode table.
   */
  datatype Unit =
    | Empty
    | Reg(id: byte, value: byte)
    | AddrReg(id: byte, address: word)
    | Arith(id: byte, rhs: byte, lhsAt: nat)
    | Mem(banks: BankList, pointer: word)
    | Ctl(table: CpuController.Table, ir: byte, step: byte)

  /** Component::reset and the four clock hooks. */
  datatype Hook = Reset | Rising | High | Falling | Low

  /** The hook a clock callback runs. */
  function HookOf(e: Clock.Edge): Hook {
    match e
    case RisingEdge => Rising
    case HighClock => High
    case FallingEdge => Falling
    case LowClock => Low
  }

  /** A unit after one hook, the bus lines, and the hook's error. */
  datatype Reacted = Reacted(unit: Unit, bus: Lines, err: SystemError)

  /** Every unit and the bus after one or more hooks, and the error that ended the round. */
  datatype Fired = Fired(units: seq<Unit>, bus: Lines, err: SystemError)

  /** The state each unit's reset leaves: values zero, memory banks kept, the ALU link kept. */
  function Cleared(u: Unit): (r: Unit)
    ensures Shape(r) == Shape(u)
  {
    match u
    case Empty => Empty
    case Reg(id, _) => Reg(id, 0)
    case AddrReg(id, _) => AddrReg(id, 0)
    case Arith(id, _, at) => Arith(id, 0, at)
    case Mem(bs, _) => Mem(bs, 0)
    case Ctl(t, _, _) => Ctl(t, 0, 0)
  }

  /** What a unit is, with its state forgotten: its kind, its id, its table and its link. */
  function Shape(u: Unit): Unit {
    match u
    case Empty => Empty
    case Reg(id, _) => Reg(id, 0)
    case AddrReg(id, _) => AddrReg(id, 0)
    case Arith(id, _, at) => Arith(id, 0, at)
    case Mem(_, _) => Mem([], 0)
    case Ctl(t, _, _) => Ctl(t, 0, 0)
  }

  predicate SameShape(us: seq<Unit>, vs: seq<Unit>) {
    |us| == |vs| && forall k :: 0 <= k < |us| ==> Shape(us[k]) == Shape(vs[k])
  }

  lemma HighKeepsBanksValid(bs: BankList, pointer: word, b: Lines)
    ensures Banks.ValidBanks(Banks.High(bs, pointer, b).banks)
  {
    var w := Banks.WriteRam(bs, pointer as int, b.dataBus);
    assert Banks.ValidBanks(w.0);
  }

  /** The high clock of the memory keeps every bank's extent, so the list stays well formed. */
  function MemHigh(bs: BankList, pointer: word, b: Lines): (r: Reacted)
    ensures r.unit.Mem? && r.bus == b
    ensures r.err == Banks.High(bs, pointer, b).err
    ensures r.unit.pointer == Banks.High(bs, pointer, b).pointer && r.unit.banks == Banks.High(bs, pointer, b).banks
  {
    var o := Banks.High(bs, pointer, b);
    HighKeepsBanksValid(bs, pointer, b);
    Reacted(Mem(o.banks, o.pointer), b, o.err)
  }

  /**
   * One unit's own reaction to a hook. An ALU's high clock reaches its
   * left-operand register too, so Fire handles a linked ALU; here an ALU
   * acts as the register holding its right operand.
   */
  function React(h: Hook, u: Unit, b: Lines): (r: Reacted)
    ensures Shape(r.unit) == Shape(u)
    ensures h == Reset ==> r == Reacted(Cleared(u), b, NoError)
    ensures h == Falling ==> r == Reacted(u, b, NoError)
    ensures r.err != NoError ==> u.Mem? || u.Ctl?
  {
    match u
    case Empty => Reacted(u, b, NoError)
    case Reg(id, v) =>
      if h == Reset then Reacted(Cleared(u), b, NoError)
      else if h == Rising then Reacted(u, CpuRegister.Rising(id, v, b), NoError)
      else if h == High then Reacted(Reg(id, CpuRegister.High(id, v, b)), b, NoError)
      else Reacted(u, b, NoError)
    case AddrReg(id, v) =>
      if h == Reset then Reacted(Cleared(u), b, NoError)
      else if h == Rising then
        var (l, v') := CpuAddressRegister.Rising(id, v, b);
        Reacted(AddrReg(id, v'), l, NoError)
      else if h == High then Reacted(AddrReg(id, CpuAddressRegister.High(id, v, b)), b, NoError)
      else Reacted(u, b, NoError)
    case Arith(id, rhs, at) =>
      if h == Reset then Reacted(Cleared(u), b, NoError)
      else if h == Rising then Reacted(u, CpuRegister.Rising(id, rhs, b), NoError)
      else if h == High then Reacted(Arith(id, CpuRegister.High(id, rhs, b), at), b, NoError)
      else Reacted(u, b, NoError)
    case Mem(bs, p) =>
      if h == Reset then Reacted(Cleared(u), b, NoError)
      else if h == Rising then
        var (l, e) := Banks.Rising(bs, p, b);
        Reacted(u, l, e)
      else if h == High then MemHigh(bs, p, b)
      else Reacted(u, b, NoError)
    case Ctl(t, ir, step) =>
      if h == Reset then Reacted(Cleared(u), b, NoError)
      else if h == Rising then Reacted(u, CpuRegister.Rising(Ids.IR, ir, b), NoError)
      else if h == High then Reacted(Ctl(t, CpuRegister.High(Ids.IR, ir, b), step), b, NoError)
      else if h == Low then
        var e := CpuController.Low(t, ir, step, b);
        Reacted(Ctl(t, ir, e.step), e.bus, e.err)
      else Reacted(u, b, NoError)
  }

  /** Unit `k` is an ALU whose link names a register other than itself. */
  predicate Linked(units: seq<Unit>, k: nat) {
    k < |units| && units[k].Arith? && units[k].lhsAt < |units| && units[units[k].lhsAt].Reg?
  }

  /** The ALU's high clock: latch the right operand, operate, and write the left-operand register. */
  function AluHigh(units: seq<Unit>, k: nat, b: Lines): (r: Fired)
    requires Linked(units, k)
    ensures SameShape(units, r.units) && r.err == NoError
  {
    var at := units[k].lhsAt;
    var o := Alu.High(units[k].id, units[k].rhs, units[at].value, b);
    Fired(units[k := Arith(units[k].id, o.rhs, at)][at := Reg(units[at].id, o.lhs)], o.bus, NoError)
  }

  /** Offer hook `h` to unit `k`. */
  function Fire(h: Hook, units: seq<Unit>, k: nat, b: Lines): (r: Fired)
    requires k < |units|
    ensures SameShape(units, r.units)
    ensures h == Reset ==> r == Fired(units[k := Cleared(units[k])], b, NoError)
    ensures h == Falling ==> r == Fired(units, b, NoError)
    ensures r.err != NoError ==> units[k].Mem? || units[k].Ctl?
  {
    if h == High && Linked(units, k) then AluHigh(units, k, b)
    else
      var s := React(h, units[k], b);
      Fired(units[k := s.unit], s.bus, s.err)
  }

  /**
   * ComponentContainer::forAllComponents from unit `from` on: each unit in
   * list order, stopping at the first error, which is returned.
   */
  function Dispatch(h: Hook, units: seq<Unit>, b: Lines, from: nat): (r: Fired)
    requires from <= |units|
    ensures SameShape(units, r.units)
    decreases |units| - from
  {
    if from == |units| then Fired(units, b, NoError)
    else
      var f := Fire(h, units, from, b);
      if f.err != NoError then f else Dispatch(h, f.units, f.bus, from + 1)
  }

  /**
   * The loop of ComponentContainer::forAllComponents, shared by the
   * containers: offer the hook to each unit in order and leave at the first
   * error.
   */
  method ForAllComponents(h: Hook, units: seq<Unit>, b: Lines) returns (r: Fired)
    ensures r == Dispatch(h, units, b, 0)
  {
    var i := 0;
    var us, bus := units, b;
    while i < |us|
      invariant 0 <= i <= |us| && |us| == |units|
      invariant Dispatch(h, units, b, 0) == Dispatch(h, us, bus, i)
      decreases |us| - i
    {
      var f := Fire(h, us, i, bus);
      if f.err != NoError {
        return f;
      }
      us, bus := f.units, f.bus;
      i := i + 1;
    }
    r := Fired(us, bus, NoError);
  }

  /** No unit reacts to the falling edge: the round changes nothing. */
  lemma {:induction false} FallingIsInert(units: seq<Unit>, b: Lines, from: nat)
    requires from <= |units|
    ensures Dispatch(Falling, units, b, from) == Fired(units, b, NoError)
    decreases |units| - from
  {
    if from < |units| {
      FallingIsInert(units, b, from + 1);
    }
  }

  /** Registers do nothing on the low clock: a round over registers only changes nothing. */
  lemma {:induction false} RegistersIgnoreLow(units: seq<Unit>, b: Lines, from: nat)
    requires from <= |units| && forall i :: from <= i < |units| ==> units[i].Reg?
    ensures Dispatch(Low, units, b, from) == Fired(units, b, NoError)
    decreases |units| - from
  {
    if from < |units| {
      assert units[from := units[from]] == units;
      RegistersIgnoreLow(units, b, from + 1);
    }
  }

  /** The units from `from` on reset, the ones before it as they were. */
  function ClearedFrom(units: seq<Unit>, from: nat): (r: seq<Unit>)
    ensures |r| == |units|
  {
    seq(|units|, i requires 0 <= i < |units| => if i < from then units[i] else Cleared(units[i]))
  }

  /** A reset round clears every unit, leaves the bus alone and never fails. */
  lemma {:induction false} ResetClearsEveryUnit(units: seq<Unit>, b: Lines, from: nat)
    requires from <= |units|
    ensures Dispatch(Reset, units, b, from) == Fired(ClearedFrom(units, from), b, NoError)
    decreases |units| - from
  {
    if from == |units| {
      assert ClearedFrom(units, from) == units;
    } else {
      var us := units[from := Cleared(units[from])];
      ResetClearsEveryUnit(us, b, from + 1);
      assert ClearedFrom(us, from + 1) == ClearedFrom(units, from);
    }
  }

  /** Only the memory and the controller report errors, so a round over other units never fails. */
  lemma {:induction false} ErrorsComeFromMemoryOrController(h: Hook, units: seq<Unit>, b: Lines, from: nat)
    requires from <= |units|
    ensures Dispatch(h, units, b, from).err != NoError ==>
      exists k :: from <= k < |units| && (units[k].Mem? || units[k].Ctl?)
    decreases |units| - from
  {
    if from < |units| {
      var f := Fire(h, units, from, b);
      if f.err == NoError {
        ErrorsComeFromMemoryOrController(h, f.units, f.bus, from + 1);
        if Dispatch(h, units, b, from).err != NoError {
          var k :| from + 1 <= k < |units| && (f.units[k].Mem? || f.units[k].Ctl?);
          assert Shape(f.units[k]) == Shape(units[k]);
        }
      }
    }
  }

  /** A register-to-register transfer: the source drives on the rising edge, the destination latches on the high clock. */
  lemma RegisterTransfer(x: byte, y: byte, b: Lines)
    requires b.DataTransfer() && b.get == Ids.GP_A && b.put == Ids.GP_B
    ensures var r := Dispatch(Rising, [Reg(Ids.GP_A, x), Reg(Ids.GP_B, y)], b, 0);
      r.err == NoError && r.bus.dataBus == x &&
      Dispatch(High, r.units, r.bus, 0) == Fired([Reg(Ids.GP_A, x), Reg(Ids.GP_B, x)], r.bus, NoError)
  {
    var us := [Reg(Ids.GP_A, x), Reg(Ids.GP_B, y)];
    var b1 := b.PutOnDataBus(x);
    assert Fire(Rising, us, 0, b) == Fired(us, b1, NoError);
    assert Fire(Rising, us, 1, b1) == Fired(us, b1, NoError);
    assert Dispatch(Rising, us, b1, 2) == Fired(us, b1, NoError);
    assert Dispatch(Rising, us, b1, 1) == Fired(us, b1, NoError);
    var vs := [Reg(Ids.GP_A, x), Reg(Ids.GP_B, x)];
    assert Fire(High, us, 0, b1) == Fired(us, b1, NoError);
    assert Fire(High, us, 1, b1) == Fired(vs, b1, NoError);
    assert Dispatch(High, vs, b1, 2) == Fired(vs, b1, NoError);
    assert Dispatch(High, us, b1, 1) == Fired(vs, b1, NoError);
  }
}
