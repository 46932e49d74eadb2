// The earlier generation's system (include/realsystem.h, src/realsystem.cpp):
// sixteen component slots on the wires of the system, a clock, a recorded
// error, and a concrete microcode table. Each clock phase offers the hook to
// every slot in order; the first failure is recorded and stops the clock.
module RealSystem {
  import opened Bits
  import opened Errors
  import opened Wrappers
  import opened ControlLines
  import opened RealController
  import CpuRegister
  import CpuAddressRegister
  import TwoRegionMemory
  import Components
  import Clock

  // Component ids of include/realsystem.h not named by the controller.
  const GP_A: byte := 0
  const GP_B: byte := 1
  const GP_C: byte := 2
  const GP_D: byte := 3
  const SP: byte := 9
  const Si: byte := 10
  const Di: byte := 11
  const TX: byte := 12

  const MSB: byte := 0x08

  type ValidMemory = m: TwoRegionMemory.Memory | m.Valid() witness TwoRegionMemory.Memory(0, 0, 0, 0, [], [], 0)

  /** One slot of the component vector. `Dummy` is a DummyComponent, whose hooks do nothing. */
  datatype Part =
    | Dummy
    | Reg(id: byte, value: byte)
    | Addr(id: byte, address: word)
    | Ctl(ir: byte, step: byte)
    | Mem(memory: ValidMemory)

  /** A part after one hook: the part, the wires, the error, and whether it stopped the system. */
  datatype Reacted = Reacted(part: Part, wires: Wires, err: SystemError, stop: bool)

  /** Every part and the wires after a round, the error that ended it, and whether anything stopped the system. */
  datatype Fired = Fired(parts: seq<Part>, wires: Wires, err: SystemError, stop: bool)

  /** The state of a RealSystem: its wires, its component vector and its recorded error. */
  datatype Machine = Machine(wires: Wires, parts: seq<Part>, error: SystemError)

  /**
   * The microcode list of src/realsystem.cpp, in its order: NOP, the
   * loads of A, B, C and D (a constant, a byte at an address, another
   * register), HLT, and the all-zero entry that ends the list.
   */
  const Table: seq<MicroCode> := [Nop] + LoadsA + LoadsB + LoadsC + LoadsD + [Halt, End]

  const Nop: MicroCode := MicroCode(0x00, 2, XData, GP_A, GP_A, OP_DONE)
  const Halt: MicroCode := MicroCode(0xFF, 2, Other, GP_A, GP_A, OP_HALT | OP_DONE)
  const End: MicroCode := MicroCode(0x00, 0, XData, 0, 0, 0)

  /** Opcodes 0x01 to 0x05: A from a constant, from an address, from B, C or D. */
  const LoadsA: seq<MicroCode> := [
    MicroCode(0x01, 2, XAddr, PC, MEMADDR, OP_INC),
    MicroCode(0x01, 3, XData, MEM, GP_A, OP_DONE),
    MicroCode(0x02, 2, XAddr, PC, MEMADDR, OP_INC),
    MicroCode(0x02, 3, XData, MEM, TX, OP_NONE),
    MicroCode(0x02, 4, XAddr, PC, MEMADDR, OP_INC),
    MicroCode(0x02, 5, XData, MEM, TX, MSB),
    MicroCode(0x02, 6, XAddr, TX, MEMADDR, OP_DONE),
    MicroCode(0x02, 7, XData, MEM, GP_A, OP_DONE),
    MicroCode(0x03, 2, XData, GP_B, GP_A, OP_DONE),
    MicroCode(0x04, 2, XData, GP_C, GP_A, OP_DONE),
    MicroCode(0x05, 2, XData, GP_D, GP_A, OP_DONE)
  ]

  /** Opcodes 0x06 to 0x0A: B from a constant, from an address, from A, C or D. */
  const LoadsB: seq<MicroCode> := [
    MicroCode(0x06, 2, XAddr, PC, MEMADDR, OP_INC),
    MicroCode(0x06, 3, XData, MEM, GP_B, OP_DONE),
    MicroCode(0x07, 2, XAddr, PC, MEMADDR, OP_INC),
    MicroCode(0x07, 3, XData, MEM, TX, OP_NONE),
    MicroCode(0x07, 4, XAddr, PC, MEMADDR, OP_INC),
    MicroCode(0x07, 5, XData, MEM, TX, MSB),
    MicroCode(0x07, 6, XAddr, TX, MEMADDR, OP_DONE),
    MicroCode(0x07, 7, XData, MEM, GP_B, OP_DONE),
    MicroCode(0x08, 2, XData, GP_A, GP_B, OP_DONE),
    MicroCode(0x09, 2, XData, GP_C, GP_B, OP_DONE),
    MicroCode(0x0A, 2, XData, GP_D, GP_B, OP_DONE)
  ]

  /** Opcodes 0x0B to 0x0F: C from a constant, from an address, from A, B or D. */
  const LoadsC: seq<MicroCode> := [
    MicroCode(0x0B, 2, XAddr, PC, MEMADDR, OP_INC),
    MicroCode(0x0B, 3, XData, MEM, GP_B, OP_DONE),
    MicroCode(0x0C, 2, XAddr, PC, MEMADDR, OP_INC),
    MicroCode(0x0C, 3, XData, MEM, TX, OP_NONE),
    MicroCode(0x0C, 4, XAddr, PC, MEMADDR, OP_INC),
    MicroCode(0x0C, 5, XData, MEM, TX, MSB),
    MicroCode(0x0C, 6, XAddr, TX, MEMADDR, OP_DONE),
    MicroCode(0x0C, 7, XData, MEM, GP_C, OP_DONE),
    MicroCode(0x0D, 2, XData, GP_A, GP_C, OP_DONE),
    MicroCode(0x0E, 2, XData, GP_B, GP_C, OP_DONE),
    MicroCode(0x0F, 2, XData, GP_D, GP_C, OP_DONE)
  ]

  /** Opcodes 0x10 to 0x14: D from a constant, from an address, from A, B or C. */
  const LoadsD: seq<MicroCode> := [
    MicroCode(0x10, 2, XAddr, PC, MEMADDR, OP_INC),
    MicroCode(0x10, 3, XData, MEM, GP_D, OP_DONE),
    MicroCode(0x11, 2, XAddr, PC, MEMADDR, OP_INC),
    MicroCode(0x11, 3, XData, MEM, TX, OP_NONE),
    MicroCode(0x11, 4, XAddr, PC, MEMADDR, OP_INC),
    MicroCode(0x11, 5, XData, MEM, TX, MSB),
    MicroCode(0x11, 6, XAddr, TX, MEMADDR, OP_DONE),
    MicroCode(0x11, 7, XData, MEM, GP_D, OP_DONE),
    MicroCode(0x12, 2, XData, GP_A, GP_D, OP_DONE),
    MicroCode(0x13, 2, XData, GP_B, GP_D, OP_DONE),
    MicroCode(0x14, 2, XData, GP_C, GP_D, OP_DONE)
  ]

  /**
   * The list as evidently intended: the step-6 entries of the four loads
   * from an address (opcodes 0x02, 0x07, 0x0C and 0x11) go on to step 7,
   * and MOV_C_CONST loads C.
   */
  const TableIntended: seq<MicroCode> :=
    Table[7 := Table[7].(opflags := OP_NONE)][18 := Table[18].(opflags := OP_NONE)]
         [24 := Table[24].(target := GP_C)]
         [29 := Table[29].(opflags := OP_NONE)][40 := Table[40].(opflags := OP_NONE)]

  /** Entries `i` and `i + 1` are the last two steps of a load of `reg` from an address: point at it, then read it. */
  predicate AddressLoad(table: seq<MicroCode>, i: nat, op: byte, reg: byte) {
    i + 1 < |table| &&
    table[i].instruction == op && table[i].step == 6 && table[i].action == XAddr &&
    table[i].src == TX && table[i].target == MEMADDR &&
    table[i + 1] == MicroCode(op, 7, XData, MEM, reg, OP_DONE)
  }

  /** The entries of opcode 0x02 are entries 3 to 8, after NOP and the two entries of opcode 0x01. */
  lemma MovAAddrEntries(table: seq<MicroCode>)
    requires |table| > 8 && forall j :: 0 <= j <= 8 && j != 7 ==> table[j] == Table[j]
    requires table[7].instruction == 0x02 && table[7].step == 6
    ensures FirstListedMatch(table, 0x02, 6, Some(7)) && FirstListedMatch(table, 0x02, 7, Some(8))
  {
    TableBeforeHalt();
    assert Table[0] == Nop;
    forall j | 1 <= j <= 8
      ensures Table[j] == LoadsA[j - 1]
    {
    }
    assert LoadsA[0].instruction == 0x01 && LoadsA[1].instruction == 0x01;
    assert LoadsA[2].step == 2 && LoadsA[3].step == 3 && LoadsA[4].step == 4;
    assert LoadsA[5].step == 5 && LoadsA[7].step == 7;
  }

  /**
   * As written, the step-6 entry of every load from an address carries
   * OP_DONE, so the counter returns to 0 and the step-7 load never runs:
   * for opcode 0x02 the controller's low clock on step 6 ends the instruction.
   */
  lemma AddressLoadsStopAtStepSix(w: Wires)
    ensures AddressLoad(Table, 7, 0x02, GP_A) && AddressLoad(Table, 18, 0x07, GP_B)
    ensures AddressLoad(Table, 29, 0x0C, GP_C) && AddressLoad(Table, 40, 0x11, GP_D)
    ensures Execute(Table[7], 6, w).step == 0 && Execute(Table[18], 6, w).step == 0
    ensures Execute(Table[29], 6, w).step == 0 && Execute(Table[40], 6, w).step == 0
    ensures FirstListedMatch(Table, 0x02, 6, Some(7)) && Low(Table, 0x02, 6, w).step == 0
  {
    MovAAddrEntries(Table);
    FoundEntryRuns(Table, 0x02, 6, w, 7);
  }

  /** In the intended list every load from an address goes on to step 7, which reads the byte into its register. */
  lemma AddressLoadsReachStepSeven(w: Wires)
    ensures AddressLoad(TableIntended, 7, 0x02, GP_A) && AddressLoad(TableIntended, 18, 0x07, GP_B)
    ensures AddressLoad(TableIntended, 29, 0x0C, GP_C) && AddressLoad(TableIntended, 40, 0x11, GP_D)
    ensures Execute(TableIntended[7], 6, w).step == 7 && Execute(TableIntended[18], 6, w).step == 7
    ensures Execute(TableIntended[29], 6, w).step == 7 && Execute(TableIntended[40], 6, w).step == 7
  {
  }

  /** For opcode 0x02 the controller's low clock on step 6 moves to step 7, and step 7 reads memory into GP_A and ends. */
  lemma MovAAddrRunsIntended(w: Wires)
    ensures Low(TableIntended, 0x02, 6, w).step == 7
    ensures Low(TableIntended, 0x02, 7, w) == Effect(w.Xdata(MEM, GP_A, OP_NONE), 0, NoError, false)
  {
    MovAAddrEntries(TableIntended);
    FoundEntryRuns(TableIntended, 0x02, 6, w, 7);
    FoundEntryRuns(TableIntended, 0x02, 7, w, 8);
  }

  /** Opcode 0x0B, MOV_C_CONST by name, loads GP_B. */
  lemma MovCConstLoadsB()
    ensures Table[24].instruction == 0x0B && Table[24].target == GP_B
  {
  }

  /** In the intended list MOV_C_CONST reads its constant into GP_C, as MOV_A_CONST does into GP_A. */
  lemma MovCConstLoadsC()
    ensures TableIntended[23] == Table[1].(instruction := 0x0B)
    ensures TableIntended[24] == Table[2].(instruction := 0x0B, target := GP_C)
  {
  }

  /** What a part is, its state forgotten: every memory shows as the same empty memory. */
  function Shape(p: Part): Part {
    match p
    case Dummy => Dummy
    case Reg(id, _) => Reg(id, 0)
    case Addr(id, _) => Addr(id, 0)
    case Ctl(_, _) => Ctl(0, 0)
    case Mem(_) => Mem(TwoRegionMemory.Allocated(0, 0, 0, 0, [], []))
  }

  /** The state each part's reset leaves: registers zero, the controller's step zero with IR kept, memory reset. */
  function Cleared(p: Part): (r: Part)
    ensures Shape(r) == Shape(p)
  {
    match p
    case Dummy => Dummy
    case Reg(id, _) => Reg(id, 0)
    case Addr(id, _) => Addr(id, 0)
    case Ctl(ir, _) => Ctl(ir, 0)
    case Mem(m) => Mem(TwoRegionMemory.Cleared(m))
  }

  /**
   * One part's hook. Registers and address registers move as on the
   * current engine's bus; the controller is register IR plus its low
   * clock; the memory reads and writes through its pointer.
   */
  function React(h: Components.Hook, p: Part, w: Wires): (r: Reacted)
    ensures Shape(r.part) == Shape(p)
    ensures h != Components.Low ==> r.wires.control == w.control && !r.stop
    ensures h == Components.Reset ==> r == Reacted(Cleared(p), w, NoError, false)
    ensures r.err != NoError ==> p.Mem? || p.Ctl?
  {
    match p
    case Dummy => Reacted(p, w, NoError, false)
    case Reg(id, v) =>
      if h == Components.Reset then Reacted(Cleared(p), w, NoError, false)
      else if h == Components.Rising then Reacted(p, w.WithBuses(CpuRegister.Rising(id, v, w.AsLines())), NoError, false)
      else if h == Components.High then Reacted(Reg(id, CpuRegister.High(id, v, w.AsLines())), w, NoError, false)
      else Reacted(p, w, NoError, false)
    case Addr(id, v) =>
      if h == Components.Reset then Reacted(Cleared(p), w, NoError, false)
      else if h == Components.Rising then
        var (l, v') := CpuAddressRegister.Rising(id, v, w.AsLines());
        Reacted(Addr(id, v'), w.WithBuses(l), NoError, false)
      else if h == Components.High then Reacted(Addr(id, CpuAddressRegister.High(id, v, w.AsLines())), w, NoError, false)
      else Reacted(p, w, NoError, false)
    case Ctl(ir, step) =>
      if h == Components.Reset then Reacted(Cleared(p), w, NoError, false)
      else if h == Components.Rising then Reacted(p, w.WithBuses(CpuRegister.Rising(IR, ir, w.AsLines())), NoError, false)
      else if h == Components.High then Reacted(Ctl(CpuRegister.High(IR, ir, w.AsLines()), step), w, NoError, false)
      else if h == Components.Low then
        var e := Low(Table, ir, step, w);
        Reacted(Ctl(ir, e.step), e.wires, e.err, e.stop)
      else Reacted(p, w, NoError, false)
    case Mem(m) =>
      if h == Components.Reset then Reacted(Cleared(p), w, NoError, false)
      else if h == Components.Rising then
        var (w', e) := TwoRegionMemory.Rising(m, w);
        Reacted(p, w', e, false)
      else if h == Components.High then
        var (m', e) := TwoRegionMemory.High(m, w);
        Reacted(Mem(m'), w, e, false)
      else Reacted(p, w, NoError, false)
  }

  /**
   * The loop over the component vector from slot `from`: each part in
   * order, leaving at the first error; a stop by any part is kept.
   */
  function Dispatch(h: Components.Hook, parts: seq<Part>, w: Wires, from: nat): (r: Fired)
    requires from <= |parts|
    ensures |r.parts| == |parts|
    ensures forall j :: 0 <= j < |parts| ==> Shape(r.parts[j]) == Shape(parts[j])
    decreases |parts| - from
  {
    if from == |parts| then Fired(parts, w, NoError, false)
    else
      var r := React(h, parts[from], w);
      var ps := parts[from := r.part];
      if r.err != NoError then Fired(ps, r.wires, r.err, r.stop)
      else
        var rest := Dispatch(h, ps, r.wires, from + 1);
        Fired(rest.parts, rest.wires, rest.err, r.stop || rest.stop)
  }

  /** Slot `k` alone reacting to the hook. */
  function Single(h: Components.Hook, parts: seq<Part>, w: Wires, k: nat): Fired
    requires k < |parts|
  {
    var r := React(h, parts[k], w);
    Fired(parts[k := r.part], r.wires, r.err, r.stop)
  }

  /** RealSystem::componentByID: id 7 (MEM) is the memory in slot 15; other ids are their own slot. */
  function Slot(id: int): int {
    if id == MEM as int then 0x0F else id
  }

  /** componentByID; `at` throws for a slot past the end (None). */
  function ComponentByID(parts: seq<Part>, id: int): (r: Option<Part>)
    ensures r.Some? <==> 0 <= Slot(id) < |parts|
    ensures r.Some? ==> r.value == parts[Slot(id)]
  {
    if 0 <= Slot(id) < |parts| then Some(parts[Slot(id)]) else None
  }

  /** Part `p` sits where componentByID looks for its id. */
  predicate Fits(j: int, p: Part) {
    match p
    case Dummy => true
    case Reg(id, _) => j == id as int && id != MEM && id != MEMADDR
    case Addr(id, _) => j == id as int && id != MEM && id != MEMADDR
    case Ctl(_, _) => j == IR as int
    case Mem(_) => j == MEMADDR as int
  }

  predicate Wired(parts: seq<Part>) {
    forall j :: 0 <= j < |parts| ==> Fits(j, parts[j])
  }

  /** The id a hook's transfer addresses: the source on the rising edge, the destination on the high clock. */
  function Addressed(h: Components.Hook, w: Wires): byte {
    if h == Components.Rising then w.control.get else w.control.put
  }

  /** On the rising edge and the high clock a part that componentByID does not name for the addressed id does nothing. */
  lemma QuietUnlessAddressed(h: Components.Hook, j: int, p: Part, w: Wires)
    requires h == Components.Rising || h == Components.High
    requires Fits(j, p) && Slot(Addressed(h, w) as int) != j
    ensures React(h, p, w) == Reacted(p, w, NoError, false)
  {
  }

  /** A round whose stop request is joined with an earlier one. */
  function StopAlso(stopped: bool, f: Fired): Fired {
    f.(stop := stopped || f.stop)
  }

  /** A hook as a reaction of any part on any wires. */
  function Reaction(h: Components.Hook): (Part, Wires) -> Reacted {
    (p: Part, w: Wires) => React(h, p, w)
  }

  /** Dispatch with the reaction as a parameter. */
  function DispatchBy(react: (Part, Wires) -> Reacted, parts: seq<Part>, w: Wires, from: nat): Fired
    requires from <= |parts|
    decreases |parts| - from
  {
    if from == |parts| then Fired(parts, w, NoError, false)
    else
      var r := react(parts[from], w);
      if r.err != NoError then Fired(parts[from := r.part], r.wires, r.err, r.stop)
      else StopAlso(r.stop, DispatchBy(react, parts[from := r.part], r.wires, from + 1))
  }

  /** Dispatch is DispatchBy with the hook's reaction. */
  lemma {:induction false} DispatchIsBy(h: Components.Hook, parts: seq<Part>, w: Wires, from: nat)
    requires from <= |parts|
    ensures Dispatch(h, parts, w, from) == DispatchBy(Reaction(h), parts, w, from)
    decreases |parts| - from
  {
    if from < |parts| {
      var r := React(h, parts[from], w);
      if r.err == NoError {
        DispatchIsBy(h, parts[from := r.part], r.wires, from + 1);
      }
    }
  }

  /** A part that does not react leaves the rest of the loop as it was. */
  lemma DispatchSkips(h: Components.Hook, parts: seq<Part>, w: Wires, from: nat)
    requires from < |parts| && React(h, parts[from], w) == Reacted(parts[from], w, NoError, false)
    ensures Dispatch(h, parts, w, from) == Dispatch(h, parts, w, from + 1)
  {
    assert parts[from := parts[from]] == parts;
  }

  /** When no part after slot `from` reacts, the loop is slot `from` alone. */
  lemma DispatchEndsAt(h: Components.Hook, parts: seq<Part>, w: Wires, from: nat)
    requires from < |parts|
    requires var s := Single(h, parts, w, from);
      s.err != NoError || Dispatch(h, s.parts, s.wires, from + 1) == Fired(s.parts, s.wires, NoError, false)
    ensures Dispatch(h, parts, w, from) == Single(h, parts, w, from)
  {
  }

  /** A part keeps its slot through any hook. */
  lemma ReactKeepsFit(h: Components.Hook, j: int, p: Part, w: Wires)
    requires Fits(j, p)
    ensures Fits(j, React(h, p, w).part)
  {
  }

  /** Replacing the part in slot `k` by its reaction keeps every part in its slot. */
  lemma SingleKeepsWired(h: Components.Hook, parts: seq<Part>, w: Wires, k: nat)
    requires k < |parts| && Wired(parts)
    ensures Wired(Single(h, parts, w, k).parts)
  {
    ReactKeepsFit(h, k, parts[k], w);
    var ps := Single(h, parts, w, k).parts;
    forall j | 0 <= j < |ps|
      ensures Fits(j, ps[j])
    {
      assert Fits(j, parts[j]);
    }
  }

  /**
   * With every part in its slot, the rising edge and the high clock reach
   * at most one part: the one componentByID names for the addressed id.
   */
  lemma {:induction false} OnlyAddressedReacts(h: Components.Hook, parts: seq<Part>, w: Wires, from: nat)
    requires h == Components.Rising || h == Components.High
    requires from <= |parts| && Wired(parts)
    ensures var k := Slot(Addressed(h, w) as int);
      Dispatch(h, parts, w, from) == if from <= k < |parts| then Single(h, parts, w, k) else Fired(parts, w, NoError, false)
    decreases |parts| - from
  {
    var k := Slot(Addressed(h, w) as int);
    if from < |parts| && from != k {
      QuietUnlessAddressed(h, from, parts[from], w);
      DispatchSkips(h, parts, w, from);
      OnlyAddressedReacts(h, parts, w, from + 1);
    } else if from < |parts| {
      AddressedFires(h, parts, w, from);
    } else {
      assert Dispatch(h, parts, w, from) == Fired(parts, w, NoError, false);
    }
  }

  /** From the addressed slot on, the loop is that slot's reaction alone. */
  lemma AddressedFires(h: Components.Hook, parts: seq<Part>, w: Wires, k: nat)
    requires h == Components.Rising || h == Components.High
    requires k < |parts| && Wired(parts) && k == Slot(Addressed(h, w) as int)
    ensures Dispatch(h, parts, w, k) == Single(h, parts, w, k)
  {
    var s := Single(h, parts, w, k);
    if s.err == NoError {
      SingleKeepsWired(h, parts, w, k);
      assert Addressed(h, s.wires) == Addressed(h, w);
      NothingAddressedAfter(h, s.parts, s.wires, k + 1);
    }
    DispatchEndsAt(h, parts, w, k);
  }

  /** Past the addressed slot, no part reacts and the loop changes nothing. */
  lemma {:induction false} NothingAddressedAfter(h: Components.Hook, parts: seq<Part>, w: Wires, from: nat)
    requires h == Components.Rising || h == Components.High
    requires from <= |parts| && Wired(parts) && Slot(Addressed(h, w) as int) < from
    ensures Dispatch(h, parts, w, from) == Fired(parts, w, NoError, false)
    decreases |parts| - from
  {
    if from < |parts| {
      QuietUnlessAddressed(h, from, parts[from], w);
      DispatchSkips(h, parts, w, from);
      NothingAddressedAfter(h, parts, w, from + 1);
    }
  }

  /** On the low clock every part but the controller does nothing. */
  lemma QuietUnlessController(j: int, p: Part, w: Wires)
    requires Fits(j, p) && j != IR as int
    ensures React(Components.Low, p, w) == Reacted(p, w, NoError, false)
  {
  }

  /** On the low clock only the controller, in slot IR, reacts. */
  lemma {:induction false} OnlyControllerLow(parts: seq<Part>, w: Wires, from: nat)
    requires from <= |parts| && Wired(parts)
    ensures Dispatch(Components.Low, parts, w, from) ==
      if from <= IR as int < |parts| then Single(Components.Low, parts, w, IR as int) else Fired(parts, w, NoError, false)
    decreases |parts| - from
  {
    if from < |parts| {
      if from != IR as int {
        QuietUnlessController(from, parts[from], w);
        DispatchSkips(Components.Low, parts, w, from);
        OnlyControllerLow(parts, w, from + 1);
      } else {
        var s := Single(Components.Low, parts, w, from);
        if s.err == NoError {
          SingleKeepsWired(Components.Low, parts, w, from);
          OnlyControllerLow(s.parts, s.wires, from + 1);
        }
        DispatchEndsAt(Components.Low, parts, w, from);
      }
    } else {
      assert Dispatch(Components.Low, parts, w, from) == Fired(parts, w, NoError, false);
    }
  }

  /** No part reacts to the falling edge. */
  lemma {:induction false} FallingChangesNothing(parts: seq<Part>, w: Wires, from: nat)
    requires from <= |parts|
    ensures Dispatch(Components.Falling, parts, w, from) == Fired(parts, w, NoError, false)
    decreases |parts| - from
  {
    if from < |parts| {
      assert parts[from := parts[from]] == parts;
      FallingChangesNothing(parts, w, from + 1);
    }
  }

  /** The parts from `from` on reset, the ones before it as they were. */
  function ClearedFrom(parts: seq<Part>, from: nat): (r: seq<Part>)
    ensures |r| == |parts|
  {
    seq(|parts|, i requires 0 <= i < |parts| => if i < from then parts[i] else Cleared(parts[i]))
  }

  /** Resetting the components never fails and resets each of them. */
  lemma {:induction false} ResetClearsEveryPart(parts: seq<Part>, w: Wires, from: nat)
    requires from <= |parts|
    ensures Dispatch(Components.Reset, parts, w, from) == Fired(ClearedFrom(parts, from), w, NoError, false)
    decreases |parts| - from
  {
    if from == |parts| {
      assert ClearedFrom(parts, from) == parts;
    } else {
      var ps := parts[from := Cleared(parts[from])];
      ResetClearsEveryPart(ps, w, from + 1);
      assert ClearedFrom(ps, from + 1) == ClearedFrom(parts, from);
    }
  }

  /**
   * One clock phase of RealSystem: a recorded error is returned at once;
   * otherwise the parts react in order and the first error is recorded and
   * reported, which stops the clock. The controller's OP_HALT stops it too.
   */
  function Phase(h: Components.Hook, m: Machine): Clock.Reaction<Machine> {
    if m.error != NoError then Clock.Reaction(m, m.error, false)
    else
      var f := Dispatch(h, m.parts, m.wires, 0);
      Clock.Reaction(Machine(f.wires, f.parts, f.err), f.err, f.stop || f.err != NoError)
  }

  /** The callbacks the clock makes into the system. */
  function Tick(e: Clock.Edge, m: Machine): Clock.Reaction<Machine> {
    Phase(Components.HookOf(e), m)
  }

  /** RealSystem::reset: a recorded error comes back; otherwise every component is reset, the wires untouched. */
  function ResetAll(m: Machine): Clock.Reaction<Machine> {
    Phase(Components.Reset, m)
  }

  /** A recorded error is returned by every phase, which changes nothing. */
  lemma RecordedErrorIsSticky(h: Components.Hook, m: Machine)
    requires m.error != NoError
    ensures Phase(h, m) == Clock.Reaction(m, m.error, false)
  {
  }

  /** A failing phase records its error and stops the clock; a clean one stops it only on OP_HALT. */
  lemma FailureIsRecordedAndStops(h: Components.Hook, m: Machine)
    requires m.error == NoError
    ensures var r := Phase(h, m); r.state.error == r.err
    ensures var r := Phase(h, m); r.err != NoError ==> r.stop
    ensures var r := Phase(h, m); r.err != NoError ==> exists k :: 0 <= k < |m.parts| && (m.parts[k].Mem? || m.parts[k].Ctl?)
  {
    ErrorsComeFromMemoryOrController(h, m.parts, m.wires, 0);
  }

  lemma {:induction false} ErrorsComeFromMemoryOrController(h: Components.Hook, parts: seq<Part>, w: Wires, from: nat)
    requires from <= |parts|
    ensures Dispatch(h, parts, w, from).err != NoError ==> exists k :: from <= k < |parts| && (parts[k].Mem? || parts[k].Ctl?)
    decreases |parts| - from
  {
    if from < |parts| {
      var r := React(h, parts[from], w);
      if r.err == NoError {
        var ps := parts[from := r.part];
        ErrorsComeFromMemoryOrController(h, ps, r.wires, from + 1);
        if Dispatch(h, parts, w, from).err != NoError {
          var k :| from + 1 <= k < |parts| && (ps[k].Mem? || ps[k].Ctl?);
          assert parts[k] == ps[k];
        }
      }
    }
  }

  /** reset leaves the wires alone, clears every component and never fails. */
  lemma ResetClearsEverything(m: Machine)
    requires m.error == NoError
    ensures ResetAll(m) == Clock.Reaction(Machine(m.wires, ClearedFrom(m.parts, 0), NoError), NoError, false)
  {
    ResetClearsEveryPart(m.parts, m.wires, 0);
  }

  /** The component vector of RealSystem's constructor, with the given register, controller and memory states. */
  function Layout(a: byte, ir: byte, step: byte, pc: word, mem: ValidMemory): (parts: seq<Part>)
    ensures |parts| == 16 && Wired(parts)
  {
    [Reg(GP_A, a), Reg(GP_B, 0), Reg(GP_C, 0), Reg(GP_D, 0), Dummy, Dummy, Ctl(ir, step), Dummy,
     Addr(PC, pc), Addr(SP, 0), Addr(Si, 0), Addr(Di, 0), Addr(TX, 0), Dummy, Dummy, Mem(mem)]
  }

  /** The image of the constructor: 01 42 FF at address 0, that is MOV_A_CONST 0x42 and HLT. */
  const Program: TwoRegionMemory.Image := TwoRegionMemory.Image(0x0000, 0x03, [0x01, 0x42, 0xFF])

  /** The constructor's memory: RAM at 0x0000 and ROM at 0x8000, 0x8000 bytes each, with the image in RAM. */
  function Loaded(ramFill: seq<byte>, romFill: seq<byte>): (m: ValidMemory)
    requires |ramFill| == 0x8000 && |romFill| == 0x8000
    ensures m.pointer == 0 && m.At(0) == Some(0x01) && m.At(1) == Some(0x42) && m.At(2) == Some(0xFF)
  {
    var base := TwoRegionMemory.Allocated(0x0000, 0x8000, 0x8000, 0x8000, ramFill, romFill);
    assert TwoRegionMemory.InRamAsWritten(base, Program) && !TwoRegionMemory.Overruns(base, Program);
    TwoRegionMemory.Construct(0x0000, 0x8000, 0x8000, 0x8000, Some(Program), ramFill, romFill).value
  }

  /** The state RealSystem's constructor leaves, with the RAM and ROM bytes `new` gives. */
  function Initial(ramFill: seq<byte>, romFill: seq<byte>): Machine
    requires |ramFill| == 0x8000 && |romFill| == 0x8000
  {
    Machine(Wires(0, 0, Released), Layout(0, 0, 0, 0, Loaded(ramFill, romFill)), NoError)
  }

  /** The lines after the controller's xaddr(PC, MEMADDR, OP_INC). */
  const FetchAddress: Control := Released.(xaddr := false, get := PC, put := MEMADDR, op := OP_INC)
  /** The lines after xdata(MEM, IR, OP_NONE). */
  const FetchOpcode: Control := Released.(xdata := false, get := MEM, put := IR, op := OP_NONE)
  /** The lines after xdata(MEM, GP_A, OP_DONE & OP_MASK). */
  const LoadA: Control := Released.(xdata := false, get := MEM, put := GP_A, op := OP_NONE)

  /** A machine of the sample run: only A, IR, the step, PC, the memory pointer and the wires change. */
  function At(w: Wires, a: byte, ir: byte, step: byte, pc: word, mem: ValidMemory, pointer: word): Machine {
    Machine(w, Layout(a, ir, step, pc, mem.(pointer := pointer)), NoError)
  }

  /** The rising edge of a clean machine is the addressed source's reaction. */
  lemma RisingReachesSource(m: Machine, k: int, p1: seq<Part>, w1: Wires)
    requires m.error == NoError && Wired(m.parts) && k == Slot(m.wires.control.get as int) && 0 <= k < |m.parts|
    requires Single(Components.Rising, m.parts, m.wires, k) == Fired(p1, w1, NoError, false)
    ensures Tick(Clock.RisingEdge, m) == Clock.Reaction(Machine(w1, p1, NoError), NoError, false)
  {
    OnlyAddressedReacts(Components.Rising, m.parts, m.wires, 0);
  }

  /** The high clock of a clean machine is the addressed destination's reaction. */
  lemma HighReachesDestination(m: Machine, k: int, p2: seq<Part>)
    requires m.error == NoError && Wired(m.parts) && k == Slot(m.wires.control.put as int) && 0 <= k < |m.parts|
    requires Single(Components.High, m.parts, m.wires, k) == Fired(p2, m.wires, NoError, false)
    ensures Tick(Clock.HighClock, m) == Clock.Reaction(Machine(m.wires, p2, NoError), NoError, false)
  {
    OnlyAddressedReacts(Components.High, m.parts, m.wires, 0);
  }

  /** The falling edge of a clean machine changes nothing. */
  lemma FallingIsQuiet(m: Machine)
    requires m.error == NoError
    ensures Tick(Clock.FallingEdge, m) == Clock.Reaction(m, NoError, false)
  {
    FallingChangesNothing(m.parts, m.wires, 0);
  }

  /** The low clock of a clean machine is the controller's reaction. */
  lemma LowReachesController(m: Machine, p4: seq<Part>, w4: Wires, stop: bool)
    requires m.error == NoError && Wired(m.parts) && IR as int < |m.parts|
    requires Single(Components.Low, m.parts, m.wires, IR as int) == Fired(p4, w4, NoError, stop)
    ensures Tick(Clock.LowClock, m) == Clock.Reaction(Machine(w4, p4, NoError), NoError, stop)
  {
    OnlyControllerLow(m.parts, m.wires, 0);
  }

  /** One clean cycle whose four phases reach the given parts. */
  lemma CycleSteps(m0: Machine, w1: Wires, p1: seq<Part>, p2: seq<Part>, w4: Wires, p4: seq<Part>, stop: bool)
    requires m0.error == NoError && |m0.parts| == 16 && Wired(m0.parts)
    requires Slot(m0.wires.control.get as int) < 16 && Slot(w1.control.put as int) < 16
    requires Single(Components.Rising, m0.parts, m0.wires, Slot(m0.wires.control.get as int)) == Fired(p1, w1, NoError, false)
    requires |p1| == 16 && Single(Components.High, p1, w1, Slot(w1.control.put as int)) == Fired(p2, w1, NoError, false)
    requires |p2| == 16 && Single(Components.Low, p2, w1, IR as int) == Fired(p4, w4, NoError, stop)
    ensures Clock.OnePass(Tick, m0) == Clock.Pass(Machine(w4, p4, NoError), NoError, stop, Clock.FullCycle)
  {
    var m1 := Machine(w1, p1, NoError);
    var m2 := Machine(w1, p2, NoError);
    RisingReachesSource(m0, Slot(m0.wires.control.get as int), p1, w1);
    SingleKeepsWired(Components.Rising, m0.parts, m0.wires, Slot(m0.wires.control.get as int));
    HighReachesDestination(m1, Slot(w1.control.put as int), p2);
    SingleKeepsWired(Components.High, p1, w1, Slot(w1.control.put as int));
    FallingIsQuiet(m2);
    LowReachesController(m2, p4, w4, stop);
    Clock.CleanPass(Tick, m0, m1, m2, m2, Machine(w4, p4, NoError), false, false, false, stop);
  }

  /** The entries of a group are listed entries of opcodes `lo` to `hi` at step 2 or later. */
  predicate Group(g: seq<MicroCode>, lo: byte, hi: byte) {
    forall j :: 0 <= j < |g| ==> lo <= g[j].instruction <= hi && g[j].step >= 2
  }

  lemma Groups()
    ensures |LoadsA| == |LoadsB| == |LoadsC| == |LoadsD| == 11
    ensures Group(LoadsA, 0x01, 0x05) && Group(LoadsB, 0x06, 0x0A)
    ensures Group(LoadsC, 0x0B, 0x0F) && Group(LoadsD, 0x10, 0x14)
  {
  }

  /** Every entry before HLT is a listed entry of an opcode up to 0x14 at step 2 or later. */
  lemma TableBeforeHalt()
    ensures |Table| == 47 && Table[45] == Halt && Table[46] == End && Sentinel(End)
    ensures forall j :: 0 <= j < 45 ==> Table[j].instruction <= 0x14 && Table[j].step >= 2
  {
    Groups();
    var body := [Nop] + LoadsA + LoadsB + LoadsC + LoadsD;
    assert Table == body + [Halt, End];
    forall j | 0 <= j < 45
      ensures body[j].instruction <= 0x14 && body[j].step >= 2
    {
      if j >= 34 {
        assert body[j] == LoadsD[j - 34];
      } else if j >= 23 {
        assert body[j] == LoadsC[j - 23];
      } else if j >= 12 {
        assert body[j] == LoadsB[j - 12];
      } else if j >= 1 {
        assert body[j] == LoadsA[j - 1];
      }
    }
  }

  /** Opcode 0x01 is found at entries 1 and 2 (steps 2 and 3), HLT at entry 45. */
  lemma SampleEntries()
    ensures FirstListedMatch(Table, 0x01, 2, Some(1)) && Table[1] == MicroCode(0x01, 2, XAddr, PC, MEMADDR, OP_INC)
    ensures FirstListedMatch(Table, 0x01, 3, Some(2)) && Table[2] == MicroCode(0x01, 3, XData, MEM, GP_A, OP_DONE)
    ensures FirstListedMatch(Table, 0xFF, 2, Some(45)) && Table[45] == Halt
  {
    TableBeforeHalt();
    assert Table[0] == Nop && Table[1] == LoadsA[0] && Table[2] == LoadsA[1];
  }

  // The wires at the end of each cycle of the sample program.
  const W0: Wires := Wires(0x00, 0, Released)
  const W1: Wires := Wires(0x00, 0, FetchAddress)
  const W2: Wires := Wires(0x00, 0, FetchOpcode)
  const W3: Wires := Wires(0x01, 0, FetchAddress)
  const W4: Wires := Wires(0x01, 0, LoadA)
  const W5: Wires := Wires(0x42, 0, FetchAddress)
  const W6: Wires := Wires(0x02, 0, FetchOpcode)
  const W7: Wires := Wires(0xFF, 0, FetchOpcode)

  /** The memory the sample program runs from: 01 42 FF at addresses 0 to 2. */
  predicate HoldsProgram(mem: ValidMemory) {
    mem.At(0) == Some(0x01) && mem.At(1) == Some(0x42) && mem.At(2) == Some(0xFF)
  }

  // Replacing one part of the layout gives the layout with that part's new state.
  lemma LayoutSetsA(a: byte, ir: byte, step: byte, pc: word, m: ValidMemory, a': byte)
    ensures Layout(a, ir, step, pc, m)[0] == Reg(GP_A, a)
    ensures Layout(a, ir, step, pc, m)[0 := Reg(GP_A, a')] == Layout(a', ir, step, pc, m)
  {
  }

  lemma LayoutSetsController(a: byte, ir: byte, step: byte, pc: word, m: ValidMemory, ir': byte, step': byte)
    ensures Layout(a, ir, step, pc, m)[6] == Ctl(ir, step)
    ensures Layout(a, ir, step, pc, m)[6 := Ctl(ir', step')] == Layout(a, ir', step', pc, m)
  {
  }

  lemma LayoutSetsPc(a: byte, ir: byte, step: byte, pc: word, m: ValidMemory, pc': word)
    ensures Layout(a, ir, step, pc, m)[8] == Addr(PC, pc)
    ensures Layout(a, ir, step, pc, m)[8 := Addr(PC, pc')] == Layout(a, ir, step, pc', m)
  {
  }

  lemma LayoutSetsMemory(a: byte, ir: byte, step: byte, pc: word, m: ValidMemory, m': ValidMemory)
    ensures Layout(a, ir, step, pc, m)[15] == Mem(m)
    ensures Layout(a, ir, step, pc, m)[15 := Mem(m')] == Layout(a, ir, step, pc, m')
  {
  }

  /** As the source of an incrementing address transfer, PC drives its bytes and steps. */
  lemma PcDrivesAndSteps(pc: word, w: Wires)
    requires w.control.AddrTransfer() && !w.control.DataTransfer() && w.control.get == PC && w.control.op == OP_INC
    ensures React(Components.Rising, Addr(PC, pc), w) == Reacted(Addr(PC, pc + 1), w.(dataBus := Lo(pc), addrBus := Hi(pc)), NoError, false)
  {
  }

  /** As the destination of an address transfer, the memory loads its pointer from both buses. */
  lemma PointerLoads(m: ValidMemory, w: Wires)
    requires w.control.AddrTransfer() && w.control.put == MEMADDR
    ensures React(Components.High, Mem(m), w) == Reacted(Mem(m.(pointer := Join(w.addrBus, w.dataBus))), w, NoError, false)
  {
  }

  /** As the source of a data transfer, the memory drives the byte at its pointer. */
  lemma MemoryDrives(m: ValidMemory, w: Wires, v: byte)
    requires w.control.DataTransfer() && w.control.get == MEM && m.At(m.pointer as int) == Some(v)
    ensures React(Components.Rising, Mem(m), w) == Reacted(Mem(m), w.(dataBus := v), NoError, false)
  {
  }

  /** As the destination of a data transfer, a register or IR latches the data bus. */
  lemma RegisterLatches(id: byte, v: byte, ir: byte, step: byte, w: Wires)
    requires w.control.DataTransfer()
    ensures w.control.put == id ==> React(Components.High, Reg(id, v), w) == Reacted(Reg(id, w.dataBus), w, NoError, false)
    ensures w.control.put == IR ==> React(Components.High, Ctl(ir, step), w) == Reacted(Ctl(w.dataBus, step), w, NoError, false)
  {
  }

  /** On the low clock the controller runs its step: the fixed fetch, or the entry found for IR. */
  lemma ControllerSteps(ir: byte, step: byte, w: Wires)
    ensures React(Components.Low, Ctl(ir, step), w) ==
      var e := Low(Table, ir, step, w); Reacted(Ctl(ir, e.step), e.wires, e.err, e.stop)
  {
  }

  /** Cycle 1, step 0: the controller puts PC on the way to the memory pointer. */
  lemma Cycle1(mem: ValidMemory)
    ensures Clock.OnePass(Tick, At(W0, 0, 0, 0, 0, mem, 0)) == Clock.Pass(At(W1, 0, 0, 1, 0, mem, 0), NoError, false, Clock.FullCycle)
  {
    var m := mem.(pointer := 0);
    var p0 := Layout(0, 0, 0, 0, m);
    assert Single(Components.Rising, p0, W0, 0) == Fired(p0, W0, NoError, false);
    assert Single(Components.High, p0, W0, 0) == Fired(p0, W0, NoError, false);
    LayoutSetsController(0, 0, 0, 0, m, 0, 1);
    ControllerSteps(0, 0, W0);
    FetchSteps(Table, 0, W0);
    CycleSteps(At(W0, 0, 0, 0, 0, mem, 0), W0, p0, p0, W1, Layout(0, 0, 1, 0, m), false);
  }

  /** Cycle 2, step 1: PC drives the memory pointer and steps to 1; the controller asks for the opcode. */
  lemma Cycle2(mem: ValidMemory)
    ensures Clock.OnePass(Tick, At(W1, 0, 0, 1, 0, mem, 0)) == Clock.Pass(At(W2, 0, 0, 2, 1, mem, 0), NoError, false, Clock.FullCycle)
  {
    var m := mem.(pointer := 0);
    LayoutSetsPc(0, 0, 1, 0, m, 1);
    PcDrivesAndSteps(0, W1);
    LayoutSetsMemory(0, 0, 1, 1, m, m);
    PointerLoads(m, W1);
    LayoutSetsController(0, 0, 1, 1, m, 0, 2);
    ControllerSteps(0, 1, W1);
    FetchSteps(Table, 0, W1);
    CycleSteps(At(W1, 0, 0, 1, 0, mem, 0), W1, Layout(0, 0, 1, 1, m), Layout(0, 0, 1, 1, m), W2, Layout(0, 0, 2, 1, m), false);
  }

  /** Cycle 3, step 2: the opcode 0x01 reaches IR; its first entry asks for the next address. */
  lemma Cycle3(mem: ValidMemory)
    requires HoldsProgram(mem)
    ensures Clock.OnePass(Tick, At(W2, 0, 0, 2, 1, mem, 0)) == Clock.Pass(At(W3, 0, 1, 3, 1, mem, 0), NoError, false, Clock.FullCycle)
  {
    var m := mem.(pointer := 0);
    var w1 := W2.(dataBus := 0x01);
    LayoutSetsMemory(0, 0, 2, 1, m, m);
    MemoryDrives(m, W2, 0x01);
    LayoutSetsController(0, 0, 2, 1, m, 1, 2);
    RegisterLatches(IR, 0, 0, 2, w1);
    LayoutSetsController(0, 1, 2, 1, m, 1, 3);
    ControllerSteps(1, 2, w1);
    SampleEntries();
    FoundEntryRuns(Table, 0x01, 2, w1, 1);
    CycleSteps(At(W2, 0, 0, 2, 1, mem, 0), w1, Layout(0, 0, 2, 1, m), Layout(0, 1, 2, 1, m), W3, Layout(0, 1, 3, 1, m), false);
  }

  /** Cycle 4, step 3: PC drives the pointer to 1 and steps to 2; the entry asks for memory into A and ends. */
  lemma Cycle4(mem: ValidMemory)
    ensures Clock.OnePass(Tick, At(W3, 0, 1, 3, 1, mem, 0)) == Clock.Pass(At(W4, 0, 1, 0, 2, mem, 1), NoError, false, Clock.FullCycle)
  {
    var m := mem.(pointer := 0);
    var m' := mem.(pointer := 1);
    LayoutSetsPc(0, 1, 3, 1, m, 2);
    PcDrivesAndSteps(1, W3);
    LayoutSetsMemory(0, 1, 3, 2, m, m');
    PointerLoads(m, W3);
    LayoutSetsController(0, 1, 3, 2, m', 1, 0);
    ControllerSteps(1, 3, W3);
    SampleEntries();
    FoundEntryRuns(Table, 0x01, 3, W3, 2);
    CycleSteps(At(W3, 0, 1, 3, 1, mem, 0), W3, Layout(0, 1, 3, 2, m), Layout(0, 1, 3, 2, m'), W4, Layout(0, 1, 0, 2, m'), false);
  }

  /** Cycle 5, step 0: the byte 0x42 reaches A; the controller starts the next fetch. */
  lemma Cycle5(mem: ValidMemory)
    requires HoldsProgram(mem)
    ensures Clock.OnePass(Tick, At(W4, 0, 1, 0, 2, mem, 1)) == Clock.Pass(At(W5, 0x42, 1, 1, 2, mem, 1), NoError, false, Clock.FullCycle)
  {
    var m := mem.(pointer := 1);
    var w1 := W4.(dataBus := 0x42);
    LayoutSetsMemory(0, 1, 0, 2, m, m);
    MemoryDrives(m, W4, 0x42);
    LayoutSetsA(0, 1, 0, 2, m, 0x42);
    RegisterLatches(GP_A, 0, 1, 0, w1);
    LayoutSetsController(0x42, 1, 0, 2, m, 1, 1);
    ControllerSteps(1, 0, w1);
    FetchSteps(Table, 1, w1);
    CycleSteps(At(W4, 0, 1, 0, 2, mem, 1), w1, Layout(0, 1, 0, 2, m), Layout(0x42, 1, 0, 2, m), W5, Layout(0x42, 1, 1, 2, m), false);
  }

  /** Cycle 6, step 1: PC drives the pointer to 2 and steps to 3; the controller asks for the opcode. */
  lemma Cycle6(mem: ValidMemory)
    ensures Clock.OnePass(Tick, At(W5, 0x42, 1, 1, 2, mem, 1)) == Clock.Pass(At(W6, 0x42, 1, 2, 3, mem, 2), NoError, false, Clock.FullCycle)
  {
    var m := mem.(pointer := 1);
    var m' := mem.(pointer := 2);
    var w1 := W5.(dataBus := 0x02);
    LayoutSetsPc(0x42, 1, 1, 2, m, 3);
    PcDrivesAndSteps(2, W5);
    LayoutSetsMemory(0x42, 1, 1, 3, m, m');
    PointerLoads(m, w1);
    LayoutSetsController(0x42, 1, 1, 3, m', 1, 2);
    ControllerSteps(1, 1, w1);
    FetchSteps(Table, 1, w1);
    CycleSteps(At(W5, 0x42, 1, 1, 2, mem, 1), w1, Layout(0x42, 1, 1, 3, m), Layout(0x42, 1, 1, 3, m'), W6, Layout(0x42, 1, 2, 3, m'), false);
  }

  /** Cycle 7, step 2: the opcode 0xFF reaches IR and its entry, HLT, stops the clock. */
  lemma Cycle7(mem: ValidMemory)
    requires HoldsProgram(mem)
    ensures Clock.OnePass(Tick, At(W6, 0x42, 1, 2, 3, mem, 2)) == Clock.Pass(At(W7, 0x42, 0xFF, 0, 3, mem, 2), NoError, true, Clock.FullCycle)
  {
    var m := mem.(pointer := 2);
    LayoutSetsMemory(0x42, 1, 2, 3, m, m);
    MemoryDrives(m, W6, 0xFF);
    LayoutSetsController(0x42, 1, 2, 3, m, 0xFF, 2);
    RegisterLatches(IR, 0x42, 1, 2, W7);
    LayoutSetsController(0x42, 0xFF, 2, 3, m, 0xFF, 0);
    ControllerSteps(0xFF, 2, W7);
    SampleEntries();
    FoundEntryRuns(Table, 0xFF, 2, W7, 45);
    CycleSteps(At(W6, 0x42, 1, 2, 3, mem, 2), W7, Layout(0x42, 1, 2, 3, m), Layout(0x42, 0xFF, 2, 3, m), W7, Layout(0x42, 0xFF, 0, 3, m), true);
  }

  /**
   * From the state of the constructor, the sample program MOV_A_CONST 0x42,
   * HLT runs for exactly seven cycles: after six the clock still runs and
   * the HLT opcode has not been read; the seventh loads 0xFF into IR and its
   * entry stops the clock, with A holding 0x42 and PC past the program.
   */
  lemma SampleProgramHalts(mem: ValidMemory, extra: nat)
    requires HoldsProgram(mem)
    ensures Clock.Run(Tick, At(W0, 0, 0, 0, 0, mem, 0), 6) == Clock.Outcome(At(W6, 0x42, 1, 2, 3, mem, 2), NoError, Clock.Running)
    ensures Clock.Run(Tick, At(W0, 0, 0, 0, 0, mem, 0), 7 + extra) == Clock.Outcome(At(W7, 0x42, 0xFF, 0, 3, mem, 2), NoError, Clock.Stopped)
  {
    Cycle1(mem);
    Cycle2(mem);
    Cycle3(mem);
    Cycle4(mem);
    Cycle5(mem);
    Cycle6(mem);
    Cycle7(mem);
    var m0 := At(W0, 0, 0, 0, 0, mem, 0);
    var m6 := At(W6, 0x42, 1, 2, 3, mem, 2);
    assert Clock.Run(Tick, m6, 0) == Clock.Outcome(m6, NoError, Clock.Running);
    assert Clock.Run(Tick, At(W5, 0x42, 1, 1, 2, mem, 1), 1) == Clock.Run(Tick, m6, 0);
    assert Clock.Run(Tick, At(W4, 0, 1, 0, 2, mem, 1), 2) == Clock.Run(Tick, At(W5, 0x42, 1, 1, 2, mem, 1), 1);
    assert Clock.Run(Tick, At(W3, 0, 1, 3, 1, mem, 0), 3) == Clock.Run(Tick, At(W4, 0, 1, 0, 2, mem, 1), 2);
    assert Clock.Run(Tick, At(W2, 0, 0, 2, 1, mem, 0), 4) == Clock.Run(Tick, At(W3, 0, 1, 3, 1, mem, 0), 3);
    assert Clock.Run(Tick, At(W1, 0, 0, 1, 0, mem, 0), 5) == Clock.Run(Tick, At(W2, 0, 0, 2, 1, mem, 0), 4);
    assert Clock.Run(Tick, m0, 6) == Clock.Run(Tick, At(W1, 0, 0, 1, 0, mem, 0), 5);
    Clock.RunComposes(Tick, m0, 6, 1 + extra);
    Clock.StopIsObservedAtNextTest(Tick, m6, 1 + extra);
  }

  /** The machine RealSystem's constructor builds holds the sample program, at the start of its first cycle. */
  lemma InitialHoldsSample(ramFill: seq<byte>, romFill: seq<byte>)
    requires |ramFill| == 0x8000 && |romFill| == 0x8000
    ensures HoldsProgram(Loaded(ramFill, romFill))
    ensures Initial(ramFill, romFill) == At(W0, 0, 0, 0, 0, Loaded(ramFill, romFill), 0)
  {
    var mem := Loaded(ramFill, romFill);
    assert mem.(pointer := 0) == mem;
  }

  /** RealSystem: the wires, the component vector, the recorded error and the clock. */
  /**
   * The loop of each clock phase: every component in turn reacts to the
   * hook on the wires the one before it left, until the first error.
   */
  method OfferToAll(h: Components.Hook, parts: seq<Part>, w: Wires) returns (f: Fired)
    ensures f == Dispatch(h, parts, w, 0)
  {
    f := OfferBy(Reaction(h), parts, w);
    DispatchIsBy(h, parts, w, 0);
  }

  /** The same loop for any reaction: its proof never looks inside a part. */
  method OfferBy(react: (Part, Wires) -> Reacted, parts: seq<Part>, w: Wires) returns (f: Fired)
    ensures f == DispatchBy(react, parts, w, 0)
  {
    var ps, wires := parts, w;
    var i := 0;
    var stopped := false;
    while i < |ps|
      invariant 0 <= i <= |ps| && |ps| == |parts|
      invariant DispatchBy(react, parts, w, 0) == StopAlso(stopped, DispatchBy(react, ps, wires, i))
      decreases |ps| - i
    {
      var r := react(ps[i], wires);
      if r.err != NoError {
        return StopAlso(stopped, Fired(ps[i := r.part], r.wires, r.err, r.stop));
      }
      ps, wires, stopped := ps[i := r.part], r.wires, stopped || r.stop;
      i := i + 1;
    }
    f := Fired(ps, wires, NoError, stopped);
  }

  class RealSystem {
    var bus: byte
    var addrBus: byte
    var control: Control
    var parts: seq<Part>
    var error: SystemError
    const clock: Clock.Clock<Machine>

    function State(): Machine
      reads this
    {
      Machine(Wires(bus, addrBus, control), parts, error)
    }

    /** The sixteen components, the image 01 42 FF in RAM, both buses zero and every line released. */
    constructor (ramFill: seq<byte>, romFill: seq<byte>)
      requires |ramFill| == 0x8000 && |romFill| == 0x8000
      ensures State() == Initial(ramFill, romFill) && fresh(clock) && clock.state == Clock.Stopped
    {
      bus, addrBus, control := 0, 0, Released;
      parts := Layout(0, 0, 0, 0, Loaded(ramFill, romFill));
      error := NoError;
      clock := new Clock.Clock<Machine>();
    }

    function ComponentById(id: int): (r: Option<Part>)
      reads this
      ensures r == ComponentByID(parts, id)
    {
      if id == MEM as int then (if 0x0F < |parts| then Some(parts[0x0F]) else None)
      else if 0 <= id < |parts| then Some(parts[id])
      else None
    }

    method Xdata(from: byte, to: byte, opflags: byte)
      modifies this
      ensures State() == old(State()).(wires := old(State()).wires.Xdata(from, to, opflags))
    {
      control := control.(xdata := false, xaddr := true, get := from, put := to, op := opflags);
    }

    method Xaddr(from: byte, to: byte, opflags: byte)
      modifies this
      ensures State() == old(State()).(wires := old(State()).wires.Xaddr(from, to, opflags))
    {
      control := control.(xdata := true, xaddr := false, get := from, put := to, op := opflags);
    }

    /** reportError: a recorded error stops the clock and is returned. */
    method ReportError() returns (err: SystemError)
      modifies clock
      ensures err == error
      ensures clock.state == (if error != NoError then Clock.Stopped else old(clock.state)) && clock.cycle == old(clock.cycle)
    {
      if error == NoError {
        return NoError;
      }
      clock.Stop();
      err := error;
    }

    /** reset: a recorded error comes back; otherwise each component is reset in turn. */
    method Reset() returns (err: SystemError)
      modifies this
      ensures var r := ResetAll(old(State())); State() == r.state && err == r.err
    {
      if error != NoError {
        return error;
      }
      ResetClearsEverything(State());
      var i := 0;
      while i < |parts|
        invariant 0 <= i <= |parts| && |parts| == |old(parts)| && ClearedFrom(parts, i) == ClearedFrom(old(parts), 0)
        invariant bus == old(bus) && addrBus == old(addrBus) && control == old(control) && error == NoError
      {
        assert ClearedFrom(parts[i := Cleared(parts[i])], i + 1) == ClearedFrom(parts, i);
        parts := parts[i := Cleared(parts[i])];
        i := i + 1;
      }
      assert ClearedFrom(parts, i) == parts;
      err := NoError;
    }

    /**
     * One clock phase: a recorded error is returned; otherwise each
     * component in turn, the first error recorded and reported. A HLT
     * entry stops the clock from inside the loop.
     */
    method OnClock(h: Components.Hook) returns (err: SystemError)
      modifies this, clock
      ensures var r := Phase(h, old(State())); State() == r.state && err == r.err
      ensures clock.state == (if Phase(h, old(State())).stop then Clock.Stopped else old(clock.state))
      ensures clock.cycle == old(clock.cycle)
    {
      if error != NoError {
        return error;
      }
      var f := OfferToAll(h, parts, State().wires);
      if f.stop {
        clock.Stop();
      }
      parts, bus, addrBus, control, error := f.parts, f.wires.dataBus, f.wires.addrBus, f.wires.control, f.err;
      if f.err != NoError {
        err := ReportError();
      } else {
        err := NoError;
      }
    }

    /** run: the clock drives the four phases until an error or HLT, for at most `fuel` cycles. */
    method Run(fuel: nat) returns (err: SystemError)
      modifies this, clock
      ensures Clock.Outcome(State(), err, clock.state) == Clock.Run(Tick, old(State()), fuel)
    {
      var s;
      s, err := clock.Start(Tick, State(), fuel);
      bus, addrBus, control := s.wires.dataBus, s.wires.addrBus, s.wires.control;
      parts, error := s.parts, s.error;
    }
  }
}
