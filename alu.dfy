// The arithmetic-logic unit (src/cpu/alu.cpp). The ALU is itself a register
// holding the right operand; the left operand is a separate register whose
// value it overwrites with the result. The operator is selected by the bus
// opflags through a 16-slot table.
module Alu {
  import opened Bits
  import opened Errors
  import opened Wrappers
  import opened SystemBus
  import CpuRegister

  datatype Operator = Add | Adc | Sub | Sbb | And | Or | Xor | Not | Shl | Shr | Clr
  {
    predicate Arithmetic() { Add? || Adc? || Sub? || Sbb? }
  }

  /**
   * The operator-table slot selected by the opflags; slots 4-7 and 0xF are
   * empty. Opflags of 16 and above index past the table in the source; the
   * model treats them as empty slots.
   */
  function Slot(opflags: byte): (r: Option<Operator>)
    ensures r.None? <==> (4 <= opflags <= 7 || 0xF <= opflags)
    ensures r.Some? && r.value.Arithmetic() <==> opflags <= 3
  {
    match opflags
    case 0x0 => Some(Add)
    case 0x1 => Some(Adc)
    case 0x2 => Some(Sub)
    case 0x3 => Some(Sbb)
    case 0x8 => Some(And)
    case 0x9 => Some(Or)
    case 0xA => Some(Xor)
    case 0xB => Some(Not)
    case 0xC => Some(Shl)
    case 0xD => Some(Shr)
    case 0xE => Some(Clr)
    case _ => None
  }

  function Bit(b: bool): word {
    if b then 1 else 0
  }

  function CarryIn(carryIn: bool): byte {
    if carryIn then 1 else 0
  }

  /** The carry-in as a number. */
  function CarryValue(carryIn: bool): int {
    if carryIn then 1 else 0
  }

  /** The ADD and ADC lambdas: rhs + lhs (+ carry). */
  function AddOp(lhs: byte, rhs: byte, carryIn: bool): word {
    rhs as word + lhs as word + Bit(carryIn)
  }

  /** The SUB and SBB lambdas: lhs + ~(rhs (+ carry)) + 1. */
  function SubOp(lhs: byte, rhs: byte, carryIn: bool): word {
    lhs as word + !(rhs as word + Bit(carryIn)) + 1
  }

  /** The SHL lambda: rhs << 1, carry into bit 0, kept to 9 bits. */
  function ShlOp(rhs: byte, carryIn: bool): word {
    (((rhs as word) << 1) | Bit(carryIn)) & 0x01FF
  }

  /** The SHR lambda: rhs >> 1, carry into bit 7, old bit 0 into bit 8. */
  function ShrOp(rhs: byte, carryIn: bool): word {
    var shifted := (((rhs as word) >> 1) | (if carryIn then 0x0080 else 0)) & 0x00FF;
    if (rhs as word) & 0x01 != 0 then shifted | 0x0100 else shifted
  }

  /** The operator table, as written: the intermediate word for (lhs, rhs, carry-in). */
  function Apply(o: Operator, lhs: byte, rhs: byte, carryIn: bool): word {
    match o
    case Add => AddOp(lhs, rhs, false)
    case Adc => AddOp(lhs, rhs, carryIn)
    case Sub => SubOp(lhs, rhs, false)
    case Sbb => SubOp(lhs, rhs, carryIn)
    case And => rhs as word & lhs as word
    case Or => rhs as word | lhs as word
    case Xor => rhs as word ^ lhs as word
    case Not => !(rhs as word) & 0x00FF
    case Shl => ShlOp(rhs, carryIn)
    case Shr => ShrOp(rhs, carryIn)
    case Clr => 0
  }

  /** Independent statement of the byte each operator leaves in the left operand. */
  function RefValue(o: Operator, lhs: byte, rhs: byte, carryIn: bool): byte {
    match o
    case Add => lhs + rhs
    case Adc => lhs + rhs + CarryIn(carryIn)
    case Sub => lhs - rhs
    case Sbb => lhs - rhs - CarryIn(carryIn)
    case And => lhs & rhs
    case Or => lhs | rhs
    case Xor => lhs ^ rhs
    case Not => !rhs
    case Shl => (rhs << 1) | CarryIn(carryIn)
    case Shr => (rhs >> 1) | (CarryIn(carryIn) << 7)
    case Clr => 0
  }

  /** The carry out: unsigned overflow, borrow, or the bit shifted out. */
  function RefCarry(o: Operator, lhs: byte, rhs: byte, carryIn: bool): bool {
    match o
    case Add => lhs as int + rhs as int >= 256
    case Adc => lhs as int + rhs as int + CarryValue(carryIn) >= 256
    case Sub => lhs as int < rhs as int
    case Sbb => lhs as int < rhs as int + CarryValue(carryIn)
    case Shl => rhs & 0x80 != 0
    case Shr => rhs & 0x01 != 0
    case _ => false
  }

  /** The byte sign-extended to 16 bits, wide enough to add or subtract two of them exactly. */
  function SignExtend(b: byte): word {
    if b & 0x80 != 0 then b as word | 0xFF00 else b as word
  }

  /** The 16-bit two's-complement number lies in the signed-byte range -128..127. */
  predicate FitsSigned(w: word) {
    w < 0x0080 || 0xFF80 <= w
  }

  /** Signed overflow of the arithmetic operators: the exact result leaves -128..127; never for the others. */
  function RefOverflow(o: Operator, lhs: byte, rhs: byte, carryIn: bool): bool {
    match o
    case Add => !FitsSigned(SignExtend(lhs) + SignExtend(rhs))
    case Adc => !FitsSigned(SignExtend(lhs) + SignExtend(rhs) + Bit(carryIn))
    case Sub => !FitsSigned(SignExtend(lhs) - SignExtend(rhs))
    case Sbb => !FitsSigned(SignExtend(lhs) - SignExtend(rhs) - Bit(carryIn))
    case _ => false
  }

  /** The flag byte with exactly the given flags set. */
  function FlagByte(z: bool, c: bool, v: bool): byte {
    (if z then Z else 0) | (if c then C else 0) | (if v then V else 0)
  }

  /** The rule of setOverflow: the V it writes for opflags 0-3, from three sign bits. */
  function OverflowRule(opflags: byte, lhs: byte, rhs: byte, val: byte): bool {
    var s1 := Sign(lhs);
    var s2 := Sign(rhs);
    var sr := Sign(val);
    if opflags == 0 || opflags == 1 then s1 == s2 && sr != s1
    else s1 != s2 && sr != s1
  }

  /** ALU::setOverflow: V from the sign bits of lhs (before the write), rhs and the result. */
  function SetOverflow(lhs: byte, rhs: byte, val: byte, b: Lines): Lines {
    if b.op <= 3 then b.SetFlagTo(V, OverflowRule(b.op, lhs, rhs, val)) else b
  }

  /** The ALU's state after the high clock: right operand, left operand, bus. */
  datatype Outcome = Outcome(rhs: byte, lhs: byte, bus: Lines)

  /**
   * The tail of the operation once the lambda has produced `result`: the
   * flags are cleared, Z and C set from the result, V from setOverflow, and
   * the low byte goes to the left operand.
   */
  function Finish(rhs: byte, lhs: byte, b: Lines, result: word): Outcome {
    var val := Lo(result);
    var b1 := b.ClearFlags();
    var b2 := if val == 0 then b1.SetFlag(Z) else b1;
    var b3 := if result & 0x0100 != 0 then b2.SetFlag(C) else b2;
    Outcome(rhs, val, SetOverflow(lhs, rhs, val, b3))
  }

  /** The ALU's own part of onHighClock, once the right operand `rhs` is latched. */
  function Operate(id: byte, rhs: byte, lhs: byte, b: Lines): Outcome {
    if b.put != id then Outcome(rhs, lhs, b)
    else match Slot(b.op)
      case None => Outcome(rhs, lhs, b)
      case Some(o) => Finish(rhs, lhs, b, Apply(o, lhs, rhs, b.IsSet(C)))
  }

  /** ALU::onHighClock: the inherited Register::onHighClock, then the operation. */
  function High(id: byte, rhs: byte, lhs: byte, b: Lines): Outcome {
    Operate(id, CpuRegister.High(id, rhs, b), lhs, b)
  }

  // Bit-level facts about each lambda, one small solver query each.

  lemma AddFacts(l: byte, r: byte, c: bool)
    ensures Lo(AddOp(l, r, c)) == l + r + CarryIn(c)
    ensures (AddOp(l, r, c) & 0x0100 != 0) == (l as int + r as int + CarryValue(c) >= 256)
  {
  }

  lemma SubFacts(l: byte, r: byte, c: bool)
    ensures Lo(SubOp(l, r, c)) == l - r - CarryIn(c)
    ensures (SubOp(l, r, c) & 0x0100 != 0) == (l as int < r as int + CarryValue(c))
  {
  }

  lemma ShlFacts(r: byte, c: bool)
    ensures Lo(ShlOp(r, c)) == (r << 1) | CarryIn(c)
    ensures (ShlOp(r, c) & 0x0100 != 0) == (r & 0x80 != 0)
  {
  }

  lemma ShrFacts(r: byte, c: bool)
    ensures Lo(ShrOp(r, c)) == (r >> 1) | (CarryIn(c) << 7)
    ensures (ShrOp(r, c) & 0x0100 != 0) == (r & 0x01 != 0)
  {
  }

  lemma LogicFacts(l: byte, r: byte)
    ensures Lo(r as word & l as word) == l & r && (r as word & l as word) & 0x0100 == 0
    ensures Lo(r as word | l as word) == l | r && (r as word | l as word) & 0x0100 == 0
    ensures Lo(r as word ^ l as word) == l ^ r && (r as word ^ l as word) & 0x0100 == 0
    ensures Lo(!(r as word) & 0x00FF) == !r && (!(r as word) & 0x00FF) & 0x0100 == 0
  {
  }

  /** The lambda's low byte and bit 8 are the reference value and carry for this operator. */
  predicate Matches(o: Operator, lhs: byte, rhs: byte, carryIn: bool) {
    Lo(Apply(o, lhs, rhs, carryIn)) == RefValue(o, lhs, rhs, carryIn) &&
    (Apply(o, lhs, rhs, carryIn) & 0x0100 != 0) == RefCarry(o, lhs, rhs, carryIn)
  }

  lemma AddMatches(lhs: byte, rhs: byte, carryIn: bool)
    ensures Matches(Add, lhs, rhs, carryIn)
  {
    AddFacts(lhs, rhs, false);
  }

  lemma AdcMatches(lhs: byte, rhs: byte, carryIn: bool)
    ensures Matches(Adc, lhs, rhs, carryIn)
  {
    AddFacts(lhs, rhs, carryIn);
  }

  lemma SubMatches(lhs: byte, rhs: byte, carryIn: bool)
    ensures Matches(Sub, lhs, rhs, carryIn)
  {
    SubFacts(lhs, rhs, false);
  }

  lemma SbbMatches(lhs: byte, rhs: byte, carryIn: bool)
    ensures Matches(Sbb, lhs, rhs, carryIn)
  {
    SubFacts(lhs, rhs, carryIn);
  }

  lemma AndMatches(lhs: byte, rhs: byte, carryIn: bool)
    ensures Matches(And, lhs, rhs, carryIn)
  {
    LogicFacts(lhs, rhs);
  }

  lemma OrMatches(lhs: byte, rhs: byte, carryIn: bool)
    ensures Matches(Or, lhs, rhs, carryIn)
  {
    LogicFacts(lhs, rhs);
  }

  lemma XorMatches(lhs: byte, rhs: byte, carryIn: bool)
    ensures Matches(Xor, lhs, rhs, carryIn)
  {
    LogicFacts(lhs, rhs);
  }

  lemma NotMatches(lhs: byte, rhs: byte, carryIn: bool)
    ensures Matches(Not, lhs, rhs, carryIn)
  {
    LogicFacts(lhs, rhs);
  }

  lemma ShlMatches(lhs: byte, rhs: byte, carryIn: bool)
    ensures Matches(Shl, lhs, rhs, carryIn)
  {
    ShlFacts(rhs, carryIn);
  }

  lemma ShrMatches(lhs: byte, rhs: byte, carryIn: bool)
    ensures Matches(Shr, lhs, rhs, carryIn)
  {
    ShrFacts(rhs, carryIn);
  }

  lemma {:induction false} ArithmeticMatches(o: Operator, lhs: byte, rhs: byte, carryIn: bool)
    requires o.Arithmetic()
    ensures Matches(o, lhs, rhs, carryIn)
  {
    match o
    case Add => AddMatches(lhs, rhs, carryIn);
    case Adc => AdcMatches(lhs, rhs, carryIn);
    case Sub => SubMatches(lhs, rhs, carryIn);
    case Sbb => SbbMatches(lhs, rhs, carryIn);
  }

  lemma {:induction false} LogicMatches(o: Operator, lhs: byte, rhs: byte, carryIn: bool)
    requires o.And? || o.Or? || o.Xor? || o.Not?
    ensures Matches(o, lhs, rhs, carryIn)
  {
    match o
    case And => AndMatches(lhs, rhs, carryIn);
    case Or => OrMatches(lhs, rhs, carryIn);
    case Xor => XorMatches(lhs, rhs, carryIn);
    case Not => NotMatches(lhs, rhs, carryIn);
  }

  lemma {:induction false} ShiftMatches(o: Operator, lhs: byte, rhs: byte, carryIn: bool)
    requires o.Shl? || o.Shr?
    ensures Matches(o, lhs, rhs, carryIn)
  {
    if o.Shl? {
      ShlMatches(lhs, rhs, carryIn);
    } else {
      ShrMatches(lhs, rhs, carryIn);
    }
  }

  lemma {:induction false} BitwiseMatches(o: Operator, lhs: byte, rhs: byte, carryIn: bool)
    requires !o.Arithmetic()
    ensures Matches(o, lhs, rhs, carryIn)
  {
    if o.And? || o.Or? || o.Xor? || o.Not? {
      LogicMatches(o, lhs, rhs, carryIn);
    } else if o.Clr? {
      LogicFacts(lhs, rhs);
    } else {
      ShiftMatches(o, lhs, rhs, carryIn);
    }
  }

  /**
   * Every operator in the table leaves the reference value in its low byte
   * and the reference carry in bit 8: ADD/ADC carry on unsigned overflow,
   * SUB/SBB on borrow, SHL/SHR the bit shifted out, the others never.
   */
  lemma {:induction false} ApplyMatches(o: Operator, lhs: byte, rhs: byte, carryIn: bool)
    ensures Matches(o, lhs, rhs, carryIn)
  {
    if o.Arithmetic() {
      ArithmeticMatches(o, lhs, rhs, carryIn);
    } else {
      BitwiseMatches(o, lhs, rhs, carryIn);
    }
  }

  lemma AddOverflowMatches(lhs: byte, rhs: byte, carryIn: bool)
    ensures OverflowRule(0, lhs, rhs, RefValue(Add, lhs, rhs, carryIn)) == RefOverflow(Add, lhs, rhs, carryIn)
  {
  }

  lemma AdcOverflowMatches(lhs: byte, rhs: byte, carryIn: bool)
    ensures OverflowRule(1, lhs, rhs, RefValue(Adc, lhs, rhs, carryIn)) == RefOverflow(Adc, lhs, rhs, carryIn)
  {
  }

  lemma SubOverflowMatches(lhs: byte, rhs: byte, carryIn: bool)
    ensures OverflowRule(2, lhs, rhs, RefValue(Sub, lhs, rhs, carryIn)) == RefOverflow(Sub, lhs, rhs, carryIn)
  {
  }

  lemma SbbOverflowMatches(lhs: byte, rhs: byte, carryIn: bool)
    ensures OverflowRule(3, lhs, rhs, RefValue(Sbb, lhs, rhs, carryIn)) == RefOverflow(Sbb, lhs, rhs, carryIn)
  {
  }

  /**
   * The sign-bit rule of setOverflow, applied to the pre-write lhs, the rhs
   * and the written byte, sets V exactly on signed (two's-complement) overflow.
   */
  lemma {:induction false} SignBitsDetectOverflow(opflags: byte, lhs: byte, rhs: byte, carryIn: bool)
    requires opflags <= 3
    ensures var o := Slot(opflags).value;
            OverflowRule(opflags, lhs, rhs, RefValue(o, lhs, rhs, carryIn)) == RefOverflow(o, lhs, rhs, carryIn)
  {
    if opflags == 0 {
      AddOverflowMatches(lhs, rhs, carryIn);
    } else if opflags == 1 {
      AdcOverflowMatches(lhs, rhs, carryIn);
    } else if opflags == 2 {
      SubOverflowMatches(lhs, rhs, carryIn);
    } else {
      SbbOverflowMatches(lhs, rhs, carryIn);
    }
  }

  /** SignExtend is the 16-bit two's-complement encoding of the byte's signed value. */
  lemma SignExtendIsSigned(b: byte)
    ensures SignExtend(b) as int == if Signed(b) < 0 then Signed(b) + 0x10000 else Signed(b)
  {
  }

  lemma FlagByteReads(z: bool, c: bool, v: bool)
    ensures (FlagByte(z, c, v) & Z != 0) == z
    ensures (FlagByte(z, c, v) & C != 0) == c
    ensures (FlagByte(z, c, v) & V != 0) == v
    ensures FlagByte(z, c, v) & !(Z | C | V) == 0
  {
  }

  /** Clearing, then setting Z and C as given, leaves exactly those flags. */
  lemma ClearThenSet(b: Lines, z: bool, c: bool)
    ensures var b1 := b.ClearFlags();
            var b2 := if z then b1.SetFlag(Z) else b1;
            var b3 := if c then b2.SetFlag(C) else b2;
            b3 == b.(flags := FlagByte(z, c, false))
  {
  }

  /** setFlag(V, v) then adds exactly V as given. */
  lemma ThenOverflow(b: Lines, z: bool, c: bool, v: bool)
    requires b.flags == FlagByte(z, c, false)
    ensures b.SetFlagTo(V, v) == b.(flags := FlagByte(z, c, v))
  {
  }

  /** setOverflow after Z and C: V joins them for opflags 0-3, the flags stay as they are otherwise. */
  lemma OverflowStep(b: Lines, lhs: byte, rhs: byte, val: byte, z: bool, c: bool)
    requires b.flags == FlagByte(z, c, false)
    ensures SetOverflow(lhs, rhs, val, b) == b.(flags := FlagByte(z, c, b.op <= 3 && OverflowRule(b.op, lhs, rhs, val)))
  {
    if b.op <= 3 {
      ThenOverflow(b, z, c, OverflowRule(b.op, lhs, rhs, val));
    }
  }

  /**
   * The tail as the source writes it: the low byte of the lambda's word goes
   * to the left operand and the flags are rebuilt from nothing as Z, C (bit 8
   * of the word) and, for opflags 0-3 only, V by the sign-bit rule.
   */
  lemma FinishFlags(rhs: byte, lhs: byte, b: Lines, result: word)
    ensures Finish(rhs, lhs, b, result) ==
              Outcome(rhs, Lo(result), b.(flags := FlagByte(Lo(result) == 0, result & 0x0100 != 0,
                                                        b.op <= 3 && OverflowRule(b.op, lhs, rhs, Lo(result)))))
  {
    var val := Lo(result);
    var carry := result & 0x0100 != 0;
    ClearThenSet(b, val == 0, carry);
    OverflowStep(b.(flags := FlagByte(val == 0, carry, false)), lhs, rhs, val, val == 0, carry);
  }

  /**
   * What the high clock computes, for the put target with a non-empty slot:
   * the left operand receives the reference value, and the flags are exactly
   * Z (result zero), C (carry, borrow or the bit shifted out) and V (signed
   * overflow, arithmetic operators only). The carry-in is the C flag as it
   * was before the flags were cleared, and the right operand is the byte just
   * latched when XDATA is asserted.
   */
  lemma {:induction false} HighComputes(id: byte, rhs: byte, lhs: byte, b: Lines)
    requires b.put == id && Slot(b.op).Some?
    ensures var o := Slot(b.op).value;
            var rhs' := CpuRegister.High(id, rhs, b);
            var val := RefValue(o, lhs, rhs', b.IsSet(C));
            High(id, rhs, lhs, b) ==
              Outcome(rhs', val, b.(flags := FlagByte(val == 0, RefCarry(o, lhs, rhs', b.IsSet(C)),
                                                      RefOverflow(o, lhs, rhs', b.IsSet(C)))))
  {
    var o := Slot(b.op).value;
    var rhs' := CpuRegister.High(id, rhs, b);
    var cin := b.IsSet(C);
    FinishFlags(rhs', lhs, b, Apply(o, lhs, rhs', cin));
    ApplyMatches(o, lhs, rhs', cin);
    if b.op <= 3 {
      SignBitsDetectOverflow(b.op, lhs, rhs', cin);
    } else {
      assert !o.Arithmetic();
    }
  }

  /** An empty slot leaves the flags and the left operand untouched. */
  lemma EmptySlotIsInert(id: byte, rhs: byte, lhs: byte, b: Lines)
    requires Slot(b.op).None?
    ensures High(id, rhs, lhs, b) == Outcome(CpuRegister.High(id, rhs, b), lhs, b)
  {
  }

  /** Not the put target: the ALU keeps both operands and the bus as they were. */
  lemma NotAddressedIsInert(id: byte, rhs: byte, lhs: byte, b: Lines)
    requires b.put != id
    ensures High(id, rhs, lhs, b) == Outcome(rhs, lhs, b)
  {
  }

  /** CLR leaves zero in the left operand with only Z set. */
  lemma ClearSetsZero(id: byte, rhs: byte, lhs: byte, b: Lines)
    requires b.put == id && b.op == 0xE
    ensures High(id, rhs, lhs, b).lhs == 0
    ensures High(id, rhs, lhs, b).bus.flags == Z
  {
    HighComputes(id, rhs, lhs, b);
  }

  /**
   * Read flag by flag: after an operation the left operand holds the
   * reference value, Z says it is zero, C and V are the reference carry and
   * overflow, and nothing on the bus but the flags has changed.
   */
  lemma {:induction false} HighFlags(id: byte, rhs: byte, lhs: byte, b: Lines)
    requires b.put == id && Slot(b.op).Some?
    ensures var o := Slot(b.op).value;
            var rhs' := CpuRegister.High(id, rhs, b);
            var r := High(id, rhs, lhs, b);
            r.rhs == rhs' && r.lhs == RefValue(o, lhs, rhs', b.IsSet(C)) &&
            r.bus.IsSet(Z) == (r.lhs == 0) &&
            r.bus.IsSet(C) == RefCarry(o, lhs, rhs', b.IsSet(C)) &&
            r.bus.IsSet(V) == RefOverflow(o, lhs, rhs', b.IsSet(C)) &&
            r.bus.(flags := b.flags) == b
  {
    var o := Slot(b.op).value;
    var rhs' := CpuRegister.High(id, rhs, b);
    var cin := b.IsSet(C);
    HighComputes(id, rhs, lhs, b);
    var val := RefValue(o, lhs, rhs', cin);
    FlagByteReads(val == 0, RefCarry(o, lhs, rhs', cin), RefOverflow(o, lhs, rhs', cin));
  }

  /** ADD with the operand already held: lhs + rhs, C on unsigned overflow, Z on zero. */
  lemma AddThroughBus(id: byte, rhs: byte, lhs: byte, b: Lines)
    requires b.put == id && b.op == 0 && !b.DataTransfer()
    ensures var r := High(id, rhs, lhs, b);
            r.lhs == lhs + rhs && r.rhs == rhs &&
            r.bus.IsSet(C) == (lhs as int + rhs as int >= 256) &&
            r.bus.IsSet(Z) == (lhs + rhs == 0)
  {
    HighFlags(id, rhs, lhs, b);
  }

  /** SBB subtracts the carry: lhs - rhs - C, with C set exactly on a borrow. */
  lemma SubtractWithBorrowThroughBus(id: byte, rhs: byte, lhs: byte, b: Lines)
    requires b.put == id && b.op == 3 && !b.DataTransfer()
    ensures var r := High(id, rhs, lhs, b);
            r.lhs == lhs - rhs - CarryIn(b.IsSet(C)) &&
            r.bus.IsSet(C) == (lhs as int < rhs as int + CarryValue(b.IsSet(C)))
  {
    assert Slot(b.op) == Some(Sbb) && CpuRegister.High(id, rhs, b) == rhs;
    HighFlags(id, rhs, lhs, b);
  }

  /** The ALU: a register holding the right operand, wired to the left-operand register. */
  class ALU {
    const id: byte
    var value: byte
    const lhs: CpuRegister.Register
    const bus: SystemBus

    constructor (ident: byte, lhsRegister: CpuRegister.Register, sharedBus: SystemBus)
      ensures id == ident && value == 0 && lhs == lhsRegister && bus == sharedBus
    {
      id := ident;
      value := 0;
      lhs := lhsRegister;
      bus := sharedBus;
    }

    method Reset() returns (err: SystemError)
      modifies this
      ensures value == 0 && err == NoError
    {
      value := 0;
      err := NoError;
    }

    /** ALU::onRisingClockEdge is declared as an override in include/alu.h:40, but src/cpu/alu.cpp has no
        body for it; this model drives the right operand with Register::onRisingClockEdge. */
    method OnRisingClockEdge() returns (err: SystemError)
      modifies bus
      ensures bus.State() == CpuRegister.Rising(id, value, old(bus.State()))
      ensures err == NoError
    {
      if !bus.xdata && bus.get == id {
        bus.PutOnDataBus(value);
      }
      err := NoError;
    }

    method SetOverflowFlag(val: byte)
      modifies bus
      ensures bus.State() == SetOverflow(lhs.value, value, val, old(bus.State()))
    {
      var s1 := lhs.value & 0x80 != 0;
      var s2 := value & 0x80 != 0;
      var sr := val & 0x80 != 0;
      if bus.op == 0 || bus.op == 1 {
        bus.SetFlagTo(V, s1 == s2 && sr != s1);
      } else if bus.op == 2 || bus.op == 3 {
        bus.SetFlagTo(V, s1 != s2 && sr != s1);
      }
    }

    /**
     * The flag updates of onHighClock once the lambda has produced its word:
     * the flags are rebuilt from the low byte `val` and bit 8 `carry`.
     */
    method WriteFlags(val: byte, carry: bool)
      modifies bus
      ensures bus.State() == old(bus.State()).(flags := FlagByte(val == 0, carry,
                old(bus.op) <= 3 && OverflowRule(old(bus.op), lhs.value, value, val)))
    {
      ghost var b := bus.State();
      ClearThenSet(b, val == 0, carry);
      bus.ClearFlags();
      if val == 0 {
        bus.SetFlag(Z);
      }
      if carry {
        bus.SetFlag(C);
      }
      ghost var b3 := bus.State();
      assert b3 == b.(flags := FlagByte(val == 0, carry, false));
      SetOverflowFlag(val);
      OverflowStep(b3, lhs.value, value, val, val == 0, carry);
    }

    /** The body of ALU::onHighClock after the inherited latch. */
    method Execute()
      modifies lhs, bus
      ensures Outcome(value, lhs.value, bus.State()) == Operate(id, value, old(lhs.value), old(bus.State()))
    {
      ghost var b := bus.State();
      ghost var lhs0 := lhs.value;
      if bus.put == id {
        var slot := Slot(bus.op);
        if slot.Some? {
          assert (bus.flags & C != 0) == b.IsSet(C);
          var result := Apply(slot.value, lhs.value, value, bus.flags & C != 0);
          WriteFlags(Lo(result), result & 0x0100 != 0);
          lhs.SetValue(Lo(result));
          FinishFlags(value, lhs0, b, result);
        }
      }
    }

    method OnHighClock() returns (err: SystemError)
      modifies this, lhs, bus
      ensures Outcome(value, lhs.value, bus.State()) == High(id, old(value), old(lhs.value), old(bus.State()))
      ensures err == NoError
    {
      if !bus.xdata && bus.put == id {
        value := bus.dataBus;
      }
      Execute();
      err := NoError;
    }
  }
}
