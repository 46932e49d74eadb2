// The shared bus of the current engine: include/systembus.h and
// src/cpu/systembus.cpp. The control lines are ACTIVE LOW, as in the source:
// `xdata == false` means a data transfer is asserted, `halt == false` means
// the halt line is asserted.
module SystemBus {
  import opened Bits
  import opened Errors

  // Processor flags.
  const Z: byte := 0x01
  const C: byte := 0x02
  const V: byte := 0x04

  // Operator flags carried with a transfer.
  const OpNone: byte := 0x00
  const Inc: byte := 0x01
  const Dec: byte := 0x02
  const MSB: byte := 0x08
  const Mask: byte := 0x0F
  const Halt: byte := 0x0F
  const Done: byte := 0x10

  predicate IsFlag(f: byte) {
    f == Z || f == C || f == V
  }

  /** Value of every wire and of the processor-flag byte. */
  datatype Lines = Lines(
    dataBus: byte, addrBus: byte, put: byte, get: byte, op: byte,
    halt: bool, sus: bool, sack: bool, xdata: bool, xaddr: bool, rst: bool, io: bool,
    flags: byte)
  {
    /** The data-transfer line is asserted. */
    predicate DataTransfer() { !xdata }
    /** The address-transfer line is asserted. */
    predicate AddrTransfer() { !xaddr }
    /** The halt line is asserted. */
    predicate Halted() { !halt }

    predicate IsSet(f: byte) { flags & f != 0 }

    /** SystemBus::reset: every line de-asserted, ids, operator and both buses zero; flags kept. */
    function Reset(): Lines {
      Lines(dataBus := 0, addrBus := 0, put := 0, get := 0, op := 0,
            halt := true, sus := true, sack := true, xdata := true, xaddr := true, rst := false, io := true,
            flags := flags)
    }

    /** SystemBus::initialize: the seven values stored verbatim. */
    function Initialize(xd: bool, xa: bool, getReg: byte, putReg: byte, opflags: byte, dataVal: byte, addrVal: byte): Lines {
      this.(xdata := xd, xaddr := xa, get := getReg, put := putReg, op := opflags,
            dataBus := dataVal, addrBus := addrVal)
    }

    /** SystemBus::xdata(from, to, opflags). */
    function Xdata(from: byte, to: byte, opflags: byte): Lines {
      this.(xdata := false, xaddr := true, get := from, put := to, op := opflags)
    }

    /** SystemBus::xaddr(from, to, opflags). */
    function Xaddr(from: byte, to: byte, opflags: byte): Lines {
      this.(xdata := true, xaddr := false, get := from, put := to, op := opflags)
    }

    /** SystemBus::stop asserts the halt line. */
    function Stop(): Lines {
      this.(halt := false)
    }

    function PutOnDataBus(v: byte): Lines {
      this.(dataBus := v)
    }

    function PutOnAddrBus(v: byte): Lines {
      this.(addrBus := v)
    }

    function SetFlag(f: byte): Lines {
      this.(flags := flags | f)
    }

    function ClearFlag(f: byte): Lines {
      this.(flags := flags & !f)
    }

    function ClearFlags(): Lines {
      this.(flags := 0)
    }

    /** The two-argument setFlag(flag, on) used by the ALU. */
    function SetFlagTo(f: byte, on: bool): Lines {
      if on then SetFlag(f) else ClearFlag(f)
    }
  }

  /** The power-on state of the fields that have an initialiser in include/systembus.h. */
  predicate PowerOn(b: Lines) {
    b.dataBus == 0 && b.addrBus == 0 && b.put == 0 && b.get == 0 && b.op == 0 &&
    b.halt && b.sus && b.sack && b.xdata && b.xaddr && !b.rst && b.io
  }

  lemma ResetDeassertsEverything(b: Lines)
    ensures PowerOn(b.Reset())
    ensures !b.Reset().DataTransfer() && !b.Reset().AddrTransfer() && !b.Reset().Halted()
    ensures b.Reset().flags == b.flags
    ensures b.Reset().Reset() == b.Reset()
  {
  }

  lemma TransferLinesExclusive(b: Lines, from: byte, to: byte, opflags: byte)
    ensures b.Xdata(from, to, opflags).DataTransfer() && !b.Xdata(from, to, opflags).AddrTransfer()
    ensures b.Xaddr(from, to, opflags).AddrTransfer() && !b.Xaddr(from, to, opflags).DataTransfer()
    ensures b.Xdata(from, to, opflags).get == from && b.Xdata(from, to, opflags).put == to
    ensures b.Xdata(from, to, opflags).op == opflags
    ensures b.Xaddr(from, to, opflags).get == from && b.Xaddr(from, to, opflags).put == to
    ensures b.Xaddr(from, to, opflags).op == opflags
    ensures b.Xdata(from, to, opflags).Xaddr(from, to, opflags) == b.Xaddr(from, to, opflags)
    ensures b.Xaddr(from, to, opflags).Xdata(from, to, opflags) == b.Xdata(from, to, opflags)
  {
  }

  lemma InitializeMayAssertBoth(b: Lines, getReg: byte, putReg: byte, opflags: byte, d: byte, a: byte)
    ensures b.Initialize(false, false, getReg, putReg, opflags, d, a).DataTransfer()
    ensures b.Initialize(false, false, getReg, putReg, opflags, d, a).AddrTransfer()
    ensures b.Initialize(false, false, getReg, putReg, opflags, d, a).flags == b.flags
  {
  }

  lemma StopOnlyAssertsHalt(b: Lines)
    ensures b.Stop().Halted()
    ensures b.Stop().(halt := b.halt) == b
  {
  }

  lemma PutOnBusChangesOneByte(b: Lines, v: byte)
    ensures b.PutOnDataBus(v).dataBus == v && b.PutOnDataBus(v).(dataBus := b.dataBus) == b
    ensures b.PutOnAddrBus(v).addrBus == v && b.PutOnAddrBus(v).(addrBus := b.addrBus) == b
  {
  }

  /** Setting one processor flag leaves the other two as they were. */
  lemma SetFlagKeepsOthers(b: Lines, f: byte, g: byte)
    requires IsFlag(f) && IsFlag(g) && f != g
    ensures b.SetFlag(f).IsSet(f)
    ensures b.SetFlag(f).IsSet(g) == b.IsSet(g)
  {
  }

  /** Clearing one processor flag leaves the other two as they were. */
  lemma ClearFlagKeepsOthers(b: Lines, f: byte, g: byte)
    requires IsFlag(f) && IsFlag(g) && f != g
    ensures !b.ClearFlag(f).IsSet(f)
    ensures b.ClearFlag(f).IsSet(g) == b.IsSet(g)
    ensures !b.ClearFlags().IsSet(f)
  {
  }

  /** The bus object the components share. */
  class SystemBus {
    var dataBus: byte
    var addrBus: byte
    var put: byte
    var get: byte
    var op: byte
    var halt: bool
    var sus: bool
    var sack: bool
    var xdata: bool
    var xaddr: bool
    var rst: bool
    var io: bool
    var flags: byte

    function State(): Lines
      reads this
    {
      Lines(dataBus, addrBus, put, get, op, halt, sus, sack, xdata, xaddr, rst, io, flags)
    }

    /** The flag byte has no initialiser in the source, so nothing is promised about it. */
    constructor ()
      ensures PowerOn(State())
    {
      dataBus, addrBus, put, get, op := 0, 0, 0, 0, 0;
      halt, sus, sack, xdata, xaddr, rst, io := true, true, true, true, true, false, true;
    }

    method Reset() returns (err: SystemError)
      modifies this
      ensures State() == old(State()).Reset()
      ensures err == NoError
    {
      xdata, xaddr := true, true;
      get, put, op := 0, 0, 0;
      dataBus, addrBus := 0, 0;
      assert State() == Lines(0, 0, 0, 0, 0, halt, sus, sack, true, true, rst, io, flags);
      sus, sack, rst, io, halt := true, true, false, true, true;
      assert State() == Lines(0, 0, 0, 0, 0, true, true, true, true, true, false, true, flags);
      err := NoError;
    }

    method PutOnDataBus(v: byte)
      modifies this
      ensures State() == old(State()).PutOnDataBus(v)
    {
      dataBus := v;
    }

    method PutOnAddrBus(v: byte)
      modifies this
      ensures State() == old(State()).PutOnAddrBus(v)
    {
      addrBus := v;
    }

    method Initialize(xd: bool, xa: bool, getReg: byte, putReg: byte, opflags: byte, dataVal: byte, addrVal: byte)
      modifies this
      ensures State() == old(State()).Initialize(xd, xa, getReg, putReg, opflags, dataVal, addrVal)
    {
      xdata := xd;
      xaddr := xa;
      get := getReg;
      put := putReg;
      op := opflags;
      dataBus := dataVal;
      addrBus := addrVal;
    }

    method Xdata(from: byte, to: byte, opflags: byte)
      modifies this
      ensures State() == old(State()).Xdata(from, to, opflags)
    {
      xdata := false;
      xaddr := true;
      get := from;
      put := to;
      op := opflags;
    }

    method Xaddr(from: byte, to: byte, opflags: byte)
      modifies this
      ensures State() == old(State()).Xaddr(from, to, opflags)
    {
      xdata := true;
      xaddr := false;
      get := from;
      put := to;
      op := opflags;
    }

    method Stop()
      modifies this
      ensures State() == old(State()).Stop()
    {
      halt := false;
    }

    method SetFlag(f: byte)
      modifies this
      ensures State() == old(State()).SetFlag(f)
    {
      flags := flags | f;
    }

    method ClearFlag(f: byte)
      modifies this
      ensures State() == old(State()).ClearFlag(f)
    {
      flags := flags & !f;
    }

    method ClearFlags()
      modifies this
      ensures State() == old(State()).ClearFlags()
    {
      flags := 0;
    }

    method SetFlagTo(f: byte, on: bool)
      modifies this
      ensures State() == old(State()).SetFlagTo(f, on)
    {
      if on {
        SetFlag(f);
      } else {
        ClearFlag(f);
      }
    }
  }
}
