// The earlier generation's control lines (include/lines.h, src/lines.cpp)
// and the wires of its system: the data bus, the address bus and the
// control lines that RealSystem keeps (include/realsystem.h). The lines are
// active low, as on the current engine's bus.
module ControlLines {
  import opened Bits
  import SystemBus

  datatype Control = Control(
    put: byte, get: byte, op: byte,
    halt: bool, sus: bool, sack: bool, xdata: bool, xaddr: bool, rst: bool, io: bool)
  {
    predicate DataTransfer() { !xdata }
    predicate AddrTransfer() { !xaddr }
  }

  /** ControlLines::reset: ids and operator zero, every active-low line high, rst low. */
  const Released: Control := Control(0, 0, 0, true, true, true, true, true, false, true)

  /**
   * ControlLines::copy as written: every line is copied, but `op` receives
   * the other's `get`.
   */
  function Copied(other: Control): (r: Control)
    ensures r.(op := other.op) == other
    ensures r.op == other.get
  {
    other.(op := other.get)
  }

  /** The copy is faithful exactly when the operator already equals the source id. */
  lemma CopyFaithfulIff(other: Control)
    ensures Copied(other) == other <==> other.op == other.get
  {
  }

  /** So copying the control lines of a transfer that carries Inc loses the operator. */
  lemma CopyLosesOperator()
    ensures var c := Released.(xaddr := false, get := 8, put := 15, op := 1);
      Copied(c) != c && Copied(c).op == 8
  {
  }

  /** ControlLines::copy as evidently intended: every line, `op` included, from the same line of the other. */
  function CopiedIntended(other: Control): (r: Control)
    ensures r == other
    ensures r == Copied(other) <==> other.op == other.get
  {
    Control(other.put, other.get, other.op,
      other.halt, other.sus, other.sack, other.xdata, other.xaddr, other.rst, other.io)
  }

  /** Copying twice is copying once. */
  lemma CopyIdempotent(other: Control)
    ensures Copied(Copied(other)) == Copied(other)
  {
  }

  /** The wires of the earlier system: data bus, address bus and control lines. */
  datatype Wires = Wires(dataBus: byte, addrBus: byte, control: Control) {

    /** RealSystem::xdata: data line asserted, address line released, ids and operator stored. */
    function Xdata(from: byte, to: byte, opflags: byte): Wires {
      this.(control := control.(xdata := false, xaddr := true, get := from, put := to, op := opflags))
    }

    /** RealSystem::xaddr, the mirror image of Xdata. */
    function Xaddr(from: byte, to: byte, opflags: byte): Wires {
      this.(control := control.(xdata := true, xaddr := false, get := from, put := to, op := opflags))
    }

    /** The same wires seen as the current engine's bus, with no processor flags. */
    function AsLines(): SystemBus.Lines {
      SystemBus.Lines(dataBus, addrBus, control.put, control.get, control.op,
        control.halt, control.sus, control.sack, control.xdata, control.xaddr, control.rst, control.io, 0)
    }

    /** The two bus bytes of `l` written back onto these wires. */
    function WithBuses(l: SystemBus.Lines): Wires {
      this.(dataBus := l.dataBus, addrBus := l.addrBus)
    }
  }

  /** After xdata or xaddr exactly one transfer line is asserted, and the ids and operator are stored. */
  lemma TransfersExclusive(w: Wires, from: byte, to: byte, opflags: byte)
    ensures w.Xdata(from, to, opflags).control.DataTransfer() && !w.Xdata(from, to, opflags).control.AddrTransfer()
    ensures w.Xaddr(from, to, opflags).control.AddrTransfer() && !w.Xaddr(from, to, opflags).control.DataTransfer()
    ensures w.Xdata(from, to, opflags).control.(xdata := true) == w.Xaddr(from, to, opflags).control.(xaddr := true)
    ensures w.Xdata(from, to, opflags).control.get == from && w.Xdata(from, to, opflags).control.put == to
    ensures w.Xdata(from, to, opflags).control.op == opflags
    ensures w.Xdata(from, to, opflags).dataBus == w.dataBus && w.Xdata(from, to, opflags).addrBus == w.addrBus
  {
  }

  /** Viewing the wires as a bus and writing its bytes back changes nothing. */
  lemma ViewRoundTrip(w: Wires)
    ensures w.WithBuses(w.AsLines()) == w
    ensures w.AsLines().DataTransfer() == w.control.DataTransfer()
    ensures w.AsLines().AddrTransfer() == w.control.AddrTransfer()
  {
  }

  /** The control lines as an object with assignable fields. */
  class ControlLines {
    var put: byte
    var get: byte
    var op: byte
    var halt: bool
    var sus: bool
    var sack: bool
    var xdata: bool
    var xaddr: bool
    var rst: bool
    var io: bool

    function State(): Control
      reads this
    {
      Control(put, get, op, halt, sus, sack, xdata, xaddr, rst, io)
    }

    /** The default constructor calls reset. */
    constructor ()
      ensures State() == Released
    {
      put, get, op := 0, 0, 0;
      halt, sus, sack, xdata, xaddr, rst, io := true, true, true, true, true, false, true;
    }

    /** The copy constructor calls copy. */
    constructor FromOther(other: ControlLines)
      ensures State() == Copied(other.State())
    {
      put := other.put;
      get := other.get;
      op := other.get;
      halt := other.halt;
      sus := other.sus;
      sack := other.sack;
      xdata := other.xdata;
      xaddr := other.xaddr;
      rst := other.rst;
      io := other.io;
    }

    method Reset()
      modifies this
      ensures State() == Released
    {
      put := 0;
      get := 0;
      op := 0;
      halt := true;
      sus := true;
      sack := true;
      xdata := true;
      xaddr := true;
      rst := false;
      io := true;
    }

    /** ControlLines::copy; `other` may be this very object. */
    method Copy(other: ControlLines)
      modifies this
      ensures State() == Copied(old(other.State()))
    {
      var p, g, h, s, sa, xd, xa, r, i :=
        other.put, other.get, other.halt, other.sus, other.sack, other.xdata, other.xaddr, other.rst, other.io;
      put := p;
      get := g;
      op := g;
      halt := h;
      sus := s;
      sack := sa;
      xdata := xd;
      xaddr := xa;
      rst := r;
      io := i;
    }

    /** operator=: nothing happens on self-assignment, otherwise copy. */
    method Assign(rhs: ControlLines)
      modifies this
      ensures rhs == this ==> State() == old(State())
      ensures rhs != this ==> State() == Copied(old(rhs.State()))
    {
      if rhs != this {
        Copy(rhs);
      }
    }
  }
}
