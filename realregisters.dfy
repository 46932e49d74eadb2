// The earlier generation's registers (src/register.cpp,
// src/addressregister.cpp, include/addressregister.h). They read and write
// the wires of their owning system instead of a shared bus object, and
// their transitions are the current engine's: each method is proved equal
// to the CpuRegister or CpuAddressRegister function on the same wires.
module RealRegisters {
  import opened Bits
  import opened Errors
  import opened ControlLines
  import SystemBus
  import CpuRegister
  import CpuAddressRegister

  /** An 8-bit register of the earlier system. */
  class Register {
    const id: byte
    var value: byte

    /** The old register's constructor is not part of this model; it is assumed to start at 0, as reset leaves it. */
    constructor (registerId: byte)
      ensures id == registerId && value == 0
    {
      id := registerId;
      value := 0;
    }

    method Reset() returns (err: SystemError)
      modifies this
      ensures value == 0 && err == NoError
    {
      value := 0;
      err := NoError;
    }

    /** Drive the value when the data line is asserted and this register is the source. */
    method OnRisingClockEdge(w: Wires) returns (w': Wires, err: SystemError)
      ensures w' == w.WithBuses(CpuRegister.Rising(id, value, w.AsLines())) && err == NoError
    {
      w', err := w, NoError;
      if !w.control.xdata && w.control.get == id {
        w' := w.(dataBus := value);
      }
    }

    /** Latch the data bus when the data line is asserted and this register is the destination. */
    method OnHighClock(w: Wires) returns (err: SystemError)
      modifies this
      ensures value == CpuRegister.High(id, old(value), w.AsLines()) && err == NoError
    {
      if !w.control.xdata && w.control.put == id {
        value := w.dataBus;
      }
      err := NoError;
    }
  }

  /** A 16-bit address register of the earlier system. */
  class AddressRegister {
    const id: byte
    const name: string
    var value: word

    constructor (registerId: byte, n: string)
      ensures id == registerId && name == n && value == 0
    {
      id := registerId;
      name := n;
      value := 0;
    }

    method SetValue(v: word)
      modifies this
      ensures value == v
    {
      value := v;
    }

    method Reset() returns (err: SystemError)
      modifies this
      ensures value == 0 && err == NoError
    {
      value := 0;
      err := NoError;
    }

    /** As the source: drive a byte (XDATA) or both bytes and step the value (XADDR). */
    method OnRisingClockEdge(w: Wires) returns (w': Wires, err: SystemError)
      modifies this
      ensures w' == w.WithBuses(CpuAddressRegister.Rising(id, old(value), w.AsLines()).0)
      ensures value == CpuAddressRegister.Rising(id, old(value), w.AsLines()).1 && err == NoError
    {
      var b := w.AsLines();
      w', err := w, NoError;
      if b.get == id {
        if b.DataTransfer() {
          if b.op & SystemBus.MSB != 0 {
            w' := w.(dataBus := Hi(value));
          } else {
            w' := w.(dataBus := Lo(value));
          }
        } else if b.AddrTransfer() {
          w' := w.(dataBus := Lo(value), addrBus := Hi(value));
          if b.op & SystemBus.Inc != 0 {
            value := value + 1;
          } else if b.op & SystemBus.Dec != 0 {
            value := value - 1;
          }
        }
      }
    }

    /** As the destination: replace the half MSB selects (XDATA) or load addr << 8 | data (XADDR). */
    method OnHighClock(w: Wires) returns (err: SystemError)
      modifies this
      ensures value == CpuAddressRegister.High(id, old(value), w.AsLines()) && err == NoError
    {
      var b := w.AsLines();
      if b.DataTransfer() && b.put == id {
        if b.op & SystemBus.MSB == 0 {
          value := Join(Hi(value), b.dataBus);
        } else {
          value := Join(b.dataBus, Lo(value));
        }
      } else if b.AddrTransfer() && b.put == id {
        value := Join(b.addrBus, b.dataBus);
      }
      err := NoError;
    }
  }
}
