// An 8-bit general register on the bus (src/cpu/register.cpp). The earlier
// generation's Register (src/register.cpp) reacts to the same lines in the
// same way, so both are modelled by the transition functions below.
module CpuRegister {
  import opened Bits
  import opened Errors
  import opened SystemBus
  import Ids

  /** The unit's name: the single character 'A' + id, truncated to a C++ char. */
  function Name(id: byte): (s: string)
    ensures |s| == 1
  {
    [((65 + id as int) % 256) as char]
  }

  /** Rising edge: drive the value onto the data bus when this register is the data source. */
  function Rising(id: byte, value: byte, b: Lines): (r: Lines)
    ensures r.(dataBus := b.dataBus) == b
  {
    if b.DataTransfer() && b.get == id then b.PutOnDataBus(value) else b
  }

  /** High clock: the new value, the data bus when this register is the data destination. */
  function High(id: byte, value: byte, b: Lines): byte {
    if b.DataTransfer() && b.put == id then b.dataBus else value
  }

  lemma NamesOfGeneralRegisters()
    ensures Name(Ids.GP_A) == "A" && Name(Ids.GP_B) == "B"
    ensures Name(Ids.GP_C) == "C" && Name(Ids.GP_D) == "D"
  {
  }

  /** Distinct ids below 26 give distinct letters. */
  lemma NameInjective(i: byte, j: byte)
    requires i < 26 && j < 26 && i != j
    ensures Name(i) != Name(j)
  {
    assert Name(i)[0] != Name(j)[0];
  }

  /** The register drives the bus exactly when XDATA is asserted and it is the source. */
  lemma DrivesIff(id: byte, value: byte, b: Lines)
    ensures b.DataTransfer() && b.get == id ==> Rising(id, value, b).dataBus == value
    ensures !(b.DataTransfer() && b.get == id) ==> Rising(id, value, b) == b
  {
  }

  /** The register latches exactly when XDATA is asserted and it is the destination. */
  lemma LatchesIff(id: byte, value: byte, b: Lines)
    ensures b.DataTransfer() && b.put == id ==> High(id, value, b) == b.dataBus
    ensures !(b.DataTransfer() && b.put == id) ==> High(id, value, b) == value
  {
  }

  /** An address-only transfer never touches a register or the bus through it. */
  lemma AddressTransferIgnored(id: byte, value: byte, b: Lines)
    requires !b.DataTransfer()
    ensures Rising(id, value, b) == b && High(id, value, b) == value
  {
  }

  /** A data transfer from register `src` to register `dst` copies the source's value. */
  lemma TransferCopies(src: byte, srcValue: byte, dst: byte, dstValue: byte, b: Lines)
    requires b.DataTransfer() && b.get == src && b.put == dst
    ensures High(dst, dstValue, Rising(src, srcValue, b)) == srcValue
  {
  }

  /** A register connected to the shared bus. */
  class Register {
    const id: byte
    const name: string
    var value: byte
    const bus: SystemBus

    constructor (registerId: byte, sharedBus: SystemBus)
      ensures id == registerId && name == Name(registerId) && value == 0 && bus == sharedBus
    {
      id := registerId;
      name := Name(registerId);
      value := 0;
      bus := sharedBus;
    }

    method SetValue(v: byte)
      modifies this
      ensures value == v
    {
      value := v;
    }

    method Reset() returns (err: SystemError)
      modifies this
      ensures value == 0 && err == NoError
    {
      value := 0;
      err := NoError;
    }

    method OnRisingClockEdge() returns (err: SystemError)
      modifies bus
      ensures bus.State() == Rising(id, value, old(bus.State()))
      ensures err == NoError
    {
      if !bus.xdata && bus.get == id {
        bus.PutOnDataBus(value);
      }
      err := NoError;
    }

    method OnHighClock() returns (err: SystemError)
      modifies this
      ensures value == High(id, old(value), bus.State())
      ensures err == NoError
    {
      if !bus.xdata && bus.put == id {
        SetValue(bus.dataBus);
      }
      err := NoError;
    }
  }
}
