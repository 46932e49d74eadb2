// A 16-bit address register (src/cpu/addressregister.cpp): PC, SP, Si, Di,
// TX and the memory pointer. The earlier generation's AddressRegister
// (src/addressregister.cpp) has the same transitions.
module CpuAddressRegister {
  import opened Bits
  import opened Errors
  import opened SystemBus

  predicate HasOp(b: Lines, flag: byte) {
    b.op & flag != 0
  }

  /** The counter step after an address drive: Inc wins over Dec, both wrap at 16 bits. */
  function Step(value: word, b: Lines): word {
    if HasOp(b, Inc) then value + 1
    else if HasOp(b, Dec) then value - 1
    else value
  }

  /** Rising edge: the new bus lines and the new value. */
  function Rising(id: byte, value: word, b: Lines): (r: (Lines, word))
    ensures b.get != id ==> r == (b, value)
  {
    if b.get != id then (b, value)
    else if b.DataTransfer() then
      (b.PutOnDataBus(if HasOp(b, MSB) then Hi(value) else Lo(value)), value)
    else if b.AddrTransfer() then
      (b.PutOnDataBus(Lo(value)).PutOnAddrBus(Hi(value)), Step(value, b))
    else (b, value)
  }

  /** High clock: the new value. */
  function High(id: byte, value: word, b: Lines): word {
    if b.DataTransfer() && b.put == id then
      if !HasOp(b, MSB) then Join(Hi(value), b.dataBus) else Join(b.dataBus, Lo(value))
    else if b.AddrTransfer() && b.put == id then
      Join(b.addrBus, b.dataBus)
    else value
  }

  /** As a data source the register drives the half MSB selects; nothing else changes. */
  lemma DataSourceDrivesSelectedHalf(id: byte, value: word, b: Lines)
    requires b.get == id && b.DataTransfer()
    ensures Rising(id, value, b).1 == value
    ensures Rising(id, value, b).0.addrBus == b.addrBus
    ensures Rising(id, value, b).0.dataBus == if b.op & MSB != 0 then Hi(value) else Lo(value)
  {
  }

  /** As an address source it drives low byte on data, high byte on address, then steps. */
  lemma AddressSourceDrivesAndSteps(id: byte, value: word, b: Lines)
    requires b.get == id && !b.DataTransfer() && b.AddrTransfer()
    ensures Join(Rising(id, value, b).0.addrBus, Rising(id, value, b).0.dataBus) == value
    ensures b.op & Inc != 0 ==> Rising(id, value, b).1 - 1 == value
    ensures b.op & Inc != 0 ==> (Rising(id, value, b).1 == 0 <==> value == 0xFFFF)
    ensures b.op & Inc == 0 && b.op & Dec != 0 ==> Rising(id, value, b).1 + 1 == value
    ensures b.op & Inc == 0 && b.op & Dec != 0 ==> (Rising(id, value, b).1 == 0xFFFF <==> value == 0)
    ensures b.op & Inc == 0 && b.op & Dec == 0 ==> Rising(id, value, b).1 == value
  {
    SplitJoin(value);
  }

  /** The rising edge changes at most the two bus bytes. */
  lemma RisingOnlyDrivesBuses(id: byte, value: word, b: Lines)
    ensures Rising(id, value, b).0 == b.PutOnDataBus(Rising(id, value, b).0.dataBus).PutOnAddrBus(Rising(id, value, b).0.addrBus)
  {
    if b.get == id && b.DataTransfer() {
      var d := if HasOp(b, MSB) then Hi(value) else Lo(value);
      assert Rising(id, value, b).0 == b.PutOnDataBus(d);
    } else if b.get == id && b.AddrTransfer() {
      assert Rising(id, value, b).0 == b.PutOnDataBus(Lo(value)).PutOnAddrBus(Hi(value));
    }
  }

  /** As a data destination only the half MSB selects is replaced. */
  lemma DataDestinationReplacesHalf(id: byte, value: word, b: Lines)
    requires b.put == id && b.DataTransfer()
    ensures b.op & MSB == 0 ==> Lo(High(id, value, b)) == b.dataBus && Hi(High(id, value, b)) == Hi(value)
    ensures b.op & MSB != 0 ==> Hi(High(id, value, b)) == b.dataBus && Lo(High(id, value, b)) == Lo(value)
  {
  }

  /** Loading the low half and then the high half over XDATA yields exactly the two bytes. */
  lemma LoadHalvesComposes(id: byte, value: word, b1: Lines, b2: Lines)
    requires b1.put == id && b1.DataTransfer() && b1.op & MSB == 0
    requires b2.put == id && b2.DataTransfer() && b2.op & MSB != 0
    ensures High(id, High(id, value, b1), b2) == Join(b2.dataBus, b1.dataBus)
  {
    var w := High(id, value, b1);
    assert Lo(w) == b1.dataBus;
  }

  /**
   * An address transfer from address register `src` to address register `dst`
   * copies the source's pre-step value: the fetch step PC -> MEMADDR.
   */
  lemma AddressTransferCopies(src: byte, srcValue: word, dst: byte, dstValue: word, b: Lines)
    requires src != dst && b.get == src && b.put == dst
    requires !b.DataTransfer() && b.AddrTransfer()
    ensures High(dst, dstValue, Rising(src, srcValue, b).0) == srcValue
    ensures High(src, Rising(src, srcValue, b).1, Rising(src, srcValue, b).0) == Step(srcValue, b)
  {
    SplitJoin(srcValue);
  }

  /** A register neither source nor destination leaves bus and value as they were. */
  lemma UnaddressedUnchanged(id: byte, value: word, b: Lines)
    requires b.get != id && b.put != id
    ensures Rising(id, value, b) == (b, value)
    ensures High(id, value, b) == value
  {
  }

  /** A 16-bit register connected to the shared bus. */
  class AddressRegister {
    const id: byte
    const name: string
    var value: word
    const bus: SystemBus

    constructor (registerId: byte, n: string, sharedBus: SystemBus)
      ensures id == registerId && name == n && value == 0 && bus == sharedBus
    {
      id := registerId;
      name := n;
      value := 0;
      bus := sharedBus;
    }

    method SetValue(v: word)
      modifies this
      ensures value == v
    {
      value := v;
    }

    method Reset() returns (err: SystemError)
      modifies this
      ensures value == 0 && err == NoError
    {
      value := 0;
      err := NoError;
    }

    method OnRisingClockEdge() returns (err: SystemError)
      modifies this, bus
      ensures (bus.State(), value) == Rising(id, old(value), old(bus.State()))
      ensures err == NoError
    {
      if bus.get == id {
        if !bus.xdata {
          if bus.op & MSB != 0 {
            bus.PutOnDataBus(Hi(value));
          } else {
            bus.PutOnDataBus(Lo(value));
          }
        } else if !bus.xaddr {
          bus.PutOnDataBus(Lo(value));
          bus.PutOnAddrBus(Hi(value));
          if bus.op & Inc != 0 {
            SetValue(value + 1);
          } else if bus.op & Dec != 0 {
            SetValue(value - 1);
          }
        }
      }
      err := NoError;
    }

    method OnHighClock() returns (err: SystemError)
      modifies this
      ensures value == High(id, old(value), bus.State())
      ensures err == NoError
    {
      if !bus.xdata && bus.put == id {
        if bus.op & MSB == 0 {
          ReplaceLow(value, bus.dataBus);
          value := value & 0xFF00;
          SetValue(value | bus.dataBus as word);
        } else {
          ReplaceHigh(value, bus.dataBus);
          value := value & 0x00FF;
          SetValue(value | ((bus.dataBus as word) << 8));
        }
      } else if !bus.xaddr && bus.put == id {
        SetValue(((bus.addrBus as word) << 8) | bus.dataBus as word);
      }
      err := NoError;
    }
  }
}
