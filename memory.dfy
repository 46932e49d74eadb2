// The banked memory of the current engine (src/cpu/memory.cpp) as objects:
// banks owning byte buffers, and the memory unit on the bus, an address
// register (id MEMADDR, name "M") whose value is the pointer into the banks.
// Every method is proved against the functions of module Banks.
module BankedMemory {
  import opened Bits
  import opened Errors
  import opened Wrappers
  import opened SystemBus
  import opened Banks

  /** A bank of the address space; `image` is the byte buffer copies of the bank share. */
  class MemoryBank {
    const start: Addr
    var size: Addr
    const writable: bool
    const image: array<byte>

    ghost predicate Valid()
      reads this
    {
      size <= image.Length && start + size <= 0xFFFF
    }

    function View(): (v: Bank)
      reads this, image
      requires Valid()
      ensures v.Valid() && v.start == start && v.size == size && v.writable == writable
    {
      Bank(start, size, writable, image[..size])
    }

    /** MemoryBank(start, size, writable, image): collapse, copy the image, or zero-fill. */
    constructor (bankStart: Addr, bankSize: Addr, isWritable: bool, contents: Option<seq<byte>>)
      requires contents.Some? && bankStart + bankSize <= 0xFFFF ==> bankSize <= |contents.value|
      ensures Valid() && fresh(image)
      ensures View() == NewBank(bankStart, bankSize, isWritable, contents)
    {
      var collapsed := bankStart + bankSize > 0xFFFF;
      start := if collapsed then 0 else bankStart;
      size := if collapsed then 0 else bankSize;
      writable := isWritable;
      image := new byte[if collapsed then 0 else bankSize];
      new;
      if !collapsed {
        if contents.Some? {
          var n := bankSize;
          var ix := 0;
          while ix < n
            invariant 0 <= ix <= n == size == image.Length <= |contents.value|
            invariant forall j :: 0 <= j < ix ==> image[j] == contents.value[j]
          {
            image[ix] := contents.value[ix];
            ix := ix + 1;
          }
          assert image[..n] == contents.value[..n];
        } else {
          Erase();
        }
      }
    }

    /** The copy constructor: the same extent, sharing the image. */
    constructor Copy(other: MemoryBank)
      requires other.Valid()
      ensures Valid() && image == other.image
      ensures start == other.start && size == other.size && writable == other.writable
    {
      start, size, writable, image := other.start, other.size, other.writable, other.image;
    }

    /** The move constructor: takes over the image and leaves `other` empty. */
    constructor Moved(other: MemoryBank)
      requires other.Valid()
      modifies other
      ensures Valid() && image == other.image
      ensures start == other.start && size == old(other.size) && writable == other.writable
      ensures other.Valid() && other.size == 0
    {
      start, size, writable, image := other.start, other.size, other.writable, other.image;
      new;
      other.size := 0;
    }

    /** MemoryBank::operator[] as a write into a mapped address. */
    method Store(addr: int, v: byte)
      requires Valid() && View().Mapped(addr)
      modifies image
      ensures Valid() && View() == old(View()).(data := old(View()).data[addr - start := v])
    {
      image[addr - start] := v;
    }

    /** MemoryBank::erase. */
    method Erase()
      requires Valid()
      modifies image
      ensures Valid() && View() == old(View()).Erased()
    {
      var n := size;
      var ix := 0;
      while ix < n
        invariant 0 <= ix <= n <= image.Length
        invariant forall j :: 0 <= j < ix ==> image[j] == 0
      {
        image[ix] := 0;
        ix := ix + 1;
      }
      assert image[..n] == Zeros(n);
    }

    /** MemoryBank::copy(addr, size, contents). */
    method CopyBlock(addr: nat, n: nat, contents: seq<byte>)
      requires Valid() && n <= |contents|
      modifies image
      ensures Valid() && View() == old(View()).CopyBlock(addr, n, contents)
    {
      if View().Fits(addr, n) {
        var offset := addr - start;
        var len := size;
        var ix := 0;
        while ix < n
          invariant 0 <= ix <= n && offset + n < len <= image.Length
          invariant forall j :: 0 <= j < len ==>
            image[j] == if offset <= j < offset + ix then contents[j - offset] else old(image[j])
        {
          image[offset + ix] := contents[ix];
          ix := ix + 1;
        }
        assert image[..len] == Overwrite(old(image[..len]), offset, contents[..n]);
      }
    }

    /** MemoryBank::copy(MemoryBank &): when `other` fits, its bytes are copied in and it is emptied. */
    method CopyBank(other: MemoryBank)
      requires Valid() && other.Valid()
      requires other.image == image ==> other.start == start && other.size == size
      modifies image, other
      ensures Valid() && other.Valid()
      ensures View() == old(View()).CopyBlock(other.start, old(other.size), old(other.View()).data)
      ensures other.size == if old(View()).Fits(other.start, old(other.size)) then 0 else old(other.size)
    {
      if View().Fits(other.start, other.size) {
        var offset := other.start - start;
        var n := other.size;
        var len := size;
        assert other.image != image;
        ghost var source := other.image[..n];
        var ix := 0;
        while ix < n
          invariant 0 <= ix <= n <= other.image.Length && offset + n < len <= image.Length
          invariant other.image[..n] == source
          invariant forall j :: 0 <= j < len ==>
            image[j] == if offset <= j < offset + ix then source[j - offset] else old(image[j])
        {
          image[offset + ix] := other.image[ix];
          ix := ix + 1;
        }
        assert image[..len] == Overwrite(old(image[..len]), offset, source);
        other.size := 0;
      }
    }
  }

  /**
   * The memory unit. It is an address register whose value is the pointer;
   * its two phase hooks replace the address register's own.
   */
  class Memory {
    const id: byte
    const name: string
    var value: word
    var banks: seq<MemoryBank>
    const bus: SystemBus

    ghost function Images(): set<array<byte>>
      reads this
    {
      set b | b in banks :: b.image
    }

    ghost function Footprint(): set<object>
      reads this
    {
      (set b | b in banks :: b as object) + (set b | b in banks :: b.image as object)
    }

    /** Every bank is well formed and no two banks of the list share a buffer. */
    ghost predicate Valid()
      reads this, banks
    {
      (forall i :: 0 <= i < |banks| ==> banks[i].Valid()) &&
      (forall i, j :: 0 <= i < j < |banks| ==> banks[i].image != banks[j].image)
    }

    /** The banks as values, in list order. */
    function Contents(): (r: seq<Bank>)
      reads this, banks, Images()
      requires Valid()
      ensures |r| == |banks| && ValidBanks(r)
      ensures forall i :: 0 <= i < |banks| ==> r[i] == banks[i].View()
    {
      var bs := banks;
      seq(|bs|, i requires 0 <= i < |bs| && bs[i].Valid() reads bs, set b | b in bs :: b.image => bs[i].View())
    }

    /** Memory(): no banks, pointer 0. */
    constructor (sharedBus: SystemBus)
      ensures Valid() && Contents() == [] && value == 0
      ensures id == ADDR_ID && name == "M" && bus == sharedBus
    {
      id, name, value, banks, bus := ADDR_ID, "M", 0, [], sharedBus;
    }

    /** Memory::findBankForAddress: the index of the first bank mapping `addr`. */
    method FindBankForAddress(addr: int) returns (found: bool, k: nat)
      requires Valid()
      ensures found == FindForAddress(Contents(), addr).Some?
      ensures found ==> k < |banks| && FindForAddress(Contents(), addr) == Some(k)
    {
      ghost var bs := Contents();
      FindForAddressIsFirstMatch(bs, addr);
      found, k := false, 0;
      while k < |banks|
        invariant k <= |banks|
        invariant forall j :: 0 <= j < k ==> !bs[j].Mapped(addr)
      {
        if banks[k].View().Mapped(addr) {
          found := true;
          return;
        }
        k := k + 1;
      }
    }

    /** Memory::findBankForBlock: the index of the first bank the block fits. */
    method FindBankForBlock(addr: int, n: int) returns (found: bool, k: nat)
      requires Valid()
      ensures found == FindForBlock(Contents(), addr, n).Some?
      ensures found ==> k < |banks| && FindForBlock(Contents(), addr, n) == Some(k)
    {
      ghost var bs := Contents();
      FindForBlockIsFirstMatch(bs, addr, n);
      found, k := false, 0;
      while k < |banks|
        invariant k <= |banks|
        invariant forall j :: 0 <= j < k ==> !bs[j].Fits(addr, n)
      {
        if banks[k].View().Fits(addr, n) {
          found := true;
          return;
        }
        k := k + 1;
      }
    }

    /** Memory::operator[] as a read. */
    method Peek(addr: int) returns (v: byte)
      requires Valid()
      ensures v == Read(Contents(), addr)
    {
      var found, k := FindBankForAddress(addr);
      if found {
        v := banks[k].image[addr - banks[k].start];
      } else {
        v := Unmapped;
      }
    }

    /** When only bank k's buffer has changed, only bank k's value has. */
    twostate lemma OnlyBankChanged(k: nat)
      requires old(Valid()) && Valid() && banks == old(banks) && k < |banks|
      requires forall i :: 0 <= i < |banks| && i != k ==> unchanged(banks[i], banks[i].image)
      ensures Contents() == old(Contents())[k := banks[k].View()]
    {
    }

    /** Memory::operator[] as a write into a mapped address. */
    method Poke(addr: int, v: byte)
      requires Valid()
      modifies Footprint()
      ensures Valid() && banks == old(banks)
      ensures Contents() == Write(old(Contents()), addr, v)
    {
      ghost var bs := Contents();
      var found, k := FindBankForAddress(addr);
      assert Contents() == bs;
      if found {
        assert banks[k].View() == bs[k] && bs[k].Mapped(addr);
        assert Write(bs, addr, v) == bs[k := bs[k].(data := bs[k].data[addr - bs[k].start := v])];
        StoreInBank(k, addr, v);
      }
    }

    /** The write of Poke into bank `k`, which maps `addr`: only that bank's byte changes. */
    method StoreInBank(k: nat, addr: int, v: byte)
      requires Valid() && k < |banks| && banks[k].View().Mapped(addr)
      modifies banks[k].image
      ensures Valid()
      ensures var bs := old(Contents()); Contents() == bs[k := bs[k].(data := bs[k].data[addr - bs[k].start := v])]
    {
      banks[k].Store(addr, v);
      OnlyBankChanged(k);
    }

    /** Memory::erase: every bank zeroed in turn. */
    method Erase()
      requires Valid()
      modifies Footprint()
      ensures Valid() && banks == old(banks)
      ensures Contents() == Banks.Erase(old(Contents()))
    {
      ghost var bs := Contents();
      for i := 0 to |banks|
        invariant Valid()
        invariant forall j :: 0 <= j < i ==> banks[j].View() == bs[j].Erased()
        invariant forall j :: i <= j < |banks| ==> banks[j].View() == bs[j]
      {
        banks[i].Erase();
      }
    }

    /** Appends a bank whose buffer no bank of the list uses. */
    method Append(nb: MemoryBank)
      requires Valid() && nb.Valid() && nb.image !in Images()
      modifies this
      ensures Valid() && banks == old(banks) + [nb] && value == old(value)
      ensures Contents() == old(Contents()) + [nb.View()]
    {
      banks := banks + [nb];
    }

    /** MemoryBank::copy(addr, size, contents) on bank k of the list. */
    method CopyBlockInto(k: nat, addr: Addr, n: Addr, contents: seq<byte>)
      requires Valid() && k < |banks| && n <= |contents|
      modifies banks[k].image
      ensures Valid()
      ensures Contents() == old(Contents())[k := old(Contents())[k].CopyBlock(addr, n, contents)]
    {
      banks[k].CopyBlock(addr, n, contents);
      OnlyBankChanged(k);
    }

    /** MemoryBank::copy(MemoryBank &) on bank k of the list. */
    method CopyBankInto(k: nat, bank: MemoryBank)
      requires Valid() && k < |banks| && bank.Valid() && bank.image !in Images()
      modifies banks[k].image, bank
      ensures Valid() && bank.Valid()
      ensures Contents() == old(Contents())[k := old(Contents())[k].CopyBlock(bank.start, old(bank.size), old(bank.View()).data)]
      ensures bank.size == if old(Contents())[k].Fits(bank.start, old(bank.size)) then 0 else old(bank.size)
    {
      banks[k].CopyBank(bank);
      OnlyBankChanged(k);
    }

    /**
     * Memory::add(address, size, writable, contents): copy into the first
     * bank the block fits, else append a new bank.
     */
    method AddBlock(address: Addr, n: Addr, writable: bool, contents: seq<byte>)
      requires Valid() && n <= |contents|
      modifies this, Footprint()
      ensures Valid() && value == old(value)
      ensures Contents() == Banks.AddBlock(old(Contents()), address, n, writable, contents)
      ensures forall a :: a in Images() ==> a in old(Images()) || fresh(a)
    {
      ghost var bs := Contents();
      var found, k := FindBankForBlock(address, n);
      assert Contents() == bs;
      if found {
        CopyBlockInto(k, address, n, contents);
      } else if DisjointFromAll(Contents(), address, n) {
        var nb := new MemoryBank(address, n, writable, Some(contents));
        Append(nb);
      } else {
        assert false;
      }
    }

    /**
     * Memory::add(MemoryBank &&): copy the bank's bytes into the first bank
     * it fits (emptying it), else append a copy sharing its buffer.
     */
    method AddTemporary(bank: MemoryBank)
      requires Valid() && bank.Valid() && bank.image !in Images()
      modifies this, Footprint(), bank
      ensures Valid() && bank.Valid() && value == old(value)
      ensures Contents() == Banks.AddBank(old(Contents()), old(bank.View()), false)
      ensures Images() <= old(Images()) + {bank.image}
      ensures forall b :: b in banks ==> b in old(banks) || fresh(b)
    {
      ghost var bs := Contents();
      var found, k := FindBankForBlock(bank.start, bank.size);
      assert Contents() == bs;
      if found {
        CopyBankInto(k, bank);
      } else if DisjointFromAll(Contents(), bank.start, bank.size) {
        var copy := new MemoryBank.Copy(bank);
        Append(copy);
      } else {
        assert false;
      }
    }

    /**
     * Memory::add(MemoryBank &): an empty bank is ignored; otherwise its
     * bytes are copied into the first bank it fits, or it is moved into the
     * list. Either way the caller's bank is left empty.
     */
    method AddBank(bank: MemoryBank)
      requires Valid() && bank.Valid() && bank.image !in Images()
      modifies this, Footprint(), bank
      ensures Valid() && bank.Valid() && bank.size == 0 && value == old(value)
      ensures Contents() == Banks.AddBank(old(Contents()), old(bank.View()), true)
      ensures Images() <= old(Images()) + {bank.image}
      ensures forall b :: b in banks ==> b in old(banks) || fresh(b)
    {
      if bank.size == 0 {
        return;
      }
      ghost var bs := Contents();
      var found, k := FindBankForBlock(bank.start, bank.size);
      assert Contents() == bs;
      if found {
        CopyBankInto(k, bank);
      } else if DisjointFromAll(Contents(), bank.start, bank.size) {
        var moved := new MemoryBank.Moved(bank);
        Append(moved);
      } else {
        assert false;
      }
    }

    /** Memory::initialize(): drop every bank. */
    method InitializeEmpty()
      modifies this
      ensures Valid() && Contents() == []
    {
      banks := [];
    }

    /** Memory::initialize(MemoryBank &): zero every bank, then add the new one. */
    method Initialize(bank: MemoryBank)
      requires Valid() && bank.Valid() && bank.image !in Images()
      modifies this, Footprint(), bank
      ensures Valid() && bank.size == 0 && value == old(value)
      ensures Contents() == Banks.Initialize(old(Contents()), old(bank.View()))
      ensures Images() <= old(Images()) + {bank.image}
      ensures forall b :: b in banks ==> b in old(banks) || fresh(b)
    {
      Erase();
      AddBank(bank);
    }

    /** Memory::initialize(address, size, contents, writable): initialize with a new bank. */
    method InitializeBlock(address: Addr, n: Addr, contents: Option<seq<byte>>, writable: bool)
      requires Valid()
      requires contents.Some? && address + n <= 0xFFFF ==> n <= |contents.value|
      modifies this, Footprint()
      ensures Valid() && value == old(value)
      ensures Contents() == Banks.Initialize(old(Contents()), NewBank(address, n, writable, contents))
    {
      var nb := new MemoryBank(address, n, writable, contents);
      Initialize(nb);
    }

    /** Memory::add(MemoryBank(start, size, writable)): a zero-filled temporary bank. */
    method AddRegion(start: Addr, size: Addr, writable: bool)
      requires Valid()
      modifies this, Footprint()
      ensures Valid() && value == old(value)
      ensures Contents() == Banks.AddBank(old(Contents()), NewBank(start, size, writable, None), false)
      ensures forall a :: a in Images() ==> a in old(Images()) || fresh(a)
      ensures forall o :: o in Footprint() ==> o in old(Footprint()) || fresh(o)
    {
      var region := new MemoryBank(start, size, writable, None);
      AddTemporary(region);
    }

    /** The RAM bank, then the ROM bank, each added as a zero-filled temporary. */
    method AddRegions(ramStart: Addr, ramSize: Addr, romStart: Addr, romSize: Addr)
      requires Valid()
      modifies this, Footprint()
      ensures Valid() && value == old(value)
      ensures Contents() == Banks.AddBank(Banks.AddBank(old(Contents()), NewBank(ramStart, ramSize, true, None), false),
                                         NewBank(romStart, romSize, false, None), false)
      ensures forall a :: a in Images() ==> a in old(Images()) || fresh(a)
      ensures forall o :: o in Footprint() ==> o in old(Footprint()) || fresh(o)
    {
      AddRegion(ramStart, ramSize, true);
      AddRegion(romStart, romSize, false);
    }

    /** Memory(MemoryBank &): an empty memory initialized with the bank. */
    constructor FromBank(bank: MemoryBank, sharedBus: SystemBus)
      requires bank.Valid()
      modifies bank
      ensures Valid() && value == 0 && bus == sharedBus
      ensures Contents() == Banks.Initialize([], old(bank.View()))
    {
      id, name, value, banks, bus := ADDR_ID, "M", 0, [], sharedBus;
      new;
      Initialize(bank);
    }

    /**
     * Memory(ramStart, ramSize, romStart, romSize, bank): a RAM bank and a
     * ROM bank, zero-filled, then initialized with the given bank.
     */
    constructor WithRegions(ramStart: Addr, ramSize: Addr, romStart: Addr, romSize: Addr,
                            bank: MemoryBank, sharedBus: SystemBus)
      requires bank.Valid()
      modifies bank
      ensures Valid() && value == 0 && bus == sharedBus
      ensures Contents() == Banks.Initialize(
        Banks.AddBank(Banks.AddBank([], NewBank(ramStart, ramSize, true, None), false),
                      NewBank(romStart, romSize, false, None), false),
        old(bank.View()))
    {
      id, name, value, banks, bus := ADDR_ID, "M", 0, [], sharedBus;
      new;
      InstallRegions(ramStart, ramSize, romStart, romSize, bank);
    }

    /** The body of the constructor above, on a memory that has no bank yet. */
    method InstallRegions(ramStart: Addr, ramSize: Addr, romStart: Addr, romSize: Addr, bank: MemoryBank)
      requires banks == [] && bank.Valid()
      modifies this, bank
      ensures Valid() && value == old(value)
      ensures Contents() == Banks.Initialize(
        Banks.AddBank(Banks.AddBank([], NewBank(ramStart, ramSize, true, None), false),
                      NewBank(romStart, romSize, false, None), false),
        old(bank.View()))
    {
      ghost var v := bank.View();
      AddRegionsBeside(ramStart, ramSize, romStart, romSize, bank);
      assert bank.View() == v;
      Initialize(bank);
    }

    /** AddRegions on a memory without banks: it changes nothing but the memory, and `bank`'s buffer stays out of it. */
    method AddRegionsBeside(ramStart: Addr, ramSize: Addr, romStart: Addr, romSize: Addr, bank: MemoryBank)
      requires banks == []
      modifies this
      ensures Valid() && value == old(value) && bank.image !in Images()
      ensures forall o :: o in Footprint() ==> fresh(o)
      ensures Contents() == Banks.AddBank(Banks.AddBank([], NewBank(ramStart, ramSize, true, None), false),
                                         NewBank(romStart, romSize, false, None), false)
    {
      assert Footprint() == {} && Contents() == [];
      AddRegions(ramStart, ramSize, romStart, romSize);
    }

    /** AddressRegister::setValue on the pointer. */
    method SetValue(v: word)
      modifies this
      ensures value == v && banks == old(banks)
    {
      value := v;
    }

    /** The banked Memory's header is not part of this model, and src/cpu/memory.cpp defines no reset,
        so the inherited AddressRegister::reset is assumed: the pointer returns to 0, the banks stay. */
    method Reset() returns (err: SystemError)
      modifies this
      ensures value == 0 && banks == old(banks) && err == NoError
    {
      value := 0;
      err := NoError;
    }

    /** Memory::isMapped and operator[] at the pointer. */
    method ReadPointed() returns (mapped: bool, v: byte)
      requires Valid()
      ensures mapped == IsMapped(Contents(), value as int)
      ensures v == Read(Contents(), value as int)
    {
      ghost var bs := Contents();
      var found, k := FindBankForAddress(value as int);
      assert Contents() == bs;
      mapped := found;
      v := Peek(value as int);
      assert Contents() == bs;
    }

    /**
     * Memory::onRisingClockEdge. The byte is looked up before the address
     * bus is cleared; the lookup does not depend on the bus.
     */
    method OnRisingClockEdge() returns (err: SystemError)
      requires Valid()
      modifies bus
      ensures (bus.State(), err) == Banks.Rising(old(Contents()), value, old(bus.State()))
    {
      err := NoError;
      var lines := bus.State();
      if (lines.DataTransfer() || lines.AddrTransfer()) && lines.get == MEM_ID {
        var mapped, v := ReadPointed();
        assert Contents() == old(Contents());
        if !mapped {
          return ProtectedMemory;
        }
        DriveByte(v);
      }
    }

    /** The bus writes of onRisingClockEdge: 0 on the address bus, the byte on the data bus. */
    method DriveByte(v: byte)
      modifies bus
      ensures bus.State() == old(bus.State()).PutOnAddrBus(0).PutOnDataBus(v)
    {
      bus.PutOnAddrBus(0);
      bus.PutOnDataBus(v);
    }

    /** The write half of Memory::onHighClock: the data byte into RAM at the pointer. */
    method WriteFromBus() returns (err: SystemError)
      requires Valid()
      modifies Footprint()
      ensures Valid() && banks == old(banks)
      ensures (Contents(), err) == WriteRam(old(Contents()), value as int, bus.dataBus)
    {
      ghost var bs := Contents();
      var found, k := FindBankForAddress(value as int);
      assert Contents() == bs;
      if !found || !banks[k].writable {
        assert !InRAM(bs, value as int);
        return ProtectedMemory;
      }
      Poke(value as int, bus.dataBus);
      err := NoError;
    }

    /** The pointer half of Memory::onHighClock, when MEMADDR is the destination. */
    method LoadPointer()
      modifies this
      ensures banks == old(banks) && value == LoadedPointer(old(value), bus.State())
    {
      if !bus.xaddr {
        SetValue(((bus.addrBus as word) << 8) | (bus.dataBus as word));
      } else if !bus.xdata {
        if bus.op & MSB == 0 {
          ReplaceLow(value, bus.dataBus);
          SetValue((value & 0xFF00) | (bus.dataBus as word));
        } else {
          ReplaceHigh(value, bus.dataBus);
          SetValue((value & 0x00FF) | ((bus.dataBus as word) << 8));
        }
      }
    }

    /** Memory::onHighClock. */
    method OnHighClock() returns (err: SystemError)
      requires Valid()
      modifies this, Footprint()
      ensures Valid() && banks == old(banks)
      ensures Outcome(Contents(), value, err) == Banks.High(old(Contents()), old(value), bus.State())
    {
      err := NoError;
      if (!bus.xdata || !bus.xaddr) && bus.put == MEM_ID {
        err := WriteFromBus();
      } else if bus.put == ADDR_ID {
        LoadPointer();
      }
    }
  }
}
