// The earlier generation's memory (include/memory.h, src/memory.cpp): one
// RAM region and one ROM region at fixed places, and a 16-bit pointer that
// the bus loads. The bytes of a freshly allocated region are indeterminate in
// the source; here they are whatever `ramFill` and `romFill` say.
module TwoRegionMemory {
  import opened Bits
  import opened Errors
  import opened Wrappers
  import opened ControlLines
  import SystemBus
  import CpuAddressRegister

  const MEM_ID: byte := 0x07
  const ADDR_ID: byte := 0x0F

  /** A `word` field read as a number; region bounds and image extents are kept this way. */
  type Address = x: int | 0 <= x < 0x1_0000

  /** MemImage: `size` bytes of `contents` meant for `address`. */
  datatype Image = Image(address: Address, size: Address, contents: seq<byte>)

  predicate WellFormedImage(img: Option<Image>) {
    img.Some? ==> img.value.size <= |img.value.contents|
  }

  datatype Memory = Memory(
    ramStart: Address, ramSize: Address, romStart: Address, romSize: Address,
    ram: seq<byte>, rom: seq<byte>, pointer: word)
  {
    predicate Valid() {
      |ram| == ramSize && |rom| == romSize
    }

    /** inRAM, with the end of the region computed in int, so it never wraps. */
    predicate InRAM(x: int) {
      ramStart <= x < ramStart + ramSize
    }

    predicate InROM(x: int) {
      romStart <= x < romStart + romSize
    }

    predicate IsMapped(x: int) {
      InRAM(x) || InROM(x)
    }

    /** operator[] read: RAM first, then ROM; an unmapped address throws (None). */
    function At(x: int): (r: Option<byte>)
      requires Valid()
      ensures r.Some? <==> IsMapped(x)
    {
      if InRAM(x) then Some(ram[x - ramStart])
      else if InROM(x) then Some(rom[x - romStart])
      else None
    }

    /** operator[] write through the returned reference; an unmapped address throws (None). */
    function Store(x: int, v: byte): (r: Option<Memory>)
      requires Valid()
      ensures r.Some? <==> IsMapped(x)
      ensures r.Some? ==> r.value.Valid() && r.value.At(x) == Some(v)
      ensures r.Some? ==> forall y :: y != x ==> r.value.At(y) == At(y)
    {
      if InRAM(x) then Some(this.(ram := ram[x - ramStart := v]))
      else if InROM(x) then Some(this.(rom := rom[x - romStart := v]))
      else None
    }
  }

  /** The first `n` bytes of `contents` over the start of `region`: memcpy(region, contents, n). */
  function Place(region: seq<byte>, contents: seq<byte>, n: nat): (r: seq<byte>)
    requires n <= |region| && n <= |contents|
    ensures |r| == |region|
    ensures forall i :: 0 <= i < n ==> r[i] == contents[i]
    ensures forall i :: n <= i < |region| ==> r[i] == region[i]
  {
    contents[..n] + region[n..]
  }

  /**
   * The constructor's test that the image belongs in RAM, AS WRITTEN: the
   * end address `address + size` is passed as a word, so it wraps.
   */
  predicate InRamAsWritten(m: Memory, img: Image) {
    m.InRAM(img.address) && m.InRAM((img.address + img.size) % 0x1_0000)
  }

  /** The constructor's ROM test, as written: the end address wraps in the same way. */
  predicate InRomAsWritten(m: Memory, img: Image) {
    m.InROM(img.address) && m.InROM((img.address + img.size) % 0x1_0000)
  }

  /**
   * The wrapped tests chose a region smaller than the image, so the memcpy
   * that follows writes past that region's buffer: undefined behaviour.
   */
  predicate Overruns(m: Memory, img: Image) {
    if InRamAsWritten(m, img) then img.size > m.ramSize
    else InRomAsWritten(m, img) && img.size > m.romSize
  }

  /** The same test with the end address kept in int, as evidently intended. */
  predicate InRamIntended(m: Memory, img: Image) {
    m.InRAM(img.address) && m.InRAM(img.address + img.size)
  }

  predicate InRomIntended(m: Memory, img: Image) {
    m.InROM(img.address) && m.InROM(img.address + img.size)
  }

  /**
   * The wrapped test accepts an image far larger than RAM, so the memcpy
   * that follows writes past the RAM buffer: RAM at 0x0000-0x7FFF and an
   * image of 0xFFF8 bytes at 0x0010, whose end wraps to 0x0008.
   */
  lemma WrappedEndOverflowsRam()
    ensures var m := Memory(0x0000, 0x8000, 0x8000, 0x8000, [], [], 0);
      var img := Image(0x0010, 0xFFF8, []);
      InRamAsWritten(m, img) && Overruns(m, img) && !InRamIntended(m, img)
  {
  }

  /** With the end kept in int, an image accepted for a region always fits inside it. */
  lemma IntendedPlacementFits(m: Memory, img: Image)
    ensures InRamIntended(m, img) ==> img.size < m.ramSize
    ensures InRomIntended(m, img) ==> img.size < m.romSize
  {
  }

  /** The memory before the image is copied in: the given regions, filled, pointer 0. */
  function Allocated(ramStart: Address, ramSize: Address, romStart: Address, romSize: Address,
                     ramFill: seq<byte>, romFill: seq<byte>): Memory
  {
    Memory(ramStart, ramSize, romStart, romSize, ramFill, romFill, 0)
  }

  /**
   * The Memory constructor AS WRITTEN: the image goes to the START of RAM
   * when its first address and its wrapped end address are in RAM, else to
   * the start of ROM under the same test, else it is dropped. None where
   * the copy would run past the chosen region.
   */
  function Construct(ramStart: Address, ramSize: Address, romStart: Address, romSize: Address,
                     image: Option<Image>, ramFill: seq<byte>, romFill: seq<byte>): (r: Option<Memory>)
    requires |ramFill| == ramSize && |romFill| == romSize && WellFormedImage(image)
    ensures var m := Allocated(ramStart, ramSize, romStart, romSize, ramFill, romFill);
      r.None? <==> image.Some? && Overruns(m, image.value)
    ensures r.Some? ==> (r.value.Valid() && r.value.pointer == 0 &&
      (r.value.ramStart, r.value.ramSize, r.value.romStart, r.value.romSize) == (ramStart, ramSize, romStart, romSize))
  {
    var m := Allocated(ramStart, ramSize, romStart, romSize, ramFill, romFill);
    if image.None? then Some(m)
    else if InRamAsWritten(m, image.value) then
      if image.value.size > ramSize then None
      else Some(m.(ram := Place(ramFill, image.value.contents, image.value.size)))
    else if InRomAsWritten(m, image.value) then
      if image.value.size > romSize then None
      else Some(m.(rom := Place(romFill, image.value.contents, image.value.size)))
    else Some(m)
  }

  /**
   * The image lands at the start of the region the wrapped tests choose,
   * whatever address it names; an image neither test accepts is dropped.
   */
  lemma ImageLandsAtRegionStart(ramStart: Address, ramSize: Address, romStart: Address, romSize: Address,
                                img: Image, ramFill: seq<byte>, romFill: seq<byte>, i: nat)
    requires |ramFill| == ramSize && |romFill| == romSize && WellFormedImage(Some(img))
    requires i < img.size
    ensures var m := Allocated(ramStart, ramSize, romStart, romSize, ramFill, romFill);
      var c := Construct(ramStart, ramSize, romStart, romSize, Some(img), ramFill, romFill);
      (c.Some? && InRamAsWritten(m, img) ==> c.value.At(ramStart + i) == Some(img.contents[i])) &&
      (c.Some? && !InRamAsWritten(m, img) && InRomAsWritten(m, img) && !c.value.InRAM(romStart + i) ==>
        c.value.At(romStart + i) == Some(img.contents[i])) &&
      (!InRamAsWritten(m, img) && !InRomAsWritten(m, img) ==> c == Some(m))
  {
  }

  /**
   * The wrapped test loads an image the intended one drops: RAM at 0x0000
   * of 0xC000 bytes, ROM at 0xC000, and 0x8800 bytes at 0x8000, whose end
   * 0x10800 wraps to 0x0800. The copy fits, so the source's behaviour is defined.
   */
  lemma WrappedImageLoadsIntoRam(contents: seq<byte>, ramFill: seq<byte>, romFill: seq<byte>)
    requires |contents| == 0x8800 && |ramFill| == 0xC000 && |romFill| == 0x4000
    ensures var img := Image(0x8000, 0x8800, contents);
      var c := Construct(0x0000, 0xC000, 0xC000, 0x4000, Some(img), ramFill, romFill);
      c.Some? && c.value.At(0) == Some(contents[0]) &&
      ConstructIntended(0x0000, 0xC000, 0xC000, 0x4000, Some(img), ramFill, romFill) ==
        Allocated(0x0000, 0xC000, 0xC000, 0x4000, ramFill, romFill)
  {
    var img := Image(0x8000, 0x8800, contents);
    var m := Allocated(0x0000, 0xC000, 0xC000, 0x4000, ramFill, romFill);
    assert InRamAsWritten(m, img) && !InRamIntended(m, img) && !InRomIntended(m, img);
  }

  /**
   * The constructor as evidently intended: the end address is kept in int,
   * so an image is copied only into a region it fits, and never past it.
   */
  function ConstructIntended(ramStart: Address, ramSize: Address, romStart: Address, romSize: Address,
                             image: Option<Image>, ramFill: seq<byte>, romFill: seq<byte>): (m: Memory)
    requires |ramFill| == ramSize && |romFill| == romSize && WellFormedImage(image)
    ensures m.Valid() && m.pointer == 0
    ensures (m.ramStart, m.ramSize, m.romStart, m.romSize) == (ramStart, ramSize, romStart, romSize)
    ensures m.ram != ramFill ==> (image.Some? && image.value.size < ramSize &&
      m.ram[..image.value.size] == image.value.contents[..image.value.size])
    ensures m.rom != romFill ==> (image.Some? && image.value.size < romSize &&
      m.rom[..image.value.size] == image.value.contents[..image.value.size])
  {
    var m := Allocated(ramStart, ramSize, romStart, romSize, ramFill, romFill);
    if image.None? then m
    else if InRamIntended(m, image.value) then
      IntendedPlacementFits(m, image.value);
      m.(ram := Place(ramFill, image.value.contents, image.value.size))
    else if InRomIntended(m, image.value) then
      IntendedPlacementFits(m, image.value);
      m.(rom := Place(romFill, image.value.contents, image.value.size))
    else m
  }

  /** Where the end address does not wrap, the constructor as written is the intended one. */
  lemma ConstructAgreesWithoutWrap(ramStart: Address, ramSize: Address, romStart: Address, romSize: Address,
                                   img: Image, ramFill: seq<byte>, romFill: seq<byte>)
    requires |ramFill| == ramSize && |romFill| == romSize && WellFormedImage(Some(img))
    requires img.address + img.size < 0x1_0000
    ensures Construct(ramStart, ramSize, romStart, romSize, Some(img), ramFill, romFill) ==
      Some(ConstructIntended(ramStart, ramSize, romStart, romSize, Some(img), ramFill, romFill))
  {
    IntendedPlacementFits(Allocated(ramStart, ramSize, romStart, romSize, ramFill, romFill), img);
  }

  /** The ROM image of the memory test: 01 42 FF at 0x8000 reads back from ROM. */
  lemma RomReadsImage(ramFill: seq<byte>, romFill: seq<byte>)
    requires |ramFill| == 0x2000 && |romFill| == 0x2000
    ensures var c := Construct(0x0000, 0x2000, 0x8000, 0x2000, Some(Image(0x8000, 3, [0x01, 0x42, 0xFF])), ramFill, romFill);
      c.Some? && c.value.At(0x8001) == Some(0x42) && !c.value.InRAM(0x8001)
  {
    var m := Allocated(0x0000, 0x2000, 0x8000, 0x2000, ramFill, romFill);
    assert !InRamAsWritten(m, Image(0x8000, 3, [0x01, 0x42, 0xFF]));
    assert InRomAsWritten(m, Image(0x8000, 3, [0x01, 0x42, 0xFF]));
  }

  /** Memory::reset: pointer 0, RAM zeroed, ROM kept. */
  function Cleared(m: Memory): (r: Memory)
    requires m.Valid()
    ensures r.Valid() && r.pointer == 0 && r.rom == m.rom
    ensures forall i :: 0 <= i < |r.ram| ==> r.ram[i] == 0
  {
    m.(pointer := 0, ram := seq(m.ramSize, _ => 0))
  }

  /**
   * Memory::onRisingClockEdge: with XDATA asserted and MEM addressed as
   * the source, the pointed byte goes onto the data bus, or ProtectedMemory
   * when nothing is mapped there. An address transfer does not read memory.
   */
  function Rising(m: Memory, w: Wires): (r: (Wires, SystemError))
    requires m.Valid()
    ensures r.0.(dataBus := w.dataBus) == w
  {
    if w.control.DataTransfer() && w.control.get == MEM_ID then
      match m.At(m.pointer as int)
      case None => (w, ProtectedMemory)
      case Some(v) => (w.(dataBus := v), NoError)
    else (w, NoError)
  }

  /**
   * Memory::onHighClock: with XDATA asserted and MEM the destination, the
   * data byte is stored when the pointer is in RAM and refused with
   * ProtectedMemory otherwise; with MEMADDR the destination the pointer is
   * loaded, in full on XADDR, one half on XDATA.
   */
  function High(m: Memory, w: Wires): (r: (Memory, SystemError))
    requires m.Valid()
    ensures r.0.Valid()
  {
    if w.control.DataTransfer() && w.control.put == MEM_ID then WriteRam(m, w.dataBus)
    else if w.control.put == ADDR_ID then (m.(pointer := LoadedPointer(m.pointer, w)), NoError)
    else (m, NoError)
  }

  /** A bus write at the pointer: stored in RAM, refused with ProtectedMemory elsewhere. */
  function WriteRam(m: Memory, v: byte): (r: (Memory, SystemError))
    requires m.Valid()
    ensures r.0.Valid()
  {
    if !m.InRAM(m.pointer as int) then (m, ProtectedMemory)
    else (m.(ram := m.ram[m.pointer as int - m.ramStart := v]), NoError)
  }

  /** The pointer after a high clock addressing MEMADDR: XADDR loads it whole, else XDATA one half. */
  function LoadedPointer(pointer: word, w: Wires): word {
    if w.control.AddrTransfer() then Join(w.addrBus, w.dataBus)
    else if w.control.DataTransfer() then
      if w.control.op & SystemBus.MSB == 0 then Join(Hi(pointer), w.dataBus) else Join(w.dataBus, Lo(pointer))
    else pointer
  }

  /** A byte written over the bus into RAM reads back; every other address keeps its byte. */
  lemma WriteReadsBack(m: Memory, w: Wires, x: int)
    requires m.Valid() && w.control.DataTransfer() && w.control.put == MEM_ID && m.InRAM(m.pointer as int)
    ensures High(m, w).1 == NoError && High(m, w).0.At(m.pointer as int) == Some(w.dataBus)
    ensures x != m.pointer as int ==> High(m, w).0.At(x) == m.At(x)
  {
  }

  /** A bus write outside RAM is refused and changes nothing, ROM included. */
  lemma RomIsProtected(m: Memory, w: Wires)
    requires m.Valid() && w.control.DataTransfer() && w.control.put == MEM_ID && !m.InRAM(m.pointer as int)
    ensures High(m, w) == (m, ProtectedMemory)
  {
  }

  /** A read over the bus drives exactly the byte operator[] gives. */
  lemma ReadDrivesPointedByte(m: Memory, w: Wires)
    requires m.Valid() && w.control.DataTransfer() && w.control.get == MEM_ID
    ensures m.IsMapped(m.pointer as int) ==> Rising(m, w) == (w.(dataBus := m.At(m.pointer as int).value), NoError)
    ensures !m.IsMapped(m.pointer as int) ==> Rising(m, w) == (w, ProtectedMemory)
  {
  }

  /**
   * Unless both transfer lines are asserted at once, the pointer loads as
   * an address register with id MEMADDR does on the current engine's bus.
   */
  lemma PointerLoadsAsAddressRegister(m: Memory, w: Wires)
    requires m.Valid() && w.control.put == ADDR_ID && !(w.control.DataTransfer() && w.control.AddrTransfer())
    ensures High(m, w) == (m.(pointer := CpuAddressRegister.High(ADDR_ID, m.pointer, w.AsLines())), NoError)
  {
  }

  /** The memory test's pointer loads: 0x5555 with LSB 0x01 is 0x5501, then MSB 0x00 gives 0x0001. */
  lemma PointerHalvesExample(m: Memory, c: Control)
    requires m.Valid() && m.pointer == 0x5555
    ensures var lsb := Wires(0x01, 0x00, c.(xdata := false, xaddr := true, put := ADDR_ID, op := 0));
      var msb := Wires(0x00, 0x00, c.(xdata := false, xaddr := true, put := ADDR_ID, op := SystemBus.MSB));
      High(m, lsb).0.pointer == 0x5501 && High(High(m, lsb).0, msb).0.pointer == 0x0001
  {
  }

  /** After reset every RAM address reads 0 and every ROM byte not shadowed by RAM reads as before. */
  lemma ResetKeepsRom(m: Memory, x: int)
    requires m.Valid()
    ensures m.InRAM(x) ==> Cleared(m).At(x) == Some(0)
    ensures m.InROM(x) && !m.InRAM(x) ==> Cleared(m).At(x) == m.At(x)
  {
  }

  /** The memory unit with its two byte buffers. */
  class TwoRegion {
    const ramStart: Address
    const ramSize: Address
    const romStart: Address
    const romSize: Address
    const ram: array<byte>
    const rom: array<byte>
    var pointer: word

    ghost predicate Valid()
      reads this
    {
      ram.Length == ramSize && rom.Length == romSize && ram != rom
    }

    function State(): Memory
      reads this, ram, rom
    {
      Memory(ramStart, ramSize, romStart, romSize, ram[..], rom[..], pointer)
    }

    /** memcpy(a, contents, n). */
    static method CopyInto(a: array<byte>, contents: seq<byte>, n: nat)
      requires n <= a.Length && n <= |contents|
      modifies a
      ensures a[..] == Place(old(a[..]), contents, n)
    {
      var i := 0;
      while i < n
        invariant 0 <= i <= n
        invariant forall k :: 0 <= k < i ==> a[k] == contents[k]
        invariant forall k :: i <= k < a.Length ==> a[k] == old(a[k])
      {
        a[i] := contents[i];
        i := i + 1;
      }
    }

    /** The constructor; an image whose copy would run past its region (undefined behaviour) is excluded. */
    constructor (ramBase: Address, ramBytes: Address, romBase: Address, romBytes: Address,
                 image: Option<Image>, ramFill: seq<byte>, romFill: seq<byte>)
      requires |ramFill| == ramBytes && |romFill| == romBytes && WellFormedImage(image)
      requires image.Some? ==> !Overruns(Allocated(ramBase, ramBytes, romBase, romBytes, ramFill, romFill), image.value)
      ensures Valid() && fresh(ram) && fresh(rom)
      ensures Some(State()) == Construct(ramBase, ramBytes, romBase, romBytes, image, ramFill, romFill)
    {
      ramStart, ramSize, romStart, romSize := ramBase, ramBytes, romBase, romBytes;
      ram := new byte[ramBytes](i requires 0 <= i < |ramFill| => ramFill[i]);
      rom := new byte[romBytes](i requires 0 <= i < |romFill| => romFill[i]);
      pointer := 0;
      new;
      assert ram[..] == ramFill && rom[..] == romFill;
      var m := Allocated(ramStart, ramSize, romStart, romSize, ramFill, romFill);
      if image.Some? {
        if InRamAsWritten(m, image.value) {
          CopyInto(ram, image.value.contents, image.value.size);
        } else if InRomAsWritten(m, image.value) {
          CopyInto(rom, image.value.contents, image.value.size);
        }
      }
    }

    /** memset(ram, 0, ram_size). */
    method ZeroRam()
      requires Valid()
      modifies ram
      ensures ram[..] == seq(ram.Length, _ => 0)
    {
      var i := 0;
      while i < ram.Length
        invariant 0 <= i <= ram.Length
        invariant forall k :: 0 <= k < i ==> ram[k] == 0
      {
        ram[i] := 0;
        i := i + 1;
      }
    }

    method Reset() returns (err: SystemError)
      requires Valid()
      modifies this, ram
      ensures Valid() && State() == Cleared(old(State())) && err == NoError
    {
      pointer := 0;
      ZeroRam();
      err := NoError;
    }

    predicate InRAM(x: int)
      reads this
    {
      ramStart <= x < ramStart + ramSize
    }

    predicate InROM(x: int)
      reads this
    {
      romStart <= x < romStart + romSize
    }

    /** operator[] as a read; None where the source throws. */
    method Get(x: int) returns (r: Option<byte>)
      requires Valid()
      ensures r == State().At(x)
    {
      if InRAM(x) {
        r := Some(ram[x - ramStart]);
      } else if InROM(x) {
        r := Some(rom[x - romStart]);
      } else {
        r := None;
      }
    }

    /** operator[] as a write; `ok` is false where the source throws. */
    method Set(x: int, v: byte) returns (ok: bool)
      requires Valid()
      modifies ram, rom
      ensures ok == State().IsMapped(x)
      ensures ok ==> Some(State()) == old(State()).Store(x, v)
      ensures !ok ==> State() == old(State())
    {
      if InRAM(x) {
        ram[x - ramStart] := v;
        ok := true;
      } else if InROM(x) {
        rom[x - romStart] := v;
        ok := true;
      } else {
        ok := false;
      }
    }

    method SetAddress(a: word)
      modifies this
      ensures pointer == a
    {
      pointer := a;
    }

    method GetAddress() returns (a: word)
      ensures a == pointer
    {
      a := pointer;
    }

    method OnRisingClockEdge(w: Wires) returns (w': Wires, err: SystemError)
      requires Valid()
      ensures (w', err) == Rising(State(), w)
    {
      w', err := w, NoError;
      if !w.control.xdata && w.control.get == MEM_ID {
        var v := Get(pointer as int);
        if v.None? {
          return w, ProtectedMemory;
        }
        w' := w.(dataBus := v.value);
      }
    }

    method WriteFromBus(v: byte) returns (err: SystemError)
      requires Valid()
      modifies ram
      ensures Valid() && (State(), err) == WriteRam(old(State()), v)
    {
      if !InRAM(pointer as int) {
        return ProtectedMemory;
      }
      ram[pointer as int - ramStart] := v;
      err := NoError;
    }

    method LoadPointer(w: Wires)
      modifies this
      ensures pointer == LoadedPointer(old(pointer), w)
    {
      if !w.control.xaddr {
        pointer := ((w.addrBus as word) << 8) | w.dataBus as word;
      } else if !w.control.xdata {
        if w.control.op & SystemBus.MSB == 0 {
          ReplaceLow(pointer, w.dataBus);
          pointer := pointer & 0xFF00;
          pointer := pointer | w.dataBus as word;
        } else {
          ReplaceHigh(pointer, w.dataBus);
          pointer := pointer & 0x00FF;
          pointer := pointer | ((w.dataBus as word) << 8);
        }
      }
    }

    method OnHighClock(w: Wires) returns (err: SystemError)
      requires Valid()
      modifies this, ram
      ensures Valid() && (State(), err) == High(old(State()), w)
    {
      err := NoError;
      if !w.control.xdata && w.control.put == MEM_ID {
        err := WriteFromBus(w.dataBus);
      } else if w.control.put == ADDR_ID {
        LoadPointer(w);
      }
    }
  }
}
