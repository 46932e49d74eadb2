// The values behind the banked memory of the current engine
// (src/cpu/memory.cpp): a list of banks, each a start address, a size, a
// writable flag and its bytes, searched in list order, and the memory unit's
// clock phases as functions of the banks, the pointer and the bus.
module Banks {
  import opened Bits
  import opened Errors
  import opened Wrappers
  import opened SystemBus
  import Ids
  import CpuAddressRegister

  /** Memory::MEM_ID, the contents, and Memory::ADDR_ID, the pointer. */
  const MEM_ID: byte := Ids.MEM
  const ADDR_ID: byte := Ids.MEMADDR

  /** A C++ `word` quantity held as an integer: bank extents and offsets. */
  type Addr = x: int | 0 <= x <= 0xFFFF

  /** The byte operator[] hands out for an unmapped address. */
  const Unmapped: byte := 0xFF

  function Zeros(n: nat): (z: seq<byte>)
    ensures |z| == n && forall i :: 0 <= i < n ==> z[i] == 0
  {
    seq(n, _ => 0)
  }

  /** `data` with the bytes from `offset` on replaced by `block`. */
  function Overwrite(data: seq<byte>, offset: nat, block: seq<byte>): (r: seq<byte>)
    requires offset + |block| <= |data|
    ensures |r| == |data|
    ensures forall j :: 0 <= j < |data| ==>
      r[j] == if offset <= j < offset + |block| then block[j - offset] else data[j]
  {
    data[..offset] + block + data[offset + |block|..]
  }

  /** The value of a MemoryBank: its extent, whether it is RAM, and its bytes. */
  datatype Bank = Bank(start: Addr, size: Addr, writable: bool, data: seq<byte>)
  {
    function End(): int {
      start + size
    }

    predicate Valid() {
      |data| == size && End() <= 0xFFFF
    }

    /** MemoryBank::mapped: start <= addr < end. */
    predicate Mapped(addr: int) {
      start <= addr < End()
    }

    /** MemoryBank::fits: both the first address and the one just past the block are mapped. */
    predicate Fits(addr: int, n: int) {
      Mapped(addr) && Mapped(addr + n)
    }

    /** MemoryBank::disjointFrom, as written. */
    predicate DisjointFrom(addr: int, n: int) {
      (addr < start && addr + n < start) || addr >= End()
    }

    function At(addr: int): byte
      requires Valid() && Mapped(addr)
    {
      data[addr - start]
    }

    /** MemoryBank::erase. */
    function Erased(): (r: Bank)
      ensures r.start == start && r.size == size && r.writable == writable
      ensures |r.data| == |data| && forall i :: 0 <= i < |data| ==> r.data[i] == 0
    {
      this.(data := Zeros(|data|))
    }

    /** MemoryBank::copy(addr, size, contents): the block lands at its offset when it fits. */
    function CopyBlock(addr: int, n: nat, contents: seq<byte>): (r: Bank)
      requires Valid() && n <= |contents|
      ensures r.Valid() && r.start == start && r.size == size && r.writable == writable
      ensures forall x :: Mapped(x) ==>
        r.At(x) == if Fits(addr, n) && addr <= x < addr + n then contents[x - addr] else At(x)
    {
      if Fits(addr, n) then this.(data := Overwrite(data, addr - start, contents[..n])) else this
    }
  }

  predicate ValidBanks(bs: seq<Bank>) {
    forall i :: 0 <= i < |bs| ==> bs[i].Valid()
  }

  /**
   * The MemoryBank constructor, on int(start) and int(size): a bank reaching
   * past 0xFFFF collapses to start = size = 0; otherwise it holds a copy of
   * the image, or zeros.
   */
  function NewBank(start: Addr, size: Addr, writable: bool, image: Option<seq<byte>>): (r: Bank)
    requires image.Some? && start + size <= 0xFFFF ==> size <= |image.value|
    ensures r.Valid() && r.writable == writable
    ensures start + size > 0xFFFF ==> r.start == 0 && r.size == 0
    ensures start + size <= 0xFFFF ==> r.start == start && r.size == size
    ensures start + size <= 0xFFFF && image.None? ==> forall i :: 0 <= i < |r.data| ==> r.data[i] == 0
    ensures start + size <= 0xFFFF && image.Some? ==> r.data == image.value[..size]
  {
    if start + size > 0xFFFF then Bank(0, 0, writable, [])
    else if image.Some? then Bank(start, size, writable, image.value[..size])
    else Bank(start, size, writable, Zeros(size))
  }

  /** Memory::findBankForAddress: the first bank in list order mapping `addr`. */
  function FindForAddress(bs: seq<Bank>, addr: int): (r: Option<nat>)
    ensures r.Some? ==> r.value < |bs| && bs[r.value].Mapped(addr)
  {
    if |bs| == 0 then None
    else if bs[0].Mapped(addr) then Some(0)
    else match FindForAddress(bs[1..], addr)
      case None => None
      case Some(k) => Some(k + 1)
  }

  /** Memory::findBankForBlock: the first bank in list order the block fits. */
  function FindForBlock(bs: seq<Bank>, addr: int, n: int): (r: Option<nat>)
    ensures r.Some? ==> r.value < |bs| && bs[r.value].Fits(addr, n)
  {
    if |bs| == 0 then None
    else if bs[0].Fits(addr, n) then Some(0)
    else match FindForBlock(bs[1..], addr, n)
      case None => None
      case Some(k) => Some(k + 1)
  }

  /** findBankForAddress finds the FIRST bank mapping the address, and misses only when none does. */
  lemma {:induction false} FindForAddressIsFirstMatch(bs: seq<Bank>, addr: int)
    ensures FindForAddress(bs, addr).Some? ==>
      forall j :: 0 <= j < FindForAddress(bs, addr).value ==> !bs[j].Mapped(addr)
    ensures FindForAddress(bs, addr).None? <==> forall j :: 0 <= j < |bs| ==> !bs[j].Mapped(addr)
  {
    if |bs| > 0 && !bs[0].Mapped(addr) {
      FindForAddressIsFirstMatch(bs[1..], addr);
      assert forall j :: 1 <= j < |bs| ==> bs[j] == bs[1..][j - 1];
    }
  }

  /** findBankForBlock finds the FIRST bank the block fits, and misses only when it fits none. */
  lemma {:induction false} FindForBlockIsFirstMatch(bs: seq<Bank>, addr: int, n: int)
    ensures FindForBlock(bs, addr, n).Some? ==>
      forall j :: 0 <= j < FindForBlock(bs, addr, n).value ==> !bs[j].Fits(addr, n)
    ensures FindForBlock(bs, addr, n).None? <==> forall j :: 0 <= j < |bs| ==> !bs[j].Fits(addr, n)
  {
    if |bs| > 0 && !bs[0].Fits(addr, n) {
      FindForBlockIsFirstMatch(bs[1..], addr, n);
      assert forall j :: 1 <= j < |bs| ==> bs[j] == bs[1..][j - 1];
    }
  }

  /**
   * Memory::disjointFromAll as written: it answers true when some bank is
   * disjoint and true when none is, so it never reports an overlap.
   */
  function DisjointFromAll(bs: seq<Bank>, addr: int, n: int): (r: bool)
    ensures r
  {
    if |bs| == 0 then true
    else if bs[0].DisjointFrom(addr, n) then true
    else DisjointFromAll(bs[1..], addr, n)
  }

  predicate IsMapped(bs: seq<Bank>, addr: int) {
    FindForAddress(bs, addr).Some?
  }

  /** Memory::inRAM: the first bank mapping `addr` is writable. */
  predicate InRAM(bs: seq<Bank>, addr: int) {
    match FindForAddress(bs, addr)
    case Some(k) => bs[k].writable
    case None => false
  }

  /** Memory::inROM: the first bank mapping `addr` is read-only. */
  predicate InROM(bs: seq<Bank>, addr: int) {
    match FindForAddress(bs, addr)
    case Some(k) => !bs[k].writable
    case None => false
  }

  /** Memory::operator[] read: the byte of the first bank mapping `addr`, else 0xFF. */
  function Read(bs: seq<Bank>, addr: int): byte
    requires ValidBanks(bs)
  {
    match FindForAddress(bs, addr)
    case Some(k) => bs[k].At(addr)
    case None => Unmapped
  }

  /** Memory::operator[] write: the byte lands in the first bank mapping `addr`. */
  function Write(bs: seq<Bank>, addr: int, v: byte): (r: seq<Bank>)
    requires ValidBanks(bs)
    ensures ValidBanks(r) && |r| == |bs|
    ensures forall i :: 0 <= i < |bs| ==>
      r[i].start == bs[i].start && r[i].size == bs[i].size && r[i].writable == bs[i].writable
  {
    match FindForAddress(bs, addr)
    case Some(k) => bs[k := bs[k].(data := bs[k].data[addr - bs[k].start := v])]
    case None => bs
  }

  /** Memory::erase: every bank zeroed, the list itself kept. */
  function Erase(bs: seq<Bank>): (r: seq<Bank>)
    ensures |r| == |bs| && forall i :: 0 <= i < |bs| ==> r[i] == bs[i].Erased()
  {
    seq(|bs|, i requires 0 <= i < |bs| => bs[i].Erased())
  }

  /**
   * Memory::add(address, size, writable, contents): a block that fits a
   * bank is copied into that bank's shared image; otherwise a new bank is
   * appended. The overlap exception is unreachable.
   */
  function AddBlock(bs: seq<Bank>, addr: Addr, n: Addr, writable: bool, contents: seq<byte>): (r: seq<Bank>)
    requires ValidBanks(bs) && n <= |contents|
    ensures ValidBanks(r)
  {
    match FindForBlock(bs, addr, n)
    case Some(k) => bs[k := bs[k].CopyBlock(addr, n, contents)]
    case None =>
      if DisjointFromAll(bs, addr, n) then bs + [NewBank(addr, n, writable, Some(contents))]
      else assert false; bs
  }

  /**
   * Memory::add(MemoryBank &&) (`byReference` false) and
   * Memory::add(MemoryBank &) (`byReference` true, which ignores an empty
   * bank): the bank's bytes go into the first bank it fits, otherwise the
   * bank itself is appended.
   */
  function AddBank(bs: seq<Bank>, nb: Bank, byReference: bool): (r: seq<Bank>)
    requires ValidBanks(bs) && nb.Valid()
    ensures ValidBanks(r)
  {
    if byReference && nb.size == 0 then bs
    else match FindForBlock(bs, nb.start, nb.size)
      case Some(k) => bs[k := bs[k].CopyBlock(nb.start, nb.size, nb.data)]
      case None =>
        if DisjointFromAll(bs, nb.start, nb.size) then bs + [nb]
        else assert false; bs
  }

  /** Memory::initialize(MemoryBank &): erase every bank, then add the new one. */
  function Initialize(bs: seq<Bank>, nb: Bank): (r: seq<Bank>)
    requires ValidBanks(bs) && nb.Valid()
    ensures ValidBanks(r)
  {
    AddBank(Erase(bs), nb, true)
  }

  /** Memory::onRisingClockEdge as a function: the new bus lines and the error. */
  function Rising(bs: seq<Bank>, pointer: word, b: Lines): (Lines, SystemError)
    requires ValidBanks(bs)
  {
    if (b.DataTransfer() || b.AddrTransfer()) && b.get == MEM_ID then
      if !IsMapped(bs, pointer as int) then (b, ProtectedMemory)
      else (b.PutOnAddrBus(0).PutOnDataBus(Read(bs, pointer as int)), NoError)
    else (b, NoError)
  }

  /** The banks, the pointer and the error after a high clock. */
  datatype Outcome = Outcome(banks: seq<Bank>, pointer: word, err: SystemError)

  /** A bus write into memory: refused with ProtectedMemory unless `addr` is in RAM. */
  function WriteRam(bs: seq<Bank>, addr: int, v: byte): (seq<Bank>, SystemError)
    requires ValidBanks(bs)
  {
    if !InRAM(bs, addr) then (bs, ProtectedMemory) else (Write(bs, addr, v), NoError)
  }

  /**
   * The pointer after a high clock that addresses MEMADDR: an address
   * transfer loads addr:data, a data transfer one half as MSB selects.
   */
  function LoadedPointer(pointer: word, b: Lines): word {
    if b.AddrTransfer() then Join(b.addrBus, b.dataBus)
    else if b.DataTransfer() then
      if b.op & MSB == 0 then Join(Hi(pointer), b.dataBus) else Join(b.dataBus, Lo(pointer))
    else pointer
  }

  /** Memory::onHighClock as a function. */
  function High(bs: seq<Bank>, pointer: word, b: Lines): Outcome
    requires ValidBanks(bs)
  {
    if (b.DataTransfer() || b.AddrTransfer()) && b.put == MEM_ID then
      Outcome(WriteRam(bs, pointer as int, b.dataBus).0, pointer, WriteRam(bs, pointer as int, b.dataBus).1)
    else if b.put == ADDR_ID then Outcome(bs, LoadedPointer(pointer, b), NoError)
    else Outcome(bs, pointer, NoError)
  }

  /** A block ending exactly at a bank's end does not fit it, so a bank never fits its own extent. */
  lemma ExactEndDoesNotFit(b: Bank, addr: int, n: int)
    requires addr + n == b.End()
    ensures !b.Fits(addr, n)
    ensures !b.Fits(b.start, b.size)
  {
  }

  /** The bank set up for 0x8000 bytes at 0x8000 (BackPlane's ROM) collapses to an empty bank. */
  lemma UpperHalfBankCollapses(writable: bool)
    ensures NewBank(0x8000, 0x8000, writable, None) == Bank(0, 0, writable, [])
    ensures forall x :: !NewBank(0x8000, 0x8000, writable, None).Mapped(x)
  {
  }

  /**
   * The MemoryBank constructor as evidently intended: a bank may end
   * exactly at 0x10000, just past the last address; only one reaching
   * further collapses.
   */
  function NewBankIntended(start: Addr, size: Addr, writable: bool, image: Option<seq<byte>>): (r: Bank)
    requires image.Some? && start + size <= 0x1_0000 ==> size <= |image.value|
    ensures |r.data| == r.size && r.End() <= 0x1_0000 && r.writable == writable
    ensures start + size <= 0xFFFF ==> r == NewBank(start, size, writable, image)
    ensures start + size == 0x1_0000 ==> forall x :: r.Mapped(x) <==> start <= x <= 0xFFFF
  {
    if start + size > 0x1_0000 then Bank(0, 0, writable, [])
    else if image.Some? then Bank(start, size, writable, image.value[..size])
    else Bank(start, size, writable, Zeros(size))
  }

  /** The intended bank for 0x8000 bytes at 0x8000 maps the whole upper half, up to and including 0xFFFF. */
  lemma UpperHalfBankServes(writable: bool)
    ensures forall x :: NewBankIntended(0x8000, 0x8000, writable, None).Mapped(x) <==> 0x8000 <= x <= 0xFFFF
    ensures forall i :: 0 <= i < 0x8000 ==> NewBankIntended(0x8000, 0x8000, writable, None).data[i] == 0
  {
  }

  /** InRAM and InROM split the mapped addresses between them. */
  lemma RamRomPartitionMapped(bs: seq<Bank>, addr: int)
    ensures IsMapped(bs, addr) <==> InRAM(bs, addr) || InROM(bs, addr)
    ensures !(InRAM(bs, addr) && InROM(bs, addr))
  {
  }

  /** Two bank lists with the same extents resolve every address to the same bank. */
  lemma {:induction false} FindDependsOnExtentsOnly(bs: seq<Bank>, cs: seq<Bank>, addr: int)
    requires |bs| == |cs|
    requires forall i :: 0 <= i < |bs| ==> bs[i].start == cs[i].start && bs[i].size == cs[i].size
    ensures FindForAddress(bs, addr) == FindForAddress(cs, addr)
  {
    if |bs| > 0 {
      FindDependsOnExtentsOnly(bs[1..], cs[1..], addr);
    }
  }

  /** A bank appended at the end only serves the addresses no earlier bank maps. */
  lemma {:induction false} FindAfterAppend(bs: seq<Bank>, nb: Bank, addr: int)
    ensures FindForAddress(bs + [nb], addr) ==
      if IsMapped(bs, addr) then FindForAddress(bs, addr)
      else if nb.Mapped(addr) then Some(|bs|)
      else None
  {
    if |bs| > 0 {
      assert (bs + [nb])[1..] == bs[1..] + [nb];
      FindAfterAppend(bs[1..], nb, addr);
    }
  }

  /** Reading through the appended bank: earlier banks shadow it. */
  lemma AppendedBankShadowed(bs: seq<Bank>, nb: Bank, addr: int)
    requires ValidBanks(bs) && nb.Valid()
    ensures ValidBanks(bs + [nb])
    ensures Read(bs + [nb], addr) ==
      if IsMapped(bs, addr) then Read(bs, addr)
      else if nb.Mapped(addr) then nb.At(addr)
      else Unmapped
  {
    FindAfterAppend(bs, nb, addr);
  }

  /** operator[] reads back the byte it wrote at a mapped address, and only there. */
  lemma ReadAfterWrite(bs: seq<Bank>, addr: int, v: byte, x: int)
    requires ValidBanks(bs)
    ensures Read(Write(bs, addr, v), x) == if x == addr && IsMapped(bs, addr) then v else Read(bs, x)
    ensures IsMapped(Write(bs, addr, v), x) == IsMapped(bs, x)
    ensures InRAM(Write(bs, addr, v), x) == InRAM(bs, x)
  {
    var w := Write(bs, addr, v);
    FindDependsOnExtentsOnly(bs, w, x);
    match FindForAddress(bs, addr)
    case None =>
      assert w == bs;
    case Some(j) =>
      var off := addr - bs[j].start;
      assert w == bs[j := bs[j].(data := bs[j].data[off := v])];
      if x == addr {
        assert Read(w, x) == w[j].data[off];
      } else if FindForAddress(bs, x) == Some(j) {
        assert Read(w, x) == w[j].data[x - bs[j].start];
      }
  }

  /** After erase every mapped byte reads 0; the banks and their kinds are kept. */
  lemma EraseZeroes(bs: seq<Bank>, x: int)
    requires ValidBanks(bs)
    ensures ValidBanks(Erase(bs))
    ensures Read(Erase(bs), x) == if IsMapped(bs, x) then 0 else Unmapped
    ensures InRAM(Erase(bs), x) == InRAM(bs, x) && InROM(Erase(bs), x) == InROM(bs, x)
  {
    FindDependsOnExtentsOnly(bs, Erase(bs), x);
  }

  /** Copying into bank k changes only bytes of the block that bank k serves. */
  lemma ReadAfterCopy(bs: seq<Bank>, k: nat, addr: int, n: nat, contents: seq<byte>, x: int)
    requires ValidBanks(bs) && k < |bs| && n <= |contents| && bs[k].Fits(addr, n)
    ensures ValidBanks(bs[k := bs[k].CopyBlock(addr, n, contents)])
    ensures Read(bs[k := bs[k].CopyBlock(addr, n, contents)], x) ==
      if FindForAddress(bs, x) == Some(k) && addr <= x < addr + n then contents[x - addr] else Read(bs, x)
  {
    FindDependsOnExtentsOnly(bs, bs[k := bs[k].CopyBlock(addr, n, contents)], x);
  }

  /** A bank built from an image serves exactly its extent, when that stays below 0xFFFF, with the image's bytes. */
  lemma NewBankServes(start: Addr, size: Addr, writable: bool, image: seq<byte>, x: int)
    requires size <= |image|
    ensures NewBank(start, size, writable, Some(image)).Mapped(x) <==>
      start <= x < start + size <= 0xFFFF
    ensures NewBank(start, size, writable, Some(image)).Mapped(x) ==>
      NewBank(start, size, writable, Some(image)).At(x) == image[x - start]
  {
  }

  /** Memory::add(address, size, ...) of a block that fits: it shows through wherever its bank serves the address. */
  lemma ReadAfterAddFittingBlock(bs: seq<Bank>, addr: Addr, n: Addr, writable: bool, contents: seq<byte>, x: int)
    requires ValidBanks(bs) && n <= |contents|
    requires FindForBlock(bs, addr, n).Some?
    ensures Read(AddBlock(bs, addr, n, writable, contents), x) ==
      if FindForAddress(bs, x) == FindForBlock(bs, addr, n) && addr <= x < addr + n
      then contents[x - addr] else Read(bs, x)
  {
    var k := FindForBlock(bs, addr, n).value;
    assert AddBlock(bs, addr, n, writable, contents) == bs[k := bs[k].CopyBlock(addr, n, contents)];
    ReadAfterCopy(bs, k, addr, n, contents, x);
  }

  /**
   * Memory::add(address, size, ...) of a block that fits no bank: the
   * appended bank shows through only where no earlier bank maps the address.
   */
  lemma ReadAfterAddOtherBlock(bs: seq<Bank>, addr: Addr, n: Addr, writable: bool, contents: seq<byte>, x: int)
    requires ValidBanks(bs) && n <= |contents|
    requires FindForBlock(bs, addr, n).None?
    ensures Read(AddBlock(bs, addr, n, writable, contents), x) ==
      if IsMapped(bs, x) then Read(bs, x)
      else if addr <= x < addr + n <= 0xFFFF then contents[x - addr]
      else Unmapped
  {
    var nb := NewBank(addr, n, writable, Some(contents));
    assert AddBlock(bs, addr, n, writable, contents) == bs + [nb];
    AppendedBankShadowed(bs, nb, x);
    NewBankServes(addr, n, writable, contents, x);
  }

  /** Memory::add(MemoryBank) of a bank that fits an existing one: its bytes show through there. */
  lemma ReadAfterAddFittingBank(bs: seq<Bank>, nb: Bank, byReference: bool, x: int)
    requires ValidBanks(bs) && nb.Valid() && !(byReference && nb.size == 0)
    requires FindForBlock(bs, nb.start, nb.size).Some?
    ensures Read(AddBank(bs, nb, byReference), x) ==
      if FindForAddress(bs, x) == FindForBlock(bs, nb.start, nb.size) && nb.Mapped(x)
      then nb.At(x) else Read(bs, x)
  {
    var k := FindForBlock(bs, nb.start, nb.size).value;
    var r := bs[k := bs[k].CopyBlock(nb.start, nb.size, nb.data)];
    assert AddBank(bs, nb, byReference) == r;
    ReadAfterCopy(bs, k, nb.start, nb.size, nb.data, x);
    if FindForAddress(bs, x) == Some(k) && nb.Mapped(x) {
      assert Read(r, x) == nb.At(x);
    } else {
      assert Read(r, x) == Read(bs, x);
    }
  }

  /** Memory::add(MemoryBank) of a bank that fits none: it is appended, shadowed by earlier banks. */
  lemma ReadAfterAddOtherBank(bs: seq<Bank>, nb: Bank, byReference: bool, x: int)
    requires ValidBanks(bs) && nb.Valid() && !(byReference && nb.size == 0)
    requires FindForBlock(bs, nb.start, nb.size).None?
    ensures Read(AddBank(bs, nb, byReference), x) ==
      if IsMapped(bs, x) then Read(bs, x) else if nb.Mapped(x) then nb.At(x) else Unmapped
  {
    assert AddBank(bs, nb, byReference) == bs + [nb];
    AppendedBankShadowed(bs, nb, x);
  }

  /** Memory::add(MemoryBank &) ignores an empty bank. */
  lemma AddEmptyReferenceIgnored(bs: seq<Bank>, nb: Bank)
    requires ValidBanks(bs) && nb.Valid() && nb.size == 0
    ensures AddBank(bs, nb, true) == bs
  {
  }

  /** The RAM and ROM banks of src/test/memory.cpp: 0x2000 bytes at 0x0000 and 0x2000 bytes at 0x8000, zeroed. */
  function TestBanks(): (bs: seq<Bank>)
    ensures ValidBanks(bs) && |bs| == 2
  {
    [NewBank(0x0000, 0x2000, true, None), NewBank(0x8000, 0x2000, false, None)]
  }

  /**
   * Memory::initialize(address, size, contents): a three-byte program at
   * 0x8000 lands in the read-only bank, as the controller tests rely on.
   */
  lemma ProgramLoadsIntoRom(prog: seq<byte>, writable: bool)
    requires |prog| == 3
    ensures Read(Initialize(TestBanks(), NewBank(0x8000, 3, writable, Some(prog))), 0x8000) == prog[0]
    ensures Read(Initialize(TestBanks(), NewBank(0x8000, 3, writable, Some(prog))), 0x8002) == prog[2]
    ensures Read(Initialize(TestBanks(), NewBank(0x8000, 3, writable, Some(prog))), 0x8003) == 0
    ensures InROM(Initialize(TestBanks(), NewBank(0x8000, 3, writable, Some(prog))), 0x8000)
  {
    var bs := Erase(TestBanks());
    var nb := NewBank(0x8000, 3, writable, Some(prog));
    assert FindForBlock(bs, 0x8000, 3) == Some(1);
    assert FindForAddress(bs, 0x8000) == Some(1);
    assert FindForAddress(bs, 0x8002) == Some(1);
    assert FindForAddress(bs, 0x8003) == Some(1);
    ReadAfterAddFittingBank(bs, nb, true, 0x8000);
    ReadAfterAddFittingBank(bs, nb, true, 0x8002);
    ReadAfterAddFittingBank(bs, nb, true, 0x8003);
    EraseZeroes(TestBanks(), 0x8003);
    FindDependsOnExtentsOnly(bs, AddBank(bs, nb, true), 0x8000);
  }

  /**
   * A block covering a whole bank does not fit it (fits excludes the bank's
   * end), so it is appended behind that bank and never read back.
   */
  lemma WholeBankImageIsShadowed(image: seq<byte>)
    requires |image| == 0x2000
    ensures |AddBlock(TestBanks(), 0x8000, 0x2000, false, image)| == 3
    ensures Read(AddBlock(TestBanks(), 0x8000, 0x2000, false, image), 0x8000) == 0
  {
    var bs := TestBanks();
    FindForBlockIsFirstMatch(bs, 0x8000, 0x2000);
    assert FindForBlock(bs, 0x8000, 0x2000) == None;
    assert FindForAddress(bs, 0x8000) == Some(1);
    ReadAfterAddOtherBlock(bs, 0x8000, 0x2000, false, image, 0x8000);
  }

  /** The bus read of Memory::onRisingClockEdge: protected exactly when the pointer is unmapped. */
  lemma RisingReadsPointedByte(bs: seq<Bank>, pointer: word, b: Lines)
    requires ValidBanks(bs)
    requires (b.DataTransfer() || b.AddrTransfer()) && b.get == MEM_ID
    ensures Rising(bs, pointer, b).1 == ProtectedMemory <==> !IsMapped(bs, pointer as int)
    ensures Rising(bs, pointer, b).1 == ProtectedMemory ==> Rising(bs, pointer, b).0 == b
    ensures Rising(bs, pointer, b).1 == NoError ==>
      Rising(bs, pointer, b).0 == b.(addrBus := 0, dataBus := Read(bs, pointer as int))
  {
  }

  /** Memory is inert on the rising edge unless it is the source of a transfer. */
  lemma RisingInertUnlessSource(bs: seq<Bank>, pointer: word, b: Lines)
    requires ValidBanks(bs)
    requires !(b.DataTransfer() || b.AddrTransfer()) || b.get != MEM_ID
    ensures Rising(bs, pointer, b) == (b, NoError)
  {
  }

  /**
   * Memory::onHighClock on the contents: only the pointed byte of RAM can
   * change, and a write outside RAM is refused with ProtectedMemory.
   */
  lemma HighWritesOnlyPointedRam(bs: seq<Bank>, pointer: word, b: Lines, x: int)
    requires ValidBanks(bs)
    ensures ValidBanks(High(bs, pointer, b).banks)
    ensures High(bs, pointer, b).err == ProtectedMemory <==>
      (b.DataTransfer() || b.AddrTransfer()) && b.put == MEM_ID && !InRAM(bs, pointer as int)
    ensures High(bs, pointer, b).err != NoError ==> High(bs, pointer, b) == Outcome(bs, pointer, ProtectedMemory)
    ensures Read(High(bs, pointer, b).banks, x) ==
      if (b.DataTransfer() || b.AddrTransfer()) && b.put == MEM_ID && InRAM(bs, pointer as int) && x == pointer as int
      then b.dataBus else Read(bs, x)
  {
    ReadAfterWrite(bs, pointer as int, b.dataBus, x);
  }

  /** A byte written to RAM over the bus is read back by the next bus read. */
  lemma WriteThenReadBack(bs: seq<Bank>, pointer: word, b1: Lines, b2: Lines)
    requires ValidBanks(bs) && InRAM(bs, pointer as int)
    requires b1.DataTransfer() && b1.put == MEM_ID
    requires b2.DataTransfer() && b2.get == MEM_ID
    ensures High(bs, pointer, b1).err == NoError && High(bs, pointer, b1).pointer == pointer
    ensures Rising(High(bs, pointer, b1).banks, pointer, b2) == (b2.(addrBus := 0, dataBus := b1.dataBus), NoError)
  {
    ReadAfterWrite(bs, pointer as int, b1.dataBus, pointer as int);
  }

  /**
   * Addressed as MEMADDR with one transfer line asserted, the pointer loads
   * exactly as an address register does; with both asserted the address
   * transfer wins, where an address register would take the data byte.
   */
  lemma PointerLoadsAsAddressRegister(bs: seq<Bank>, pointer: word, b: Lines)
    requires ValidBanks(bs) && b.put == ADDR_ID
    ensures High(bs, pointer, b).banks == bs && High(bs, pointer, b).err == NoError
    ensures !(b.DataTransfer() && b.AddrTransfer()) ==>
      High(bs, pointer, b).pointer == CpuAddressRegister.High(ADDR_ID, pointer, b)
    ensures b.DataTransfer() && b.AddrTransfer() ==> High(bs, pointer, b).pointer == Join(b.addrBus, b.dataBus)
  {
  }

  /** Loading the pointer over XADDR and then reading gives the byte at addr:data. */
  lemma LoadPointerThenRead(bs: seq<Bank>, pointer: word, b1: Lines, b2: Lines)
    requires ValidBanks(bs)
    requires b1.put == ADDR_ID && b1.AddrTransfer()
    requires b2.DataTransfer() && b2.get == MEM_ID
    requires IsMapped(bs, Join(b1.addrBus, b1.dataBus) as int)
    ensures Rising(bs, High(bs, pointer, b1).pointer, b2).0.dataBus == Read(bs, Join(b1.addrBus, b1.dataBus) as int)
  {
  }
}
