# jv80 in Dafny

A model of jv80, a simulator of an 8-bit breadboard CPU, and of the front
end of its assembler. The model covers three parts.

**The current engine** (`src/cpu/`, `include/`):
- the shared system bus and its active-low control lines;
- the 8-bit registers and the 16-bit address registers;
- the ALU, with its 16-slot operator table and its flags;
- the banked memory;
- the microcoded controller;
- the backplane, which owns the bus and the units, alternates a system-clock
  phase and an I/O-clock phase, and stops when the halt line is asserted;
- the test harness, which runs whole cycles and counts them;
- the clock, which drives its owner through rising, high, falling and low.

**The earlier generation** (`src/*.cpp`):
- the two-region memory (RAM plus ROM);
- the registers that work on the wires of their system;
- the controller, which searches a sentinel-terminated microcode list;
- the control lines;
- `RealSystem`, with its concrete microcode table and sample program.

**The assembler** (`asm/asm.py`, `asm/split/__init__.py`):
- the line tokenizers `_split` and `split`, and the escape-aware `split`;
- the byte literals `to_bytes` and `bytes_to_str`;
- the output image with `set_address` and `append`;
- segments, labels, and the `Jump` and `Move` instruction entries;
- how an instruction writes its opcode and constant bytes into the image.

Bytes and words are the bit-vectors `byte` and `word`, so masking, shifting
and 16-bit wrap-around match the C++. Units whose fields the source updates
in place are classes. Their methods are proved against transition functions
on values. The properties of the system are proved as lemmas about those
functions. The backplane, the harness and `RealSystem` hold their units as
values, in a list of a closed `Unit` type. Each clock phase offers the
phase's hook to the units in order, and the first error ends the round.

## Model

| member | source | states |
|---|---|---|
| Bits.Join | src/cpu/addressregister.cpp:54-56 | `addr << 8` or-ed with `data` is the word whose high byte is `addr` and low byte is `data`, the inverse of taking the two halves |
| Bits.ReplaceLow | src/cpu/addressregister.cpp:48-50 | masking with 0xFF00 and or-ing a byte replaces exactly the low half |
| Bits.ReplaceHigh | src/cpu/addressregister.cpp:51-53 | masking with 0x00FF and or-ing a shifted byte replaces exactly the high half |
| Bits.SplitJoin | src/cpu/addressregister.cpp:54-56 | joining a word's high and low bytes gives the word back |
| SystemBus.ResetDeassertsEverything | src/cpu/systembus.cpp:3-18 | after reset every active-low line (transfer, halt, sus, sack, io) reads de-asserted, rst is clear, ids, operator and both buses are zero, the processor flags are kept, and a second reset changes nothing |
| SystemBus.TransferLinesExclusive | src/cpu/systembus.cpp:51-67 | after `xdata` exactly the data line is asserted and after `xaddr` exactly the address line; both record get = from, put = to and the operator, and each call overrides the other |
| SystemBus.InitializeMayAssertBoth | src/cpu/systembus.cpp:38-49 | `initialize` stores its values verbatim, so both transfer lines can be asserted at once; the flags are untouched |
| SystemBus.StopOnlyAssertsHalt | src/cpu/systembus.cpp:69-72 | `stop` asserts the halt line and changes nothing else |
| SystemBus.PutOnBusChangesOneByte | src/cpu/systembus.cpp:24-36 | `putOnDataBus`/`putOnAddrBus` set their own byte and leave every other field unchanged |
| SystemBus.SetFlagKeepsOthers | src/test/zzcontroller.cpp:622-636 | setting one of Z, C, V makes it set and leaves the other flags as they were |
| SystemBus.ClearFlagKeepsOthers | src/test/zzcontroller.cpp:622-636 | clearing one flag clears it and leaves the others; `clearFlags` clears all three |
| SystemBus.SystemBus.constructor | include/systembus.h:8-19 | a new bus has the field initialisers of the class: lines de-asserted, ids, operator and buses zero |
| SystemBus.SystemBus.Reset | src/cpu/systembus.cpp:3-18 | the new bus state is the reset state of the old one, and the result is NoError |
| SystemBus.SystemBus.PutOnDataBus | src/cpu/systembus.cpp:24-27 | only the data byte changes, to the value given |
| SystemBus.SystemBus.PutOnAddrBus | src/cpu/systembus.cpp:33-36 | only the address byte changes, to the value given |
| SystemBus.SystemBus.Initialize | src/cpu/systembus.cpp:38-49 | the two lines, both ids, the operator and both buses take the given values; halt, rst and the flags are kept |
| SystemBus.SystemBus.Xdata | src/cpu/systembus.cpp:51-58 | the data line asserted, the address line de-asserted, get/put/op recorded, nothing else changed |
| SystemBus.SystemBus.Xaddr | src/cpu/systembus.cpp:60-67 | the address line asserted, the data line de-asserted, get/put/op recorded, nothing else changed |
| SystemBus.SystemBus.Stop | src/cpu/systembus.cpp:69-72 | only the halt line changes, to asserted |
| SystemBus.SystemBus.SetFlag | src/test/zzcontroller.cpp:622-636 | the flag byte gains the given flag; nothing else changes |
| SystemBus.SystemBus.ClearFlag | src/test/zzcontroller.cpp:622-636 | the flag byte loses the given flag; nothing else changes |
| SystemBus.SystemBus.ClearFlags | src/test/zzcontroller.cpp:622-636 | the flag byte becomes zero; nothing else changes |
| SystemBus.SystemBus.SetFlagTo | src/cpu/alu.cpp:93-102 | the two-argument flag setter the ALU uses: set when asked, cleared otherwise, nothing else changes |
| CpuRegister.Name | src/cpu/register.cpp:5-7 | a register's name is the one character 'A' + id |
| CpuRegister.Rising | src/cpu/register.cpp:25-30 | the rising edge changes at most the data bus byte |
| CpuRegister.NamesOfGeneralRegisters | src/cpu/register.cpp:5-7 | the general registers 0-3 are named "A", "B", "C", "D" |
| CpuRegister.NameInjective | src/cpu/register.cpp:5-7 | two different ids below 26 give different names |
| CpuRegister.DrivesIff | src/cpu/register.cpp:25-30 | the register puts its value on the data bus when XDATA is asserted and get is its id, and leaves the bus alone otherwise |
| CpuRegister.LatchesIff | src/cpu/register.cpp:32-37 | the register takes the data bus byte when XDATA is asserted and put is its id, and keeps its value otherwise |
| CpuRegister.AddressTransferIgnored | src/cpu/register.cpp:26-33 | without XDATA neither edge changes the register or the bus |
| CpuRegister.TransferCopies | src/cpu/register.cpp:25-37 | a data transfer from one register to another gives the destination the source's value |
| CpuRegister.Register.constructor | src/cpu/register.cpp:5-7 | a new register has its id, the name 'A' + id and the value 0 of its initialiser |
| CpuRegister.Register.SetValue | src/cpu/register.cpp:9-12 | the value becomes the byte given |
| CpuRegister.Register.Reset | src/cpu/register.cpp:20-23 | the value becomes 0 and the result is NoError |
| CpuRegister.Register.OnRisingClockEdge | src/cpu/register.cpp:25-30 | the new bus is the rising-edge transition of the old one, and the result is NoError |
| CpuRegister.Register.OnHighClock | src/cpu/register.cpp:32-37 | the new value is the high-clock transition of the old one, and the result is NoError |
| CpuAddressRegister.Rising | src/cpu/addressregister.cpp:24-43 | a register that is not the source leaves bus and value unchanged |
| CpuAddressRegister.DataSourceDrivesSelectedHalf | src/cpu/addressregister.cpp:25-31 | as an XDATA source the register drives its high byte when MSB is set and its low byte otherwise, and keeps its value |
| CpuAddressRegister.AddressSourceDrivesAndSteps | src/cpu/addressregister.cpp:32-40 | as an XADDR source the address and data bytes together read back as the value; then Inc adds one, or else Dec subtracts one, wrapping at 16 bits |
| CpuAddressRegister.RisingOnlyDrivesBuses | src/cpu/addressregister.cpp:24-43 | the rising edge changes at most the two bus bytes |
| CpuAddressRegister.DataDestinationReplacesHalf | src/cpu/addressregister.cpp:45-53 | as an XDATA destination only the half MSB selects takes the data byte; the other half is kept |
| CpuAddressRegister.LoadHalvesComposes | src/cpu/addressregister.cpp:45-53 | loading the low half and then the high half gives exactly the word of the two bytes |
| CpuAddressRegister.AddressTransferCopies | src/cpu/addressregister.cpp:32-56 | an address transfer copies the source's value before its step into the destination, and the source ends up stepped |
| CpuAddressRegister.UnaddressedUnchanged | src/cpu/addressregister.cpp:24-58 | a register that is neither source nor destination leaves bus and value as they were |
| CpuAddressRegister.AddressRegister.constructor | src/cpu/addressregister.cpp:5-6 | a new register has its id, its name and the value 0 of its initialiser |
| CpuAddressRegister.AddressRegister.SetValue | src/cpu/addressregister.cpp:8-11 | the value becomes the word given |
| CpuAddressRegister.AddressRegister.Reset | src/cpu/addressregister.cpp:19-22 | the value becomes 0 and the result is NoError |
| CpuAddressRegister.AddressRegister.OnRisingClockEdge | src/cpu/addressregister.cpp:24-43 | bus and value after the edge are the rising transition of those before, and the result is NoError |
| CpuAddressRegister.AddressRegister.OnHighClock | src/cpu/addressregister.cpp:45-58 | the new value is the high-clock transition of the old one, and the result is NoError |
| Alu.Slot | src/cpu/alu.cpp:23-83 | the opflags select an empty slot exactly for 4-7 and from 0xF up, and an arithmetic operator (ADD, ADC, SUB, SBB) exactly for 0-3 |
| Alu.AddFacts | src/cpu/alu.cpp:24-32 | the ADD/ADC word has the byte sum (plus carry) as its low byte and bit 8 set exactly when the unsigned sum reaches 256 |
| Alu.SubFacts | src/cpu/alu.cpp:34-42 | the SUB/SBB word `lhs + ~(rhs + carry) + 1` has `lhs - rhs - carry` as its low byte and bit 8 set exactly on a borrow |
| Alu.ShlFacts | src/cpu/alu.cpp:60-66 | the SHL word is the byte shifted left with the carry in bit 0, and bit 8 is the old bit 7 |
| Alu.ShrFacts | src/cpu/alu.cpp:67-78 | the SHR word is the byte shifted right with the carry in bit 7, and bit 8 is the old bit 0 |
| Alu.LogicFacts | src/cpu/alu.cpp:48-59 | AND, OR, XOR give the bitwise byte and NOT the complement of the right operand, none with bit 8 set |
| Alu.AddMatches | src/cpu/alu.cpp:24-26 | the ADD lambda produces the reference sum and carries on unsigned overflow |
| Alu.AdcMatches | src/cpu/alu.cpp:28-32 | the ADC lambda produces the reference sum with carry-in and carries on unsigned overflow |
| Alu.SubMatches | src/cpu/alu.cpp:34-36 | the SUB lambda produces `lhs - rhs` and carries exactly on a borrow |
| Alu.SbbMatches | src/cpu/alu.cpp:38-42 | the SBB lambda produces `lhs - rhs - carry` and carries exactly on a borrow |
| Alu.AndMatches | src/cpu/alu.cpp:48-50 | the AND lambda produces `lhs & rhs` and never carries |
| Alu.OrMatches | src/cpu/alu.cpp:51-53 | the OR lambda produces the bitwise or of `lhs` and `rhs` and never carries |
| Alu.XorMatches | src/cpu/alu.cpp:54-56 | the XOR lambda produces `lhs ^ rhs` and never carries |
| Alu.NotMatches | src/cpu/alu.cpp:57-59 | the NOT lambda produces the complement of the right operand and never carries |
| Alu.ShlMatches | src/cpu/alu.cpp:60-66 | the SHL lambda produces the reference shift and carries the old bit 7 |
| Alu.ShrMatches | src/cpu/alu.cpp:67-78 | the SHR lambda produces the reference shift and carries the old bit 0 |
| Alu.ApplyMatches | src/cpu/alu.cpp:23-83 | for every operator of the table the word's low byte is the reference value and bit 8 the reference carry |
| Alu.SignBitsDetectOverflow | src/cpu/alu.cpp:109-118 | for opflags 0-3 the sign-bit rule of `setOverflow`, on the pre-write lhs, the rhs and the written byte, is exactly signed two's-complement overflow of the exact sum or difference |
| Alu.SignExtendIsSigned | src/cpu/alu.cpp:109-118 | the 16-bit sign extension used for the overflow reference encodes the byte's signed value |
| Alu.FlagByteReads | include/systembus.h:24-28 | the flag byte built from Z, C, V reads back each of the three and has no other bit set |
| Alu.ClearThenSet | src/cpu/alu.cpp:94-100 | clearing the flags and then setting Z and C as computed leaves exactly those two |
| Alu.ThenOverflow | src/cpu/alu.cpp:113-116 | the two-argument setFlag of V adds exactly V as computed |
| Alu.OverflowStep | src/cpu/alu.cpp:101-118 | after Z and C, `setOverflow` adds V for opflags 0-3 and leaves the flags as they are for every other operator |
| Alu.FinishFlags | src/cpu/alu.cpp:92-102 | the low byte of the lambda's word goes to the left operand and the flags are rebuilt from nothing: Z from the byte, C from bit 8, V only for opflags 0-3 |
| Alu.HighComputes | src/cpu/alu.cpp:85-106 | for the put target with a non-empty slot, the left operand receives the reference value and the flags are exactly Z (zero), C (carry, borrow or bit shifted out) and V (signed overflow, arithmetic only), with the carry-in read before the flags are cleared |
| Alu.EmptySlotIsInert | src/cpu/alu.cpp:44-91 | an empty slot only latches the right operand; flags and left operand are untouched |
| Alu.NotAddressedIsInert | src/cpu/alu.cpp:85-89 | when the ALU is not the put target, both operands and the bus stay as they were |
| Alu.ClearSetsZero | src/cpu/alu.cpp:79-81 | CLR leaves 0 in the left operand with only Z set |
| Alu.HighFlags | src/cpu/alu.cpp:85-106 | flag by flag: Z says the written byte is zero, C and V are the reference carry and overflow, and nothing on the bus but the flags changes |
| Alu.AddThroughBus | src/cpu/alu.cpp:24-100 | ADD leaves `lhs + rhs` with C set on unsigned overflow and Z on a zero result |
| Alu.SubtractWithBorrowThroughBus | src/cpu/alu.cpp:38-100 | SBB leaves `lhs - rhs - C` with C set exactly on a borrow, as the arithmetic tests expect |
| Alu.ALU.constructor | src/cpu/alu.cpp:18-20 | a new ALU has its id, the value 0 and its left-operand register |
| Alu.ALU.Reset | src/cpu/register.cpp:20-23 | the right operand becomes 0 and the result is NoError |
| Alu.ALU.OnRisingClockEdge | src/cpu/register.cpp:25-30 | the override declared at include/alu.h:40 has no body in src/cpu/alu.cpp; the model gives it the Register rising edge, which drives the right operand exactly as a register does |
| Alu.ALU.SetOverflowFlag | src/cpu/alu.cpp:109-118 | the bus afterwards is the `setOverflow` transition of the bus before |
| Alu.ALU.WriteFlags | src/cpu/alu.cpp:94-101 | the flags become exactly Z, C and (for opflags 0-3) V as computed; nothing else on the bus changes |
| Alu.ALU.Execute | src/cpu/alu.cpp:89-105 | operands and bus afterwards are the operation applied to those before |
| Alu.ALU.OnHighClock | src/cpu/alu.cpp:85-106 | operands and bus afterwards are the high-clock transition (latch, then operation) of those before; the result is NoError |
| Alu.ArithmeticMatches | src/cpu/alu.cpp:24-42 | each of ADD, ADC, SUB and SBB leaves the reference value in the low byte and the reference carry in bit 8 |
| Alu.LogicMatches | src/cpu/alu.cpp:48-59 | each of AND, OR, XOR and NOT leaves the reference value in the low byte and never carries |
| Alu.ShiftMatches | src/cpu/alu.cpp:60-78 | SHL and SHR leave the reference shift in the low byte and the bit shifted out in bit 8 |
| Alu.BitwiseMatches | src/cpu/alu.cpp:44-83 | every operator other than the four arithmetic ones leaves the reference value and carry |
| Alu.AddOverflowMatches | src/cpu/alu.cpp:109-118 | for ADD the sign-bit rule of `setOverflow` gives exactly signed overflow of the reference sum |
| Alu.AdcOverflowMatches | src/cpu/alu.cpp:109-118 | for ADC the sign-bit rule of `setOverflow` gives exactly signed overflow of the reference sum with carry |
| Alu.SubOverflowMatches | src/cpu/alu.cpp:109-118 | for SUB the sign-bit rule of `setOverflow` gives exactly signed overflow of the reference difference |
| Alu.SbbOverflowMatches | src/cpu/alu.cpp:109-118 | for SBB the sign-bit rule of `setOverflow` gives exactly signed overflow of the reference difference with borrow |
| Banks.Bank.Erased | src/cpu/memory.cpp:76-78 | erasing keeps the extent and the kind and makes every byte 0 |
| Banks.Bank.CopyBlock | src/cpu/memory.cpp:94-100 | a block that fits lands at its offset, every other byte is kept; a block that does not fit changes nothing |
| Banks.NewBank | src/cpu/memory.cpp:9-22 | a bank reaching past 0xFFFF collapses to start = size = 0; otherwise it has the given extent and holds the image's first `size` bytes, or zeros when there is no image |
| Banks.FindForAddress | src/cpu/memory.cpp:138-148 | a found index names a bank that maps the address |
| Banks.FindForBlock | src/cpu/memory.cpp:150-160 | a found index names a bank the block fits |
| Banks.FindForAddressIsFirstMatch | src/cpu/memory.cpp:138-148 | the bank found is the first in list order that maps the address, and nothing is found exactly when no bank maps it |
| Banks.FindForBlockIsFirstMatch | src/cpu/memory.cpp:150-160 | the bank found is the first in list order the block fits, and nothing is found exactly when it fits none |
| Banks.DisjointFromAll | src/cpu/memory.cpp:162-169 | `disjointFromAll` answers true for every list and block, so it never reports an overlap |
| Banks.Write | src/cpu/memory.cpp:254-263 | a write changes only the byte of the first bank mapping the address, keeping every extent and kind |
| Banks.Erase | src/cpu/memory.cpp:171-175 | every bank of the list is erased and the list itself is kept |
| Banks.AddBlock | src/cpu/memory.cpp:177-190 | adding a block keeps the bank list well formed |
| Banks.AddBank | src/cpu/memory.cpp:192-217 | adding a bank keeps the bank list well formed |
| Banks.Initialize | src/cpu/memory.cpp:227-230 | initializing with a bank keeps the bank list well formed |
| Banks.ExactEndDoesNotFit | src/cpu/memory.cpp:102-108 | a block ending exactly at a bank's end does not fit it, so a bank never fits its own extent |
| Banks.UpperHalfBankCollapses | src/cpu/memory.cpp:11-14 | the bank for 0x8000 bytes at 0x8000 collapses to an empty bank that maps nothing |
| Banks.NewBankIntended | src/cpu/memory.cpp:9-22 | with the bound moved to 0x10000, a bank that ends below 0xFFFF is the same as the bank built as written, and one ending at 0x10000 maps every address from its start up to 0xFFFF |
| Banks.UpperHalfBankServes | src/cpu/memory.cpp:11-14 | the intended bank for 0x8000 bytes at 0x8000 maps exactly 0x8000 to 0xFFFF and holds zeros |
| Banks.RamRomPartitionMapped | src/cpu/memory.cpp:236-252 | an address is mapped exactly when it is in RAM or in ROM, and never in both |
| Banks.FindDependsOnExtentsOnly | src/cpu/memory.cpp:138-148 | two bank lists with the same extents resolve every address to the same bank |
| Banks.FindAfterAppend | src/cpu/memory.cpp:138-183 | a bank appended at the end serves only the addresses no earlier bank maps |
| Banks.AppendedBankShadowed | src/cpu/memory.cpp:265-274 | after an append, reads go to earlier banks first and to the new bank only where none of them maps the address |
| Banks.ReadAfterWrite | src/cpu/memory.cpp:254-274 | a byte written at a mapped address reads back there, every other address reads as before, and mapping and kinds are unchanged |
| Banks.EraseZeroes | src/cpu/memory.cpp:171-175 | after `erase` every mapped address reads 0, unmapped ones read 0xFF, and RAM and ROM are as before |
| Banks.ReadAfterCopy | src/cpu/memory.cpp:94-100 | copying a block into one bank changes exactly the reads of the block's addresses that bank serves |
| Banks.NewBankServes | src/cpu/memory.cpp:9-22 | a bank built from an image maps exactly its extent (when that stays below 0xFFFF) and reads the image's bytes there |
| Banks.ReadAfterAddFittingBlock | src/cpu/memory.cpp:177-181 | a block that fits a bank is copied into that bank's shared buffer and shows through wherever that bank serves the address |
| Banks.ReadAfterAddOtherBlock | src/cpu/memory.cpp:182-183 | a block that fits no bank becomes a new bank at the end, shadowed by every earlier bank |
| Banks.ReadAfterAddFittingBank | src/cpu/memory.cpp:192-211 | a bank that fits an existing one has its bytes copied there and shows through where that bank serves |
| Banks.ReadAfterAddOtherBank | src/cpu/memory.cpp:197-213 | a bank that fits none is appended and is shadowed by every earlier bank |
| Banks.AddEmptyReferenceIgnored | src/cpu/memory.cpp:204-207 | adding an empty bank by reference leaves the list unchanged |
| Banks.TestBanks | src/test/memory.cpp:14 | the test memory has two zeroed banks: 0x2000 bytes of RAM at 0 and 0x2000 bytes of ROM at 0x8000 |
| Banks.ProgramLoadsIntoRom | src/test/zzcontroller.cpp:65-66 | initializing the test memory with a three-byte program at 0x8000 puts the program's bytes there, in ROM, with zero after it |
| Banks.WholeBankImageIsShadowed | src/cpu/memory.cpp:106-183 | a block covering a whole bank does not fit it, so it is appended behind that bank and reads still give the old bytes |
| Banks.RisingReadsPointedByte | src/cpu/memory.cpp:284-295 | as the source of a transfer the memory reports ProtectedMemory exactly when the pointer is unmapped, leaving the bus untouched; otherwise the address bus gets 0 and the data bus the pointed byte |
| Banks.RisingInertUnlessSource | src/cpu/memory.cpp:284-295 | when memory is not the source of a transfer the rising edge changes nothing |
| Banks.HighWritesOnlyPointedRam | src/cpu/memory.cpp:297-304 | the high clock fails with ProtectedMemory exactly when a write targets a pointer outside RAM, changing nothing then, and otherwise changes at most the pointed RAM byte |
| Banks.WriteThenReadBack | src/cpu/memory.cpp:284-304 | a byte written to RAM over the bus is what the next bus read of that pointer puts on the data bus |
| Banks.PointerLoadsAsAddressRegister | src/cpu/memory.cpp:305-315 | addressed as MEMADDR the pointer loads `addr:data` over XADDR or the MSB-selected half over XDATA, as an address register does; with both lines asserted the address transfer wins |
| Banks.LoadPointerThenRead | src/cpu/memory.cpp:284-315 | loading the pointer over XADDR and then reading puts the byte at `addr:data` on the data bus |
| BankedMemory.MemoryBank.View | src/cpu/memory.cpp:9-10 | the bank's value has the object's extent and kind and is well formed |
| BankedMemory.MemoryBank.constructor | src/cpu/memory.cpp:9-22 | the new bank is NewBank of its arguments, with a fresh buffer |
| BankedMemory.MemoryBank.Copy | src/cpu/memory.cpp:24-29 | the copy has the same extent and kind and shares the other bank's buffer |
| BankedMemory.MemoryBank.Moved | src/cpu/memory.cpp:31-38 | the new bank takes over the buffer and extent, and the other bank is left with size 0 |
| BankedMemory.MemoryBank.Store | src/cpu/memory.cpp:60-66 | a write at a mapped address changes that one byte of the buffer |
| BankedMemory.MemoryBank.Erase | src/cpu/memory.cpp:76-78 | the bank becomes its erased value |
| BankedMemory.MemoryBank.CopyBlock | src/cpu/memory.cpp:94-100 | the bank becomes its value with the block copied in, when it fits |
| BankedMemory.MemoryBank.CopyBank | src/cpu/memory.cpp:80-88 | when the other bank fits, its bytes are copied in and it is emptied; otherwise neither changes |
| BankedMemory.Memory.Contents | src/cpu/memory.cpp:116-117 | the bank list as values, in list order, well formed |
| BankedMemory.Memory.constructor | src/cpu/memory.cpp:116-117 | a new memory has no banks, pointer 0, the MEMADDR id and the name "M" |
| BankedMemory.Memory.FindBankForAddress | src/cpu/memory.cpp:138-148 | the loop finds the first bank mapping the address, and reports not found exactly when FindForAddress does |
| BankedMemory.Memory.FindBankForBlock | src/cpu/memory.cpp:150-160 | the loop finds the first bank the block fits, and reports not found exactly when FindForBlock does |
| BankedMemory.Memory.Peek | src/cpu/memory.cpp:265-274 | a read returns the byte of the first bank mapping the address, or 0xFF |
| BankedMemory.Memory.Poke | src/cpu/memory.cpp:254-263 | a write changes the banks as Write does and keeps the bank list |
| BankedMemory.Memory.Erase | src/cpu/memory.cpp:171-175 | the loop erases every bank and keeps the list |
| BankedMemory.Memory.Append | src/cpu/memory.cpp:183 | the bank list gains the new bank at its end |
| BankedMemory.Memory.CopyBlockInto | src/cpu/memory.cpp:181 | bank k of the list becomes its value with the block copied in; the others are unchanged |
| BankedMemory.Memory.CopyBankInto | src/cpu/memory.cpp:196 | bank k receives the other bank's bytes when they fit, and the other bank is emptied then |
| BankedMemory.Memory.AddBlock | src/cpu/memory.cpp:177-190 | the banks afterwards are AddBlock of the banks before |
| BankedMemory.Memory.AddTemporary | src/cpu/memory.cpp:192-202 | the banks afterwards are AddBank of the banks before and the temporary bank |
| BankedMemory.Memory.AddBank | src/cpu/memory.cpp:204-217 | the banks afterwards are AddBank by reference of those before, and the caller's bank is left empty |
| BankedMemory.Memory.InitializeEmpty | src/cpu/memory.cpp:219-221 | the bank list becomes empty |
| BankedMemory.Memory.Initialize | src/cpu/memory.cpp:227-230 | every bank is erased and then the new bank is added, as Initialize states |
| BankedMemory.Memory.InitializeBlock | src/cpu/memory.cpp:223-225 | initializing with a block is initializing with the bank built from it |
| BankedMemory.Memory.AddRegion | src/cpu/memory.cpp:129-130 | adding a zero-filled temporary bank of the given extent and kind |
| BankedMemory.Memory.AddRegions | src/cpu/memory.cpp:129-130 | the RAM bank and then the ROM bank are added as zero-filled temporaries |
| BankedMemory.Memory.FromBank | src/cpu/memory.cpp:119-125 | a memory built from a bank is the empty memory initialized with it |
| BankedMemory.Memory.WithRegions | src/cpu/memory.cpp:127-136 | a memory with RAM and ROM regions holds those two banks, erased, and then the given bank added |
| BankedMemory.Memory.SetValue | src/cpu/addressregister.cpp:8-11 | the pointer becomes the word given; the banks are untouched |
| BankedMemory.Memory.Reset | src/cpu/addressregister.cpp:19-22 | the banked Memory's header is not part of this model and src/cpu/memory.cpp defines no reset, so the inherited AddressRegister reset is assumed: the pointer becomes 0, the banks stay, and the result is NoError |
| BankedMemory.Memory.ReadPointed | src/cpu/memory.cpp:248-274 | whether the pointer is mapped, and the byte read there |
| BankedMemory.Memory.OnRisingClockEdge | src/cpu/memory.cpp:284-295 | the bus and the error afterwards are the Rising transition of the banks, pointer and bus before, the byte read from the banks as they were |
| BankedMemory.Memory.WriteFromBus | src/cpu/memory.cpp:300-303 | the data byte is written at the pointer when it is in RAM, else ProtectedMemory with the banks unchanged |
| BankedMemory.Memory.LoadPointer | src/cpu/memory.cpp:305-315 | the pointer becomes LoadedPointer of the old pointer and the bus |
| BankedMemory.Memory.OnHighClock | src/cpu/memory.cpp:297-317 | banks, pointer and error afterwards are the High transition of those before |
| Banks.Zeros | src/cpu/memory.cpp:76-78 | n bytes, every one of them 0 |
| Banks.Overwrite | src/cpu/memory.cpp:94-100 | the data keeps its length, holds the block's bytes at the offset and its own bytes everywhere else |
| BankedMemory.Memory.OnlyBankChanged | src/cpu/memory.cpp:254-263 | when only one bank's bytes changed, the memory's contents differ from before in that bank's view alone |
| BankedMemory.Memory.InstallRegions | src/cpu/memory.cpp:127-131 | on a memory without banks, adding the RAM and ROM regions and then initializing with the bank leaves the banks Initialize gives for those two regions and the bank |
| BankedMemory.Memory.AddRegionsBeside | src/cpu/memory.cpp:129-130 | on a memory without banks the two regions are added as fresh zero-filled banks, and a bank allocated before stays out of the list |
| BankedMemory.Memory.StoreInBank | src/cpu/memory.cpp:258-259 | a write into a bank that maps the address changes that one byte of that bank and no other bank |
| BankedMemory.Memory.DriveByte | src/cpu/memory.cpp:291-292 | the address bus reads 0 and the data bus the given byte afterwards; no other line changes |
| CpuController.Instruction | src/cpu/controller.cpp:16-18 | the mnemonic of the entry for IR, or "hlt" when that entry belongs to another opcode |
| CpuController.FetchSteps | src/cpu/controller.cpp:37-79 | step 0 issues `xaddr(PC, MEMADDR, Inc)` and step 1 `xdata(MEM, IR, None)`, each moving to the next step without error |
| CpuController.ExecutableStepAdvances | src/cpu/controller.cpp:44-79 | an executable step puts its transfer on the bus with Done masked off, or asserts halt, and moves to the next step, or to step 0 when it carries Done |
| CpuController.DoneIsStripped | src/cpu/controller.cpp:51-54 | the opflags forwarded to the bus are the step's opflags with Mask applied, so never carry Done |
| CpuController.ExecutesProgrammedStep | src/cpu/controller.cpp:31-44 | step k >= 2 carries out entry k - 2 of the steps programmed for IR |
| CpuController.ErrorsLeaveStep | src/cpu/controller.cpp:56-76 | a step with no action fails with InvalidInstruction, an OTHER step without Halt or an unknown action with InvalidMicroCode; the bus is untouched and the counter is not advanced |
| CpuController.PastProgramIsInvalid | src/cpu/controller.cpp:31-76 | a step past the programmed ones is InvalidInstruction with bus and step unchanged |
| CpuController.CompletingStep | src/cpu/controller.cpp:44-79 | each programmed step of a completing instruction succeeds and moves the counter on by one, the last one back to 0 |
| CpuController.RemainingSteps | src/cpu/controller.cpp:35-82 | from any step of a completing instruction the remaining clocks succeed and bring the counter back to 0, and not before |
| CpuController.InstructionTakesStepsPlusTwo | src/cpu/controller.cpp:35-82 | an instruction with n programmed steps takes exactly n + 2 low clocks: the counter is 0 again after n + 2 of them and at no point before |
| CpuController.Controller.constructor | src/cpu/controller.cpp:10-14 | a new controller is register IR with value 0 and step 0 over the given table |
| CpuController.Controller.Reset | src/cpu/controller.cpp:25-29 | the IR value and the step both become 0, and the result is NoError |
| CpuController.Controller.OnRisingClockEdge | src/cpu/register.cpp:25-30 | the inherited register drive puts IR on the data bus when it is the source |
| CpuController.Controller.OnHighClock | src/cpu/register.cpp:32-37 | the inherited register latch loads IR from the data bus when it is the destination; the step is kept |
| CpuController.Controller.Issue | src/cpu/controller.cpp:49-61 | the bus afterwards carries the step's transfer with Done stripped, or the halt |
| CpuController.Controller.ExecuteStep | src/cpu/controller.cpp:44-77 | the bus, step and error afterwards are those Execute gives for the step |
| CpuController.Controller.OnLowClock | src/cpu/controller.cpp:35-82 | the bus, step and error afterwards are the low-clock transition Low of the table, IR, step and bus |
| CpuController.ClocksFirst | src/cpu/controller.cpp:35-82 | k clean low clocks are the first clock followed by the other k - 1 from where it left the counter and the bus |
| ControlLines.Copied | src/lines.cpp:24-35 | the copy agrees with the other lines in every field but `op`, which receives the other's `get` |
| ControlLines.CopyFaithfulIff | src/lines.cpp:24-35 | the copy equals the original exactly when its operator already equals its source id |
| ControlLines.CopyLosesOperator | src/lines.cpp:27 | copying the lines of a PC-to-MEMADDR transfer with Inc yields operator 8, not Inc |
| ControlLines.CopyIdempotent | src/lines.cpp:24-35 | copying a copy gives the copy again |
| ControlLines.CopiedIntended | src/lines.cpp:24-35 | the copy with `op` taken from the other's `op` equals the original, and agrees with the copy as written exactly when the operator equals the source id |
| ControlLines.TransfersExclusive | src/realsystem.cpp:184-198 | after `xdata` or `xaddr` exactly one transfer line is asserted, the ids and operator are stored, the two calls differ only in which line, and the bus bytes are untouched |
| ControlLines.ViewRoundTrip | src/realsystem.cpp:184-198 | the wires seen as a bus and written back are unchanged, and both agree on the transfer lines |
| ControlLines.ControlLines.constructor | src/lines.cpp:3-5 | a new set of lines is in the reset state |
| ControlLines.ControlLines.FromOther | src/lines.cpp:7-9 | the copy constructor leaves the copy of the other lines, `op` taken from `get` |
| ControlLines.ControlLines.Reset | src/lines.cpp:11-22 | ids and operator become 0, every active-low line true, rst false |
| ControlLines.ControlLines.Copy | src/lines.cpp:24-35 | the lines become the copy of the other's, even when the other is this object |
| ControlLines.ControlLines.Assign | src/lines.cpp:37-42 | self-assignment changes nothing; otherwise the lines become the copy of the other's |
| TwoRegionMemory.Memory.At | include/memory.h:45-63 | a read yields a byte exactly when the address is in RAM or ROM; otherwise it throws |
| TwoRegionMemory.Memory.Store | include/memory.h:45-63 | a write through the reference succeeds exactly at mapped addresses, reads back the stored byte there and leaves every other address as it was |
| TwoRegionMemory.Place | src/memory.cpp:19 | the first `n` bytes of the region become the image's bytes and the rest of the region is untouched |
| TwoRegionMemory.WrappedEndOverflowsRam | src/memory.cpp:13-17 | the constructor's word-sized end address wraps, so an image of 0xFFF8 bytes at 0x0010 passes the RAM test of a 0x8000-byte RAM, and the copy would run past it |
| TwoRegionMemory.IntendedPlacementFits | src/memory.cpp:13-17 | with the end address kept unwrapped, an image accepted for RAM or ROM is smaller than that region |
| TwoRegionMemory.Construct | src/memory.cpp:5-22 | with the end address wrapped to a word as the source computes it, construction is undefined exactly when the chosen region is smaller than the image; otherwise the memory keeps the given region bounds, sizes its regions to them and starts with pointer 0 |
| TwoRegionMemory.WrappedImageLoadsIntoRam | src/memory.cpp:13-19 | with RAM 0x0000/0xC000 and ROM 0xC000/0x4000, a 0x8800-byte image at 0x8000, whose end wraps to 0x0800, is copied into RAM where the intended test drops it |
| TwoRegionMemory.ConstructIntended | src/memory.cpp:13-19 | with the end address kept unwrapped, a region is changed only when the image fits it, and then it starts with the image's bytes |
| TwoRegionMemory.ConstructAgreesWithoutWrap | src/memory.cpp:13-19 | when the image's end address does not wrap, the constructor as written and the intended one build the same memory |
| TwoRegionMemory.ImageLandsAtRegionStart | src/memory.cpp:13-19 | an image the wrapped tests accept for RAM (or else ROM) is copied to the start of that region, not to its own address; an image neither accepts leaves the memory as allocated |
| TwoRegionMemory.RomReadsImage | src/memory.cpp:5-22 | an image placed at the start of ROM reads back byte by byte through the ROM addresses |
| TwoRegionMemory.Cleared | src/memory.cpp:34-38 | reset sets the pointer to 0, zeroes every RAM byte and keeps ROM |
| TwoRegionMemory.ResetKeepsRom | src/memory.cpp:34-38 | after reset every RAM address reads 0 and every ROM-only address reads what it read before |
| TwoRegionMemory.Rising | src/memory.cpp:40-48 | the rising edge changes at most the data bus |
| TwoRegionMemory.ReadDrivesPointedByte | src/memory.cpp:40-48 | with XDATA and MEM as source, the byte at the pointer is put on the data bus, and an unmapped pointer raises ProtectedMemory with the bus unchanged |
| TwoRegionMemory.High | src/memory.cpp:50-72 | the high clock keeps the regions well formed |
| TwoRegionMemory.WriteRam | src/memory.cpp:51-55 | a bus write keeps the regions well formed |
| TwoRegionMemory.WriteReadsBack | src/memory.cpp:51-55 | with XDATA and MEM as destination and the pointer in RAM, the data byte is stored at the pointer, no error is raised and every other address is unchanged |
| TwoRegionMemory.RomIsProtected | src/memory.cpp:51-55 | a write with the pointer outside RAM raises ProtectedMemory and changes nothing |
| TwoRegionMemory.PointerLoadsAsAddressRegister | src/memory.cpp:57-68 | with MEMADDR as destination the pointer is loaded exactly as a CPU address register loads itself |
| TwoRegionMemory.PointerHalvesExample | src/memory.cpp:59-68 | an XDATA transfer with operator 0 loads the low byte and with operator 8 the high byte, keeping the other half |
| TwoRegionMemory.TwoRegion.CopyInto | src/memory.cpp:19 | the array afterwards holds the image's first `n` bytes over its old contents |
| TwoRegionMemory.TwoRegion.constructor | src/memory.cpp:5-22 | where the copy stays inside its region, the new memory's state is the constructed memory, wrapped end-address test included, over freshly allocated regions |
| TwoRegionMemory.TwoRegion.ZeroRam | src/memory.cpp:36 | every RAM byte becomes 0 |
| TwoRegionMemory.TwoRegion.Reset | src/memory.cpp:34-38 | the new state is the reset of the old one and no error is raised |
| TwoRegionMemory.TwoRegion.Get | include/memory.h:45-63 | returns the mapped byte at the address, or nothing at an unmapped one |
| TwoRegionMemory.TwoRegion.Set | include/memory.h:45-63 | succeeds exactly at mapped addresses, storing the byte as Store does, and changes nothing otherwise |
| TwoRegionMemory.TwoRegion.SetAddress | include/memory.h:65-67 | the pointer becomes the given address |
| TwoRegionMemory.TwoRegion.GetAddress | include/memory.h:69-71 | returns the pointer |
| TwoRegionMemory.TwoRegion.OnRisingClockEdge | src/memory.cpp:40-48 | the returned bus and error are those of Rising on the current state |
| TwoRegionMemory.TwoRegion.WriteFromBus | src/memory.cpp:51-55 | the new state and error are those of WriteRam on the old state |
| TwoRegionMemory.TwoRegion.LoadPointer | src/memory.cpp:57-68 | the pointer becomes the one LoadedPointer computes from the old pointer and the bus |
| TwoRegionMemory.TwoRegion.OnHighClock | src/memory.cpp:50-72 | the new state and error are those of High on the old state |
| RealRegisters.Register.constructor | src/register.cpp:10-13 | the old register's constructor is not part of this model; a new register is assumed to hold 0, the value its reset gives, and to keep the id it was built with |
| RealRegisters.Register.Reset | src/register.cpp:10-13 | reset sets the value to 0 and raises no error |
| RealRegisters.Register.OnRisingClockEdge | src/register.cpp:15-20 | the wires afterwards are those the current CPU register's rising edge gives for the same lines: the value is driven onto the data bus only when XDATA is asserted and the register is the source |
| RealRegisters.Register.OnHighClock | src/register.cpp:22-27 | the value afterwards is the current CPU register's high-clock value for the same lines: the data bus is latched only when XDATA is asserted and the register is the destination |
| RealRegisters.AddressRegister.constructor | include/addressregister.h:19-21 | a new address register holds 0 and keeps its id and name |
| RealRegisters.AddressRegister.SetValue | include/addressregister.h:24 | the value becomes the given word |
| RealRegisters.AddressRegister.Reset | src/addressregister.cpp:10-13 | reset sets the value to 0 and raises no error |
| RealRegisters.AddressRegister.OnRisingClockEdge | src/addressregister.cpp:15-34 | the wires and the new value are exactly the current CPU address register's rising edge on the same lines: one half on XDATA as MSB selects, both halves and the increment or decrement on XADDR |
| RealRegisters.AddressRegister.OnHighClock | src/addressregister.cpp:36-49 | the new value is exactly the current CPU address register's high clock on the same lines: the half MSB selects on XDATA, address-bus high and data-bus low on XADDR |
| RealController.Find | src/controller.cpp:26-33 | the answer is the first entry before the zero sentinel whose instruction and step match IR and the counter, or none when no listed entry matches |
| RealController.FirstListedMatchUnique | src/controller.cpp:26-33 | the search has only one possible answer |
| RealController.FindMicroCode | src/controller.cpp:26-33 | the loop returns the first listed match, as Find specifies |
| RealController.Issued | src/controller.cpp:49-55 | an XDATA entry asserts only the data line and an XADDR entry only the address line, with the entry's source and target, the operator masked to its low nibble and the buses untouched |
| RealController.FetchSteps | src/controller.cpp:36-42 | step 0 moves PC to the memory pointer with Inc and step 1 moves memory to IR, whatever the table says |
| RealController.MissingEntryIsInvalidInstruction | src/controller.cpp:73-76 | from step 2 on, with no listed entry for IR and the counter, the clock fails with InvalidInstruction and changes neither the lines nor the counter |
| RealController.FoundEntryRuns | src/controller.cpp:43-49 | from step 2 on, the first listed match is the entry the clock runs |
| RealController.EntryEffect | src/controller.cpp:45-80 | an entry that succeeds moves the counter on, or to 0 when it carries a bit of OP_DONE; transfers drive the masked operator; the clock stops exactly for OTHER with OP_HALT; IO entries and other OTHER entries fail with InvalidMicroCode, leave the lines alone and leave the counter at 0xFF after OP_DONE |
| RealController.Controller.constructor | src/controller.cpp:10-14 | a new controller starts with IR 0, step 0 and the given microcode table |
| RealController.Controller.Reset | src/controller.cpp:21-24 | reset clears the step counter, keeps IR and raises no error |
| RealController.Controller.OnRisingClockEdge | src/register.cpp:15-20 | the controller drives IR onto the data bus as the register with id IR does |
| RealController.Controller.OnHighClock | src/register.cpp:22-27 | the controller latches IR as the register with id IR does and keeps its counter |
| RealController.Controller.ExecuteEntry | src/controller.cpp:45-72 | the lines, counter, error and stop it returns are those Execute gives for the entry |
| RealController.Controller.OnLowClock | src/controller.cpp:35-81 | the lines, new counter, error and stop are those the low-clock function gives for the table, IR and old counter, and IR is unchanged |
| Components.Cleared | src/cpu/register.cpp:20-23 | reset zeroes a unit's value or pointer, and its counter and IR for the controller, without changing what the unit is: its kind, id, banks, table and ALU link stay |
| Components.HighKeepsBanksValid | src/cpu/memory.cpp:297-317 | the memory's high clock leaves a well-formed bank list well formed |
| Components.MemHigh | src/cpu/memory.cpp:297-317 | the memory unit's high clock is the banked memory's High transition and leaves the bus lines alone |
| Components.React | include/harness.h:57-79 | a unit's reaction keeps what the unit is; reset clears it without error; the falling edge changes nothing; only the memory and the controller can fail |
| Components.AluHigh | src/cpu/alu.cpp:22-106 | the ALU's high clock updates only the ALU and its left-operand register, keeps every unit's kind and never fails |
| Components.Fire | include/harness.h:57-79 | offering a hook to one unit keeps every unit's kind; reset clears just that unit; the falling edge changes nothing; only a memory or controller can fail |
| Components.Dispatch | include/harness.h:57-79 | a round over the units from a position on keeps every unit's kind |
| Components.ForAllComponents | include/harness.h:57-79 | the loop over the units gives exactly the round Dispatch specifies: each unit in order, leaving at the first error |
| Components.FallingIsInert | include/harness.h:69-73 | a falling-edge round changes no unit and no line and never fails |
| Components.ClearedFrom | src/cpu/backplane.cpp:92-103 | the units from a position on are cleared and those before it are kept, in a list of the same length |
| Components.ResetClearsEveryUnit | src/cpu/backplane.cpp:92-103 | a reset round clears every unit from the position on, leaves the bus alone and never fails |
| Components.ErrorsComeFromMemoryOrController | include/harness.h:57-79 | a round fails only if a memory or a controller is among the units it visits |
| Components.RegisterTransfer | include/harness.h:81-95 | a transfer from A to B: the rising edge puts A's value on the data bus without error and the high clock copies it into B, leaving A unchanged |
| Components.RegistersIgnoreLow | include/component.h:56 | a low-clock round over registers changes no unit and no line and never fails |
| Clock.PassFromCallsInOrder | src/clock.cpp:29-42 | the callbacks from a position on are made in cycle order, at least one of them, all of them when none fails and fewer only after an error; a stop already requested stays requested |
| Clock.PassCallsInOrder | src/clock.cpp:29-42 | a pass calls the rising edge first and then high, falling and low in that order, up to the first failing callback: all four when none fails |
| Clock.CleanPass | src/clock.cpp:29-42 | a pass in which no callback fails runs the four callbacks one after the other and ends with the last state, no error and any stop one of them requested |
| Clock.FailingPassEndsRun | src/clock.cpp:29-43 | the error start returns is the first failing callback's, and the loop ends in the state that callback left |
| Clock.StopIsObservedAtNextTest | src/clock.cpp:29 | a stop requested during a pass ends the loop at the next test, with the clock stopped and that pass's state and error |
| Clock.RunComposes | src/clock.cpp:29-42 | while the loop has not ended, running a passes and then b more is running a + b passes |
| Clock.EndedIsFinal | src/clock.cpp:29 | once the loop has ended on an error or a stop, further passes change nothing |
| Clock.Clock.constructor | include/clock.h:18-25 | a new clock starts on the low half of the cycle and stopped |
| Clock.Clock.Stop | src/clock.cpp:46-48 | stop sets the state to Stopped and leaves the cycle alone |
| Clock.Clock.Call | src/clock.cpp:31-41 | one callback returns the hook's new state and error, and keeps a stop requested before or by it |
| Clock.Clock.Body | src/clock.cpp:30-41 | the loop body's state, error and stop are those of one pass |
| Clock.Clock.Start | src/clock.cpp:26-44 | start's state, error and final clock state are those of the loop run with the same bound on passes, and the cycle is Low |
| Backplane.Event | src/cpu/backplane.cpp:78-90 | a recorded error comes back at once with nothing dispatched, and in the IOClock phase no unit hears the hook |
| Backplane.ControllerIR | src/cpu/backplane.cpp:58-60 | there is an instruction register to read exactly when a controller is among the units, and the value read is a controller's IR |
| Backplane.RecordedErrorIsSticky | src/cpu/backplane.cpp:78-81 | a clock callback entered with a recorded error returns it, changes nothing but the phase at the low clock, never stops the clock, and reset returns it too |
| Backplane.IOClockIsQuiet | src/cpu/backplane.cpp:82-89 | in the IOClock phase no unit hears the hook; high and low clocks stop the clock exactly when the halt line is asserted, and the low clock returns to SystemClock |
| Backplane.PhaseAlternates | src/cpu/backplane.cpp:151 | only the low clock moves the phase, and it always flips it between SystemClock and IOClock |
| Backplane.HaltStopsTheClock | src/cpu/backplane.cpp:128-153 | the clock is stopped exactly by a high or low clock that ends without error with the halt line asserted |
| Backplane.WhichPhasesRecord | src/cpu/backplane.cpp:115-153 | the high and low clocks record their error; the rising and falling edges leave the record as it was |
| Backplane.FallingEdgeIsInert | src/cpu/backplane.cpp:138-142 | the falling edge changes nothing, stops nothing and returns the recorded error |
| Backplane.ReportErrorStopsOnError | src/cpu/backplane.cpp:69-76 | reportError returns the recorded error and stops the clock exactly when there is one |
| Backplane.ResetClearsEverything | src/cpu/backplane.cpp:92-103 | with no recorded error, reset resets the bus and every unit and answers NoError |
| Backplane.RunResetsAfterHalt | src/cpu/backplane.cpp:62-67 | run starts the clock from the reset state when IR holds the halt opcode, and from the current state otherwise |
| Backplane.BackPlane.constructor | src/cpu/backplane.cpp:28-29 | a new backplane holds the given units, no error, the SystemClock phase, the bus at power-on and a fresh stopped clock |
| Backplane.BackPlane.OnClockEvent | src/cpu/backplane.cpp:78-90 | the units, bus and error afterwards are the Event of the state before, and the recorded error and phase are kept |
| Backplane.BackPlane.Stop | src/cpu/backplane.cpp:74 | the clock is stopped and its cycle kept |
| Backplane.BackPlane.StopIf | src/cpu/backplane.cpp:132-134 | the clock is stopped when asked and otherwise keeps its state |
| Backplane.BackPlane.OnRisingClockEdge | src/cpu/backplane.cpp:115-125 | the state and error afterwards are the rising phase of the state before, and the clock is not stopped |
| Backplane.BackPlane.OnHighClock | src/cpu/backplane.cpp:128-136 | the state and error afterwards are the high phase of the state before, and the clock is stopped exactly when that phase says so |
| Backplane.BackPlane.OnFallingClockEdge | src/cpu/backplane.cpp:138-142 | the state and error afterwards are the falling phase of the state before |
| Backplane.BackPlane.OnLowClock | src/cpu/backplane.cpp:144-153 | the state and error afterwards are the low phase of the state before, phase flip included, and the clock is stopped exactly when that phase says so |
| Backplane.BackPlane.ReportError | src/cpu/backplane.cpp:69-76 | returns the recorded error and stops the clock exactly when there is one |
| Backplane.BackPlane.Reset | src/cpu/backplane.cpp:92-103 | the state and answer afterwards are those reset gives for the state before |
| Backplane.BackPlane.Run | src/cpu/backplane.cpp:62-67 | the state, error and clock state afterwards are those of run: reset after a halt, then the clock's loop over the backplane's callbacks |
| Harness.CycleIsOnePass | include/harness.h:81-95 | a harness cycle is one pass of the clock's loop body over the four phase hooks: the phases are called in cycle order, all four without error, and none after a failing one; a harness never stops a clock |
| Harness.RepeatComposes | include/harness.h:34-43 | running m cycles without error and then n more is running m + n cycles |
| Harness.RepeatOneMore | include/harness.h:34-43 | one more cycle after n error-free ones is that cycle applied to where they left the bench |
| Harness.LoopCountsCompletedCycles | include/harness.h:21-31 | the count returned is the number of cycles completed without error: with no error they leave the bench as returned, and otherwise the next cycle fails with the error returned |
| Harness.LoopDidNotStopEarlier | include/harness.h:28 | every cycle before the last left the do-while test true: halt not asserted and the limit not reached |
| Harness.LoopEndsOnHaltOrLimit | include/harness.h:28 | an error-free run ends because halt is asserted, the limit is reached, or the bound on cycles is spent |
| Harness.LoopRespectsLimit | include/harness.h:28 | a limit other than -1 bounds the count, and a limit below 1 still allows the first cycle |
| Harness.FuelBeyondLimitIsIrrelevant | include/harness.h:28 | once the bound on cycles covers the limit, a larger bound gives the same run |
| Harness.RunCountsCycles | include/harness.h:16-32 | run executes at least one cycle; the count is the number completed without error; an error-free run stops after the first cycle that leaves halt asserted or reaches the limit; every earlier cycle kept the test true; a limit other than -1 bounds the count |
| Harness.FailingFirstCycleCountsZero | include/harness.h:22-26 | when the first cycle fails, run returns 0 with that cycle's error |
| Harness.TransferCycle | include/harness.h:97-101 | a cycle from wires asking for a GP_A to GP_B data transfer copies A into B, leaves A alone, leaves A's byte on the data bus and raises no error |
| Harness.Harness.constructor | include/harness.h:10-14 | a new harness holds the given units, no error and the bus at power-on |
| Harness.Harness.Round | include/harness.h:57-79 | the bench and error afterwards are one hook round over every unit, and the recorded error is kept |
| Harness.Harness.Cycle | include/harness.h:81-95 | the bench and error afterwards are those of one cycle, and the recorded error is kept |
| Harness.Harness.Run | include/harness.h:16-32 | the bench, recorded error and count afterwards are those of run with the same limit and bound on cycles |
| Harness.Harness.Cycles | include/harness.h:34-43 | the bench and error afterwards are those of count cycles ending at the first error, none for a count below 1 |
| Harness.Harness.CycleFrom | include/harness.h:97-101 | the bench and error afterwards are those of one cycle from the bus initialised with the given lines |
| Harness.RepeatFirst | include/harness.h:34-43 | n cycles are the first cycle if it fails, and otherwise the other n - 1 from where it left the bench |
| RealSystem.MovAAddrEntries | src/realsystem.cpp:60-70 | the step-6 and step-7 entries of opcode 0x02 are the first entries the scan finds for those steps, in this list and in any list that differs from it only in entry 7 |
| RealSystem.AddressLoadsStopAtStepSix | src/realsystem.cpp:65-112 | the step-6 entries of opcodes 0x02, 0x07, 0x0C and 0x11 carry OP_DONE, so the counter returns to 0 and the step-7 entries that read the addressed byte into A, B, C and D are never reached; for 0x02 the controller's low clock on step 6 ends the instruction |
| RealSystem.AddressLoadsReachStepSeven | src/realsystem.cpp:65-112 | with OP_DONE removed from those four step-6 entries, each goes on to step 7, and each step-7 entry reads the addressed byte into its own register |
| RealSystem.MovAAddrRunsIntended | src/realsystem.cpp:69-70 | with the intended list, opcode 0x02's low clock on step 6 moves to step 7, and step 7 drives memory onto the data bus into GP_A and returns the counter to 0 |
| RealSystem.MovCConstLoadsB | src/realsystem.cpp:90-91 | the entries of opcode 0x0B, named MOV_C_CONST, load GP_B rather than GP_C |
| RealSystem.MovCConstLoadsC | src/realsystem.cpp:90-91 | in the intended list MOV_C_CONST has the two entries of MOV_A_CONST, with the constant read into GP_C |
| RealSystem.Cleared | src/realsystem.cpp:209-220 | a part's reset keeps what it is and where it sits: registers become 0, the controller's step 0, the memory its reset |
| RealSystem.React | src/realsystem.cpp:230-287 | a part's reaction keeps what it is; only the low clock touches the control lines or stops the system; reset is Cleared without error; only the memory or the controller fails |
| RealSystem.Dispatch | src/realsystem.cpp:235-246 | a round over the slots keeps the vector's length and every part's kind |
| RealSystem.ComponentByID | src/realsystem.cpp:152-154 | componentByID answers exactly for ids whose slot is in the vector, with the part in that slot: id 7 is slot 15, every other id its own slot |
| RealSystem.QuietUnlessAddressed | src/realsystem.cpp:230-261 | on the rising edge and the high clock a part that componentByID does not name for the addressed id does nothing |
| RealSystem.DispatchSkips | src/realsystem.cpp:235-246 | a part that does not react leaves the round as the round of the slots after it |
| RealSystem.DispatchEndsAt | src/realsystem.cpp:235-246 | when no part after a slot reacts, the round is that slot alone |
| RealSystem.ReactKeepsFit | src/realsystem.cpp:152-154 | a part keeps the slot componentByID finds it in through any hook |
| RealSystem.SingleKeepsWired | src/realsystem.cpp:133-154 | replacing one slot's part by its reaction keeps every part where componentByID finds it |
| RealSystem.OnlyAddressedReacts | src/realsystem.cpp:230-261 | with every part in its slot, the rising edge and the high clock reach only the part componentByID names for the transfer's source or destination |
| RealSystem.QuietUnlessController | src/realsystem.cpp:276-287 | on the low clock every part but the controller does nothing |
| RealSystem.OnlyControllerLow | src/realsystem.cpp:276-287 | with every part in its slot, the low-clock round is the controller's reaction alone |
| RealSystem.FallingChangesNothing | src/realsystem.cpp:263-274 | the falling-edge round changes no part and no wire and never fails |
| RealSystem.ClearedFrom | src/realsystem.cpp:213-218 | the parts from a slot on are cleared and those before it kept, in a vector of the same length |
| RealSystem.ResetClearsEveryPart | src/realsystem.cpp:213-218 | resetting the parts from a slot on never fails and clears each of them |
| RealSystem.RecordedErrorIsSticky | src/realsystem.cpp:230-233 | a phase entered with a recorded error returns it, changes nothing and does not stop the clock |
| RealSystem.FailureIsRecordedAndStops | src/realsystem.cpp:200-207 | a phase records the error it returns, a failing phase stops the clock, and only a memory or controller can make it fail |
| RealSystem.ErrorsComeFromMemoryOrController | src/realsystem.cpp:235-246 | a round fails only if a memory or controller is among the slots it visits |
| RealSystem.ResetClearsEverything | src/realsystem.cpp:209-220 | reset with no recorded error leaves the wires alone, clears every part and answers NoError |
| RealSystem.Layout | src/realsystem.cpp:133-150 | the constructor's vector has sixteen slots, each part where componentByID finds it |
| RealSystem.Loaded | src/realsystem.cpp:123-126 | the constructor's memory starts with its pointer at 0 and holds 01 42 FF at addresses 0 to 2 |
| RealSystem.RisingReachesSource | src/realsystem.cpp:230-248 | the rising edge of a clean machine is the reaction of the slot componentByID names for the source |
| RealSystem.HighReachesDestination | src/realsystem.cpp:250-261 | the high clock of a clean machine is the reaction of the slot componentByID names for the destination |
| RealSystem.FallingIsQuiet | src/realsystem.cpp:263-274 | the falling edge of a clean machine changes nothing |
| RealSystem.LowReachesController | src/realsystem.cpp:276-287 | the low clock of a clean machine is the controller's reaction |
| RealSystem.CycleSteps | src/clock.cpp:29-42 | a clean cycle whose phases reach the named parts without error is one full pass ending in their combined state |
| RealSystem.Groups | src/realsystem.cpp:62-116 | each register's group holds eleven entries, all of opcodes in its range and at step 2 or later |
| RealSystem.TableBeforeHalt | src/realsystem.cpp:59-121 | the list has 47 entries: HLT at 45, the zero sentinel at 46, and before HLT only opcodes up to 0x14 at step 2 or later |
| RealSystem.SampleEntries | src/realsystem.cpp:62-118 | the search finds opcode 0x01's steps 2 and 3 at entries 1 and 2 and HLT at entry 45 |
| RealSystem.LayoutSetsA | src/realsystem.cpp:134 | slot 0 holds A, and replacing it gives the layout with A's new value |
| RealSystem.LayoutSetsController | src/realsystem.cpp:140 | slot 6 holds the controller, and replacing it gives the layout with the controller's new state |
| RealSystem.LayoutSetsPc | src/realsystem.cpp:142 | slot 8 holds PC, and replacing it gives the layout with PC's new value |
| RealSystem.LayoutSetsMemory | src/realsystem.cpp:149 | slot 15 holds the memory, and replacing it gives the layout with the memory's new state |
| RealSystem.PcDrivesAndSteps | src/addressregister.cpp:23-30 | as the source of an incrementing address transfer, PC drives its low byte on the data bus and its high byte on the address bus, then steps by one |
| RealSystem.PointerLoads | src/memory.cpp:57-58 | as the destination of an address transfer the memory loads its pointer from the address bus (high) and data bus (low) |
| RealSystem.MemoryDrives | src/memory.cpp:40-48 | as the source of a data transfer the memory drives the byte at its pointer |
| RealSystem.RegisterLatches | src/register.cpp:22-27 | as the destination of a data transfer a register, or IR in the controller, latches the data bus |
| RealSystem.ControllerSteps | src/controller.cpp:35-81 | on the low clock the controller's part runs the controller's low clock for its IR and counter |
| RealSystem.Cycle1 | src/controller.cpp:37-39 | the first cycle leaves the lines asking for PC into the memory pointer with Inc, and the counter at 1 |
| RealSystem.Cycle2 | src/controller.cpp:40-42 | the second cycle loads the pointer with 0, steps PC to 1 and asks for memory into IR |
| RealSystem.Cycle3 | src/realsystem.cpp:62 | the third cycle loads opcode 0x01 into IR and runs its step-2 entry, asking for the next address |
| RealSystem.Cycle4 | src/realsystem.cpp:63 | the fourth cycle points memory at 1, steps PC to 2 and runs the step-3 entry, which asks for memory into A and ends the instruction |
| RealSystem.Cycle5 | src/realsystem.cpp:63 | the fifth cycle loads 0x42 into A and starts the next fetch |
| RealSystem.Cycle6 | src/controller.cpp:40-42 | the sixth cycle points memory at 2, steps PC to 3 and asks for the opcode |
| RealSystem.Cycle7 | src/realsystem.cpp:118 | the seventh cycle loads 0xFF into IR and its HLT entry stops the clock |
| RealSystem.SampleProgramHalts | src/realsystem.cpp:123-157 | from the constructed state the program MOV_A_CONST 0x42, HLT is still running after six cycles and stops after exactly seven, with no error, A = 0x42, IR = 0xFF and PC = 3 |
| RealSystem.InitialHoldsSample | src/realsystem.cpp:133-150 | the constructed machine holds the sample program and is the state of the first cycle |
| RealSystem.RealSystem.constructor | src/realsystem.cpp:133-150 | a new system is in the initial state, with a fresh stopped clock |
| RealSystem.RealSystem.ComponentById | src/realsystem.cpp:152-154 | answers as ComponentByID on the current vector |
| RealSystem.RealSystem.Xdata | src/realsystem.cpp:184-190 | only the control lines change, to a data transfer from the source to the destination with the operator |
| RealSystem.RealSystem.Xaddr | src/realsystem.cpp:192-198 | only the control lines change, to an address transfer from the source to the destination with the operator |
| RealSystem.RealSystem.ReportError | src/realsystem.cpp:200-207 | returns the recorded error and stops the clock exactly when there is one |
| RealSystem.RealSystem.Reset | src/realsystem.cpp:209-220 | the state and answer afterwards are those ResetAll gives |
| RealSystem.RealSystem.OnClock | src/realsystem.cpp:230-287 | the state and error afterwards are those of one phase, and the clock is stopped exactly when that phase says so |
| RealSystem.RealSystem.Run | src/realsystem.cpp:156-158 | the state, error and clock state afterwards are those of the clock's loop over the four phases with the same bound on cycles |
| RealSystem.AddressedFires | src/realsystem.cpp:241-246 | on the rising edge or high clock, the round from the addressed slot on is that slot's reaction alone |
| RealSystem.NothingAddressedAfter | src/realsystem.cpp:241-246 | on the rising edge or high clock, a round starting past the addressed slot changes nothing and never fails |
| RealSystem.DispatchIsBy | src/realsystem.cpp:241-246 | the round over the slots is the generic round run with the parts' reaction to the hook |
| RealSystem.OfferBy | src/realsystem.cpp:241-246 | the loop over the components, stopping at the first error, gives the generic round from slot 0 for any reaction |
| RealSystem.OfferToAll | src/realsystem.cpp:241-246 | offering a hook to every component in slot order gives the round Dispatch defines from slot 0 |
| AsmText.WordLen | asm/asm.py:203 | the first run of non-space characters is as long as the answer: none of them is whitespace, the character after it is, and a line starting with a non-space character has a run of at least one |
| AsmText.WordsAreWords | asm/asm.py:203 | every word `str.split()` returns is non-empty and holds no whitespace |
| AsmText.ConsWord | asm/asm.py:203 | a non-space character in front of a line either is a word of its own or joins the line's first word |
| AsmText.SpaceCons | asm/asm.py:203 | a whitespace character in front of a line leaves its words unchanged |
| AsmText.SpaceSnoc | asm/asm.py:203 | a whitespace character after a line leaves its words unchanged |
| AsmText.StripLeft | asm/asm.py:197 | `lstrip` returns no longer a line that does not start with whitespace and has the same words |
| AsmText.StripRight | asm/asm.py:197 | `rstrip` returns no longer a line that does not end with whitespace and has the same words |
| AsmText.ReplaceTabs | asm/asm.py:197 | replacing tabs keeps the length and changes exactly the tab characters, each into a space |
| AsmText.SameSpacing | asm/asm.py:197 | two lines with whitespace at the same places and the same other characters have the same words |
| AsmText.ReplaceDouble | asm/asm.py:194 | one replacement pass never lengthens the line, changes it only by shortening it, keeps its first character and empties only the empty line |
| AsmText.ReplaceDoubleKeepsWords | asm/asm.py:194 | one replacement pass keeps the line's words |
| AsmText.UnchangedHasNoDoubleSpace | asm/asm.py:195 | a pass that changes nothing found no pair of spaces |
| AsmText.MergeSpaces | asm/asm.py:193-195 | `_merge_spaces` leaves no pair of spaces |
| AsmText.MergeSpacesKeepsWords | asm/asm.py:193-195 | `_merge_spaces` keeps the line's words |
| AsmText.Clean | asm/asm.py:192-197 | the cleaned line has no pair of spaces |
| AsmText.CleanSplitIsWords | asm/asm.py:187-203 | `_split` returns exactly the whitespace-separated words of the line, whatever its cleaning does |
| AsmText.SplitLine | asm/asm.py:206-225 | the loop returns the tokens the recursive definition of `split` gives |
| AsmText.ScanPastPlain | asm/asm.py:210-224 | outside quotes a stretch with no quote, backslash or `;` is read past |
| AsmText.ScanPastQuoted | asm/asm.py:219-224 | inside a quote a stretch without its closing character is read past |
| AsmText.PlainLineIsWords | asm/asm.py:206-225 | a line without quotes, backslashes or `;` is split on whitespace |
| AsmText.CommentIsDropped | asm/asm.py:217-218 | a `;` outside quotes ends the line: the tokens are the words before it |
| AsmText.QuotedStringIsOneToken | asm/asm.py:219-223 | a string in matching single or double quotes is one token, quotes included; the text before it is split into words and the text after it split again |
| AsmText.UnclosedQuoteIsSplitOnSpaces | asm/asm.py:225 | a quote never closed raises nothing: the whole line, quote included, is split on whitespace |
| AsmText.BackquoteSwallowsTheLine | asm/asm.py:212-214 | a backquote opens a quote nothing closes, so the rest of the line, `;` included, is split on whitespace |
| AsmText.BackslashEscapesOneCharacter | asm/asm.py:215-216 | outside quotes a backslash keeps the next character from opening a quote or a comment; both stay in the word |
| EscapeSplit.Around | asm/split/__init__.py:46-49 | the tokens around a quoted token succeed exactly when both sides do, as left side, token, right side; the left side's error is raised first |
| EscapeSplit.SplitLine | asm/split/__init__.py:20-57 | the loop, rewriting its own copy of the line, returns what the recursive definition of `split` gives |
| EscapeSplit.Unescape | asm/split/__init__.py:34-53 | unescaping never lengthens the quoted text |
| EscapeSplit.UnescapeWithoutBackslash | asm/split/__init__.py:34-53 | quoted text without backslashes is left as it is |
| EscapeSplit.ScanPastPlain | asm/split/__init__.py:24-54 | outside quotes a stretch with no quote, backslash or `;` is read past |
| EscapeSplit.QuotedEscape | asm/split/__init__.py:34-53 | inside a quote a backslash is removed and the character after it becomes its translation: n, t and b a newline, tab and backspace, anything else itself |
| EscapeSplit.QuotedPlain | asm/split/__init__.py:44-54 | inside a quote a character other than the quote and backslash is read past |
| EscapeSplit.UnescapePair | asm/split/__init__.py:34-43 | unescaping a leading backslash pair yields its translation followed by the rest unescaped |
| EscapeSplit.UnescapeSingle | asm/split/__init__.py:44-54 | unescaping a leading ordinary character keeps it, followed by the rest unescaped |
| EscapeSplit.ReadQuoted | asm/split/__init__.py:34-54 | reading well-escaped text inside a quote rewrites it in the line to its unescaped form and leaves the scan just after it, still in the quote |
| EscapeSplit.OpenQuote | asm/split/__init__.py:26-29 | on a line whose text before the quote has no special character, the scan reaches the quote and opens it there |
| EscapeSplit.PlainLineIsWords | asm/split/__init__.py:20-57 | a line without quotes, backslashes or `;` is split on whitespace, without error |
| EscapeSplit.CommentIsDropped | asm/split/__init__.py:32-33 | a `;` outside quotes ends the line: the tokens are the words before it |
| EscapeSplit.CloseQuote | asm/split/__init__.py:45-49 | the closing quote ends the token at the opening quote, and the text on both sides is split again |
| EscapeSplit.QuotedStringIsOneToken | asm/split/__init__.py:44-49 | a quoted string is one token running from its opening to its closing quote with its escapes translated; the text before it is split into words and the text after it split again |
| EscapeSplit.UnclosedQuoteIsAnError | asm/split/__init__.py:55-56 | a quote still open at the end of the line raises the mismatched-quote error, also when its closing quote was escaped |
| EscapeSplit.TrailingEscapeIsNoError | asm/split/__init__.py:50-57 | a backslash as the last character inside a quote is removed without error, the quote left open, and the rewritten line split on whitespace |
| EscapeSplit.EscapeAtEnd | asm/split/__init__.py:50-57 | a backslash at the very end inside a quote is removed and the state it pushes is not a quote, so no error is raised |
| EscapeSplit.BackslashEscapesOneCharacter | asm/split/__init__.py:30-31 | outside quotes a backslash keeps the next character from opening a quote or a comment |
| EscapeSplit.InBackquote | asm/split/__init__.py:26-29 | after a backquote nothing closes and nothing acts: the rest of the line is split on whitespace unchanged |
| EscapeSplit.BackquoteSwallowsTheLine | asm/split/__init__.py:26-29 | a line with a backquote after plain text is split on whitespace, backquote and `;` included |
| EscapeSplit.DbWords | asm/split/__init__.py:20-57 | the text `db ` is plain and splits to `db`, and the empty line splits to no tokens |
| EscapeSplit.SelfTestNewline | asm/split/__init__.py:84 | `db '\n'` splits to `db` and a quoted newline |
| EscapeSplit.SelfTestPlainEscape | asm/split/__init__.py:85 | `db '\d'` splits to `db` and `'d'` |
| EscapeSplit.SelfTestBackslash | asm/split/__init__.py:86 | `db '\\'` splits to `db` and a quoted single backslash |
| EscapeSplit.SelfTestMismatched | asm/split/__init__.py:87-88 | `db 'jan` and `db '\'` raise the mismatched-quote error |
| EscapeSplit.ScanAgrees | asm/split/__init__.py:20-57 | on a line without backslashes, wherever this scan succeeds it yields the tokens of the assembler's own `split` |
| EscapeSplit.ESplitAgrees | asm/asm.py:206-225 | on a line without backslashes, wherever this `split` succeeds it returns the same tokens as the assembler's `split` |
| EscapeSplit.QuotedLine | asm/split/__init__.py:44-49 | a line with one quoted string regroups around the quote, and the closing quote sits right after the rewritten text |
| AsmBytes.FirstUtf8Byte | asm/asm.py:239 | the first byte of a character's UTF-8 encoding is a byte, and for ASCII it is the character's code |
| AsmBytes.Classify | asm/asm.py:238-252 | a parsed operand is read in base 0, 2, 10 or 16, and an operand is split into words exactly when the count is 0 and no literal form matches |
| AsmBytes.Encode | asm/asm.py:253-259 | a value becomes one byte reduced modulo 256, or two when the count is 2, low byte first, whose little-endian reading is the value |
| AsmBytes.Texts | asm/asm.py:249 | each word of the split operand becomes one text operand, in order |
| AsmBytes.ToBytes | asm/asm.py:228-266 | a result for a positive count has exactly count bytes; a failure is the first operand's exception or the count mismatch of line 264 |
| AsmBytes.ToBytesLoop | asm/asm.py:228-266 | the loop returns what ToBytes gives for the same operands |
| AsmBytes.EachOperandAddsCount | asm/asm.py:253-259 | with a count of 1 or 2 each operand adds exactly that many bytes |
| AsmBytes.OneOperandOnly | asm/asm.py:263-264 | with a count of 1 or 2 `to_bytes` succeeds only on exactly one operand; more raise the count mismatch |
| AsmBytes.WordIsLittleEndian | asm/asm.py:256-259 | a `dw` integer becomes its value modulo 256 then its value divided by 256, which read back as the integer, for any integer |
| AsmBytes.WordRoundTrip | asm/asm.py:256-259 | two bytes read as a little-endian word and converted with `dw` give the same two bytes |
| AsmBytes.ByteIsReduced | asm/asm.py:256-257 | a `db` integer becomes its value modulo 256 |
| AsmBytes.CharacterLiteral | asm/asm.py:238-239 | a quoted character operand stands for the first byte of its UTF-8 encoding |
| AsmBytes.DollarHex | asm/asm.py:244-245 | `$` and an even number of digits is read in base 16, and with an odd number of digits the operand raises an invalid byte value |
| AsmBytes.NoValue | asm/asm.py:231-261 | None and a bytes object raise the cannot-convert error and the empty string raises on its first character |
| AsmBytes.SpreadTakesOneWord | asm/asm.py:248-250 | an operand split into words succeeds only when it holds exactly one word |
| AsmBytes.HexChar | asm/asm.py:276 | the hexadecimal character of a digit below 16 reads back as that digit |
| AsmBytes.HexDigits | asm/asm.py:276 | a number prints as at least one hexadecimal digit |
| AsmBytes.HexDigitsRoundTrip | asm/asm.py:276 | the hexadecimal digits of a number read back as the number |
| AsmBytes.HexDigitsFit | asm/asm.py:276-279 | a number below 16 to the k prints as at most k digits |
| AsmBytes.Zeros | asm/asm.py:276-279 | k padding characters, all of them zeros |
| AsmBytes.LeadingZeros | asm/asm.py:276-279 | leading zeros do not change the number the digits read as |
| AsmBytes.ZeroFill | asm/asm.py:276-279 | padding gives the width when the digits are shorter, and the digits' own length otherwise |
| AsmBytes.ByteFormat | asm/asm.py:276 | a byte prints as exactly two hexadecimal digits that read back as the byte |
| AsmBytes.AddressFormat | asm/asm.py:279 | an address prints as exactly four hexadecimal digits that read back as the address |
| AsmBytes.LinesCount | asm/asm.py:273-283 | there is one line per started group of eight bytes |
| AsmBytes.LineAt | asm/asm.py:273-283 | line i prints bytes 8i up to 8i + 8 at the address plus 8i |
| AsmBytes.LinesShape | asm/asm.py:273-283 | there is one line per started group of eight bytes, and line i prints bytes 8i up to 8i + 8 at the address plus 8i |
| AsmBytes.LinesStep | asm/asm.py:273-283 | the lines are the first eight bytes' line followed by the lines of the rest, the address advanced by eight |
| AsmBytes.BytesToStrLoop | asm/asm.py:269-284 | the loop returns the lines of the recursive definition joined by newlines |
| AsmBytes.CountBy | asm/asm.py:273-283 | printing eight bytes at a time with any line printer gives one line per started group of eight |
| AsmBytes.LineByAt | asm/asm.py:273-283 | with any line printer, line i prints bytes 8i up to 8i + 8 at the address plus 8i |
| AsmBytes.SliceOfTail | asm/asm.py:283 | group i - 1 of the bytes after the first eight is group i of all of them |
| AsmBytes.LinesByStep | asm/asm.py:273-283 | with any line printer the lines are the first group's line followed by the lines of the rest, the address advanced by eight |
| AsmBytes.LinesLoop | asm/asm.py:273-283 | the while loop collects, for any line printer, the lines of the recursive definition |
| AsmBytes.OperandBytes | asm/asm.py:236-261 | one operand yields the bytes DatumBytes gives for it, a spread string going through to_bytes with count 1 |
| AsmImage.Utf8Char | asm/asm.py:679 | a character's UTF-8 encoding has one to four bytes, starts with its first byte, and is its code alone for ASCII |
| AsmImage.Utf8 | asm/asm.py:679 | a string's UTF-8 encoding has at least as many bytes as the string has characters |
| AsmImage.AsciiIsItsCodes | asm/asm.py:678-679 | an ASCII string is appended as its character codes, one byte each |
| AsmImage.Appended | asm/asm.py:674-692 | appending only adds bytes after those already written, advances the address by as many, keeps the start address and only adds recorded errors |
| AsmImage.AppendedOne | asm/asm.py:675-692 | appending one item only adds bytes after those already written, advances the address by as many, keeps the start address and only adds recorded errors |
| AsmImage.AsWrittenAgrees | asm/asm.py:674-692 | without an integer from -128 to -1 among the items, `append` as written and the intended append give the same image and raise nothing |
| AsmImage.AsWrittenAgreesOne | asm/asm.py:675-692 | without an integer from -128 to -1 in an item, the two appends agree on that item |
| AsmImage.NegativeByteRaises | asm/asm.py:686-688 | appending -1 as written raises and leaves the image as it was, where the intended append stores 0xff |
| AsmImage.AppendInt | asm/asm.py:685-690 | an integer from -128 to 255 adds one byte, its value modulo 256; any other adds nothing and records an out-of-range error |
| AsmImage.AppendedConcat | asm/asm.py:674-675 | appending a and then b is appending a + b |
| AsmImage.AppendedAsWrittenConcat | asm/asm.py:674-675 | as written, appending a and then, unless that raised, b is appending a + b |
| AsmImage.Ints | asm/asm.py:684 | the byte values as integer items, one per value, in order |
| AsmImage.ExtendTwice | asm/asm.py:680-682 | extending by a and then b is extending by a + b |
| AsmImage.AppendBytes | asm/asm.py:684-688 | appending byte values adds exactly those bytes and advances the address by their number |
| AsmImage.AppendBytesAsWritten | asm/asm.py:684-688 | byte values from 0 to 255 append as written without raising, adding exactly those bytes |
| AsmImage.Zeros | asm/asm.py:671-672 | the padding is k zero bytes |
| AsmImage.Image.constructor | asm/asm.py:613-624 | a new image is empty, at address 0, with no start address (-1), no errors and no labels |
| AsmImage.Image.AddLabel | asm/asm.py:626-629 | the label is registered under its name and nothing else changes |
| AsmImage.Image.Append | asm/asm.py:674-692 | the image and the exception afterwards are those of `append` as written: a byte from -128 to -1 raises and the items after it are not appended; the labels are kept, and so is the invariant that the address is the number of bytes written |
| AsmImage.Image.AppendOne | asm/asm.py:675-692 | the image and the exception afterwards are those of `append` as written for one item, a negative byte raising; the labels are kept, and so is the invariant that the address is the number of bytes written |
| AsmImage.Image.SetAddress | asm/asm.py:666-672 | an address below the current one raises the overlap and changes nothing; otherwise zero bytes fill the image up to the address, the address becomes it, and the first call fixes the start address; the address stays the number of bytes written |
| AsmImage.SetAddressKeepsValid | asm/asm.py:671-672 | after the padding the address equals the number of bytes written |
| AsmImage.MakeLabel | asm/asm.py:552-558 | a label is made exactly when its name is not reserved, and a reserved name raises naming it |
| AsmImage.Segment.constructor | asm/asm.py:583-587 | a new segment starts at its start address with no entries |
| AsmImage.Segment.Add | asm/asm.py:595-597 | the entry is added at the end of the segment |
| AsmImage.Segment.CurrentAddress | asm/asm.py:599-600 | the current address is the start plus the sizes of every entry added |
| AsmImage.SizesConcat | asm/asm.py:597 | the size of a run of entries is the sum of the sizes of its parts |
| AsmImage.SplitCommas | asm/asm.py:345 | splitting at commas gives at least one piece and no piece holds a comma |
| AsmImage.FirstComma | asm/asm.py:345 | the position found holds a comma and no comma comes before it |
| AsmImage.SplitCommasJoins | asm/asm.py:345-349 | joining the pieces with commas gives the text back |
| AsmImage.StripAll | asm/asm.py:345 | each piece is stripped, in order |
| AsmImage.BaseFields | asm/asm.py:340-349 | an instruction starts with one byte, no constants and no label; without arguments its canonical form is the mnemonic, and with them there is one argument per comma-separated piece |
| AsmImage.JumpFields | asm/asm.py:452-466 | a jump is built exactly when there is one non-empty argument, raising the invalid-arguments or no-address error otherwise, and takes its size, constants and label from that operand |
| AsmImage.Widened | asm/asm.py:492-495 | a numeric operand becomes three bytes whose two constants read back, low byte first, as its value; any other operand is kept |
| AsmImage.Sized | asm/asm.py:484-495 | a numeric source moved to a one-letter register with `#` becomes two bytes, its low byte as constant and `#%02x` as canonical form; any other numeric source is widened; other sources are kept |
| AsmImage.MoveFields | asm/asm.py:469-501 | a move is built exactly when there are two non-empty arguments, raising the invalid-arguments, no-destination or no-target error otherwise, with the larger size and the source's constants and label before the destination's |
| AsmImage.Emitted | asm/asm.py:367-388 | an unknown canonical form and an undefined label are recorded; an instruction whose size is not one more than its constants raises asking for size - 1 bytes; otherwise it emits its opcode and then its constants, a defined label resolved |
| AsmImage.LabelIsLittleEndian | asm/asm.py:370-376 | a three-byte instruction with a defined label emits its opcode and then the label's value low byte first |
| AsmImage.NumericJumpNeverAssembles | asm/asm.py:452-466 | a jump to a numeric address keeps size -1 and one constant, so `append_to` raises asking for -2 constant bytes |
| AsmImage.JumpFieldsIntended | asm/asm.py:452-466 | the corrected jump succeeds and fails as the jump does, and a numeric address takes three bytes with the same canonical form |
| AsmImage.NumericJumpAssembles | asm/asm.py:452-466 | with the widening, a jump to a numeric address emits its opcode and the address low byte first |
| AsmImage.ImmediateToByteRegister | asm/asm.py:484-491 | `mov` of an immediate number to a one-letter register has canonical form `mov r,#%02x` and emits the opcode and the number's low byte |
| AsmImage.NumberToWordOperand | asm/asm.py:492-495 | any other numeric `mov` source emits the opcode and the number low byte first |
| AsmImage.NumericDestinationNeverAssembles | asm/asm.py:469-501 | a move of a register to a numeric destination keeps size -1, so the entry is one byte with one constant and `append_to` raises asking for 0 constant bytes |
| AsmImage.MoveFieldsIntended | asm/asm.py:469-501 | the corrected move succeeds and fails as the move does, keeps its canonical form, and differs from it only for a destination of negative size |
| AsmImage.NumericDestinationAssembles | asm/asm.py:469-501 | with the destination widened, a move of a register to a numeric address emits the opcode and then the address low byte first |
| AsmImage.Instruction.constructor | asm/asm.py:340-349 | a new instruction holds its fields, opcode 0 and no errors |
| AsmImage.Instruction.AppendTo | asm/asm.py:367-388 | an emitted instruction appends its opcode and then its constants through `append` as written, so a negative byte among them raises; a length mismatch raises and changes nothing; an unknown canonical form or undefined label records the error and appends nothing; only those two paths add errors; a known canonical form sets the opcode and an unknown one keeps it; a defined label is cleared and replaced by its resolved constants, and otherwise the fields are kept; the labels are kept, and the image's address stays the number of bytes written |

## Left out

- I/O lanes: `io()`, `IOIn` and `IOOut` on the bus are not modelled. Their flags are not declared in the bus header that the model follows, and the I/O-clock phase of the backplane therefore reaches no unit.
- Status reporting, printing and `sendEvent` notifications to observers are left out. They have no effect on the simulated state.
- The GUI, threads and the run mode of the clock are left out. Pacing by `tick` and `sleep` is also left out, because a clock cycle's timing does not change its effect.
- Clock.Clock.Start: the unbounded loop of `Clock::start` runs for at most `fuel` cycles. The model says nothing about a run longer than the bound.
- Harness.Harness.Run: a run with the cycle count -1 (run until halted) is bounded by `fuel` cycles.
- Backplane.BackPlane.Run: runs the clock for at most `fuel` cycles.
- RealSystem.RealSystem.Run: runs the clock for at most `fuel` cycles.
- The microcode of the current engine is compiled in from `microcode.inc`, which is not part of this model. The controller therefore takes the table as a parameter indexed by IR.
- `ComponentContainer::forAllComponents` is not part of this model. It is modelled as its callers use it: every unit in slot order, with the first error ending the round.
- Harness.Harness.constructor: a null slot in the harness is modelled as the `Empty` unit, which reacts to no hook.
- The link from the ALU to its left-operand register is a fixed pairing of the two `Unit` values, not a pointer. Aliasing a register into two ALUs cannot be expressed.
- Alu.ALU.OnRisingClockEdge: `ALU::onRisingClockEdge` is declared as an override in include/alu.h:40, but src/cpu/alu.cpp gives it no body. The model uses the rising edge of `Register` (src/cpu/register.cpp:25-30) for it, so nothing the missing body might do is captured.
- BankedMemory.Memory.Reset: the banked Memory's header is not part of this model, and src/cpu/memory.cpp defines no reset. The inherited `AddressRegister::reset` (src/cpu/addressregister.cpp:19-22) is assumed, so an override declared in that header, if any, is not captured.
- Alu.ALU.OnHighClock: opflags from 16 to 255 index past the 16-slot operator table in the source, which is undefined behaviour. The model treats them as empty slots.
- `Component::error`, which only stores the last error code inside a unit, is not modelled. The phase hooks return the error to the container, which records it.
- The wires of `RealSystem` are a value that the registers read and write. They are not shared fields.
- RealController.Find: the scan also stops at the end of the list. The source reads past the end of a list that has no sentinel.
- Backplane.ControllerIR: reads the instruction register of the first controller unit in the list. The source casts the unit in slot IR, and dereferences null when that slot holds no controller.
- The old Register's header is not part of this model: include/register.h declares the current engine's register. The old registers follow their `.cpp` files.
- RealRegisters.Register.constructor: the old register's constructor is not part of this model either. Its starting value 0 and kept id are assumed, matching the reset at src/register.cpp:10-13.
- The assembler's operand classifier `_parse_operand` and Python's `int(text, base)` are parameters. Only ASCII digits count as digits, where Python's `isdigit` also accepts other Unicode digits.
- The opcode table of the assembler is a parameter.
- File I/O, argument parsing, listings and dumps are left out. `Image.assemble`, `Image.new_segment`, `Segment.append_to` and the `AssemblyParser` driver are left out too: they only sequence the modelled operations over a file.
- The `Bytes` and `String` entries and the error strings of `Nop`, `OneArg` and `TwoArg` are left out. Their checks are the argument counts that `Move` and `Jump` share.
- AsmBytes.ToBytes: a byte count that is not met is always the `WrongCount` error. In the source, building that message with `" ".join(data)` raises TypeError instead when an operand is not a str.
- TwoRegionMemory.TwoRegion.constructor: an image that the wrapped end-address test sends to a region smaller than itself makes the source's `memcpy` write past that region, which is undefined behaviour. The constructor excludes that case, and `Construct` answers None for it.
- AsmImage.Image.AppendOne: the body of the loop in `Image.append` is split out as a method of its own. A str item appends its UTF-8 bytes in one step, where the source calls `append` again on them.

## Findings

The units and machines of the model run the code as written. Each corrected member sits beside its as-written counterpart and states the intended behaviour.

| source | as written | input that shows it | evidently intended | confidence | as-written member | corrected member |
|---|---|---|---|---|---|---|
| src/memory.cpp:13-17 | the end of the loaded image is computed as a 16-bit word, so it wraps and the fit check against the RAM region passes | RAM at 0x0000 of size 0x8000, an image of 0xFFF8 bytes placed at 0x0010 | compare the end address without wrap-around, so that the image must fit in the region | not executed | TwoRegionMemory.WrappedEndOverflowsRam | TwoRegionMemory.ConstructIntended |
| asm/asm.py:452-466 | a jump to a numeric address keeps the operand size -1, so `append_to` raises asking for -2 constant bytes | `jmp #$1234` | widen a numeric address to two bytes, as `Move` does | not executed | AsmImage.NumericJumpNeverAssembles | AsmImage.NumericJumpAssembles |
| asm/asm.py:469-501 | a move to a numeric destination keeps the destination's size -1, so the entry is one byte with one constant and `append_to` raises asking for 0 constant bytes | `mov *$1234,a` | widen a numeric destination to two bytes, as a numeric source is | not executed | AsmImage.NumericDestinationNeverAssembles | AsmImage.NumericDestinationAssembles |
| asm/asm.py:686-688 | a value from -128 to -1 passes the range check and reaches `bytearray.append`, which raises ValueError | `append(-1)` | store the byte in two's complement, 0xff for -1 | not executed | AsmImage.NegativeByteRaises | AsmImage.AppendInt |
| src/realsystem.cpp:69 | the step-6 entries of MOV_A_ADDR, MOV_B_ADDR, MOV_C_ADDR and MOV_D_ADDR (lines 69, 83, 97 and 111) carry OP_DONE, so the counter returns to 0 before the step-7 entry that reads the addressed byte | opcode 0x02 at step 6 | OP_NONE on step 6, so that step 7 reads the byte into the register | not executed | RealSystem.AddressLoadsStopAtStepSix | RealSystem.AddressLoadsReachStepSeven |
| src/realsystem.cpp:91 | MOV_C_CONST reads its constant into GP_B | opcode 0x0B at step 3 | read the constant into GP_C | not executed | RealSystem.MovCConstLoadsB | RealSystem.MovCConstLoadsC |
| src/lines.cpp:27 | `copy` sets `op` from the other's `get` | lines with get 8 and op 1 (Inc): the copy has op 8 | set `op` from the other's `op`, so that the copy equals the original | not executed | ControlLines.CopyLosesOperator | ControlLines.CopiedIntended |
| src/cpu/memory.cpp:11 | a bank is refused when `start + size > 0xFFFF`, so no bank can include address 0xFFFF | start 0x8000, size 0x8000 | refuse only a bank that ends past 0x10000 | not executed | Banks.UpperHalfBankCollapses | Banks.UpperHalfBankServes |
