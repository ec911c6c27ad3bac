# cs6502 in Dafny

A model of the core of cs6502, a MOS 6502 emulator written in C#, with proofs about the model.

The emulator has these parts:

- A processor. It has a program counter, a stack pointer, the A, X and Y registers and a status register of seven flags.
- A 65535-byte memory.
- A cycle-counting clock.
- An instruction set that maps opcode bytes to addressing modes.

`Reset` loads the program counter from the reset vector at 0xFFFC/0xFFFD. `Step` fetches an opcode, looks it up and executes it. The only instruction the emulator implements is LDA. It resolves the operand through one of the addressing modes and sets the N and Z flags from the loaded value. Next to the processor the model has:

- the tiny assembler, which emits LDA/LDX immediate and BRK;
- the loader, which writes the reset vector and the program bytes;
- the console's memory formatter, which parses radix-prefixed numbers and prints a hex and ASCII dump.

How the files divide the work:

- `bytes.dfy` holds the C# `byte`, `sbyte` and `ushort` types. Their wrap-around is written out.
- `opcodes.dfy` holds the opcode enumeration and the flag table from its comments.
- `addressing_modes.dfy` holds the addressing modes and their classification.
- `status_register.dfy`, `memory.dfy`, `clock.dfy` and `instruction_set.dfy` hold one class each. The fields are updated in place. Each method is tied to a pure function on the contents.
- `execution.dfy` holds one function per private step of the processor. Each maps a memory image and the registers to an `Outcome`: the value returned or the exception thrown, together with the registers left behind. `execution_properties.dfy` states what those steps compute.
- `processor.dfy` holds the processor class. Each method is proved equal to its step function. `Mos6502` and `Wdc65C02` are factory methods.
- `assembly.dfy` holds the assembler class, the program value and the loader.
- `memory_formatter.dfy` holds the formatter. It has:
  - the number parser;
  - `Format`, a method whose loop builds the dump with the helper methods `ReadFormat`, `DumpRows`, `AppendRow`, `AppendHexColumn` and `AppendAsciiColumn`;
  - the functions `Formatted`, `Dump`, `Rows` and `Join`, which specify `Format`.

Where the documented behaviour and the code disagree, the model follows the code:

- The memory holds `ushort.MaxValue` = 65535 bytes, not 64 KiB. So every access to address 0xFFFF throws, and the model makes it a failure.
- `ReadAddress` charges 4 cycles: two byte reads of one cycle each, plus `Cycle(2)`. Its comment says 2. So `Reset` charges 12 cycles, not 8.
- `Reset` never resets the clock.
- The processor calls `Clock.Cycle()`, which `Clock.cs` does not define. It is modelled as `Tick(1)`.
- (Indirect),Y truncates the effective address to 8 bits.
- (Indirect,X) reads the pointer's high byte from zp + 1 without wrapping in page zero.
- The flag bits put V at 0x20 and N at 0x40.
- The `Wdc65C02(memory, clock)` constructor uses the `Mos6502` table.

## Model

| member | source | states |
|---|---|---|
| Bytes.MakeWord | Emulation/Memory.cs:21 | `lo \| hi << 8`: the low and high bytes of the result are exactly lo and hi |
| Bytes.SplitWord | Emulation/Memory.cs:17-22 | every word is rebuilt from its own low and high bytes |
| Bytes.ToByte | Assembly/Assembler.cs:21 | `(byte)v` of an sbyte is v for v >= 0 and v + 256 for a negative v |
| Bytes.ToSByte | Assembly/Assembler.cs:21 | reading a byte as an sbyte inverts `(byte)`; the result is non-negative exactly when the byte is below 0x80 |
| Bytes.XorZero | Emulation/Processor.cs:498 | `a ^ b` is 0 exactly when a == b |
| Bytes.XorShift8 | Emulation/Processor.cs:498 | `(a ^ b) >> 8` is the xor of the two high parts, so the page offset compares the high bytes only |
| Opcodes.NamedIncreasing | Emulation/Opcode.cs:3-498 | the enumeration names 151 byte values, listed in increasing order |
| Opcodes.NamedDistinct | Emulation/Opcode.cs:3-498 | the 151 named opcodes have pairwise distinct byte values, so name to byte is injective |
| Opcodes.BelowSize | Emulation/Opcode.cs:3 | there are exactly n byte values below n, so a `byte` enum has 256 possible values |
| Opcodes.UnnamedCount | Emulation/Opcode.cs:3-498 | exactly 105 byte values name no opcode |
| Opcodes.LdaEncodings | Emulation/Opcode.cs:255-267 | the LDA encodings are exactly 0xAD, 0xBD, 0xB9, 0xA9, 0xA1, 0xB1, 0xA5 and 0xB5, all of them named |
| Opcodes.AssemblerOpcodes | Emulation/Opcode.cs:109 | LdaImm = 0xA9 (line 263), LdxImm = 0xA2 (line 274), Brk = 0x00 (line 109) and Nop = 0xEA (line 307), all named |
| Opcodes.LoadsTouchOnlyNZ | Emulation/Opcode.cs:255-289 | LDA, LDX, LDY and the transfers TAX, TAY, TSX, TXA and TYA (lines 457-497) are documented to modify N and Z and no other flag |
| Opcodes.StoresTouchNoFlag | Emulation/Opcode.cs:426-455 | STA, STX, STY and TXS (lines 485-490) are documented to modify no flag |
| Opcodes.CarryAndDecimalInstructions | Emulation/Opcode.cs:123-133 | CLC clears C and CLD clears D; SEC and SED (lines 405-417) set them |
| Opcodes.InterruptAndOverflowInstructions | Emulation/Opcode.cs:135-145 | CLI clears I and CLV clears V; SEI (lines 419-424) sets I |
| Opcodes.FlagInstructionsChangeOneFlag | Emulation/Opcode.cs:123-145 | each of CLC, SEC, CLD, SED, CLI, SEI and CLV (with lines 405-424) is documented to change exactly one flag |
| AddressingModes.ClassificationAgrees | Emulation/AddressingMode.cs:3-85 | exactly IndirectX, IndirectY, ZeroPage, ZeroPageX and ZeroPageY carry no marker; for the eight modes that carry one, the memory/indexed classification matches it; Accumulator, Immediate and Implied are exactly the non-memory modes |
| AddressingModes.AbsoluteIndexed | Emulation/AddressingMode.cs:20-32 | AbsoluteX and AbsoluteY are Absolute indexed by X and by Y, and both are indexed memory modes |
| AddressingModes.OperandLengthByClass | Emulation/AddressingMode.cs:13-54 | only Accumulator and Implied take no operand byte; a two-byte operand (an address after the opcode) belongs to a memory mode |
| AddressingModes.RelativeReach | Emulation/AddressingMode.cs:67-73 | a branch can reach a target exactly when the target is PC plus a value in -128..127, modulo 2^16; distinct offset bytes reach distinct targets |
| AddressingModes.ZeroPageTarget | Emulation/AddressingMode.cs:75-83 | a zero-page operand addresses page 0 with the operand as its low byte; `ZeroPageAddressSpec` states that every zero-page resolution yields such an address |
| StatusRegisters.Update | Emulation/StatusRegister.cs:51-61 | `UpdateFlags` makes the flag read as the new value, leaves every other flag as it was, and never changes bit 7 |
| StatusRegisters.MasksAreDistinctBits | Emulation/StatusRegister.cs:63-74 | each flag owns a single bit, never bit 7, and distinct flags own distinct bits |
| StatusRegisters.UpdateIdempotent | Emulation/StatusRegister.cs:51-61 | setting a flag to the value it already has leaves the register unchanged |
| StatusRegisters.NoneHasNoFlag | Emulation/StatusRegister.cs:47 | the initial value `Flags.None` has no flag set |
| StatusRegisters.StatusRegister.constructor | Emulation/StatusRegister.cs:47 | a new register reads false for every flag |
| StatusRegisters.StatusRegister.Set | Emulation/StatusRegister.cs:5-45 | a property setter makes its flag read as the value and leaves the other six flags unchanged |
| StatusRegisters.StatusRegister.ClearAll | Emulation/StatusRegister.cs:49 | afterwards every flag reads false |
| Memories.PeekDefined | Emulation/Memory.cs:5-11 | the indexer succeeds exactly below 0xFFFF and then returns the stored byte |
| Memories.ReadAfterWrite | Emulation/Memory.cs:9-10 | after a byte write the address reads the written value and every other address reads as before |
| Memories.LastAddressFails | Emulation/Memory.cs:5 | reading or writing 0xFFFF fails; a word at 0xFFFE or 0xFFFF cannot be read; a word write at 0xFFFE stores its low byte before it fails |
| Memories.WordLittleEndian | Emulation/Memory.cs:17-22 | a word can be read exactly at addresses up to 0xFFFD, and it is mem[a] + 256 * mem[a + 1] |
| Memories.WordRoundTrip | Emulation/Memory.cs:26-30 | a word write at a <= 0xFFFD stores the low byte at a and the high byte at a + 1, touches nothing else, and reads back as the word |
| Memories.SliceDefined | Emulation/Memory.cs:13 | the range indexer succeeds exactly when 0 <= start <= end <= 65535, and returns the bytes at start + i |
| Memories.Memory.constructor | Emulation/Memory.cs:5 | a new memory reads 0 at every address |
| Memories.Memory.ReadByte | Emulation/Memory.cs:15 | returns the indexer's byte, or fails at 0xFFFF |
| Memories.Memory.WriteByte | Emulation/Memory.cs:24 | stores the byte at a valid address; at 0xFFFF it fails and changes nothing |
| Memories.Memory.ReadWord | Emulation/Memory.cs:17-22 | reads the little-endian word, failing when either byte is outside the store |
| Memories.Memory.WriteWord | Emulation/Memory.cs:26-30 | the store after the two byte writes, including the first write kept when the second fails |
| Memories.Memory.Range | Emulation/Memory.cs:13 | returns the slice of the store, or fails for a range outside it |
| Clocks.ProgramCycles | Emulation/Clock.cs:28 | the definition of the property: program cycles plus startup cycles is the total count; what the clock promises about program cycles is stated by the ensures of `Clock.Tick` and `Clock.Reset` |
| Clocks.Clock.constructor | Emulation/Clock.cs:30-32 | no startup cycles, frequency 0, count 0 |
| Clocks.Clock.WithFrequency | Emulation/Clock.cs:34-36 | no startup cycles, the given frequency, count 0 |
| Clocks.Clock.WithStartup | Emulation/Clock.cs:38-42 | the given startup cycles and frequency, count 0 |
| Clocks.Clock.Program | Emulation/Clock.cs:28 | the `ProgramCycles` property read from the object's fields; the promises about it are those of `Clock.Tick` and `Clock.Reset` |
| Clocks.Clock.Tick | Emulation/Clock.cs:44-52 | the count grows by exactly n, never shrinks for n >= 0, and the startup cycles and frequency stay; program cycles grow by n |
| Clocks.Clock.Reset | Emulation/Clock.cs:54-57 | the count becomes 0 while the startup cycles and frequency stay, so program cycles become minus the startup cycles |
| InstructionSets.LookupAgrees | Emulation/InstructionSet.cs:7-21 | the indexer succeeds exactly for a registered opcode, otherwise it fails with an exception carrying that opcode; `TryGetInstruction` agrees with it |
| InstructionSets.AddedLookup | Emulation/InstructionSet.cs:23-28 | after `Add` the opcode maps to the added instruction and every other opcode maps as before |
| InstructionSets.AddTwice | Emulation/InstructionSet.cs:25 | adding two instructions for the same opcode keeps only the later one (last writer wins) |
| InstructionSets.Mos6502TableContents | Emulation/InstructionSetFactory.cs:5-9 | the Mos6502 table maps LdaImm (0xA9) to Immediate and nothing else |
| InstructionSets.InstructionSet.constructor | Emulation/InstructionSet.cs:5 | a new set is empty |
| InstructionSets.InstructionSet.Get | Emulation/InstructionSet.cs:7-18 | the indexer: the registered instruction, or `UnknownOpcodeException` for the opcode |
| InstructionSets.InstructionSet.TryGetInstruction | Emulation/InstructionSet.cs:20-21 | true exactly when the opcode is registered, together with its instruction |
| InstructionSets.InstructionSet.Add | Emulation/InstructionSet.cs:23-28 | the table with the instruction stored under its opcode, and the same set is returned for chaining |
| InstructionSets.InstructionSet.AddOpcode | Emulation/InstructionSet.cs:30-31 | adds the instruction built from the opcode and the mode, Implied by default, and returns the same set |
| InstructionSets.Mos6502 | Emulation/InstructionSetFactory.cs:5-9 | a fresh set holding the Mos6502 table |
| InstructionSets.Mos65C02 | Emulation/InstructionSetFactory.cs:11-15 | a fresh set with exactly the Mos6502 entries |
| Execution.ReadByte | Emulation/Processor.cs:374-379 | reading a byte moves neither PC nor SP, A, X, Y or the flags, and does not turn the clock back |
| Execution.FetchByte | Emulation/Processor.cs:340 | fetching a byte leaves SP, A, X, Y and the flags alone |
| Execution.ReadAddress | Emulation/Processor.cs:358-366 | reading an address leaves PC, SP, A, X, Y and the flags alone |
| Execution.FetchAddress | Emulation/Processor.cs:347-352 | fetching an address leaves SP, A, X, Y and the flags alone |
| Execution.AbsoluteAddress | Emulation/Processor.cs:430-442 | Absolute resolution leaves SP, A, X, Y and the flags alone |
| Execution.IndirectAddress | Emulation/Processor.cs:444 | Indirect resolution leaves SP, A, X, Y and the flags alone |
| Execution.IndirectXAddress | Emulation/Processor.cs:449-455 | (Indirect,X) resolution leaves SP, A, X, Y and the flags alone |
| Execution.IndirectYAddress | Emulation/Processor.cs:460-466 | (Indirect),Y resolution leaves SP, A, X, Y and the flags alone |
| Execution.IndexPointer | Emulation/Processor.cs:462-465 | the index-and-page-check part of (Indirect),Y leaves SP, A, X, Y and the flags alone |
| Execution.ZeroPageAddress | Emulation/Processor.cs:471-482 | zero-page resolution leaves SP, A, X, Y and the flags alone |
| Execution.ResolveAddress | Emulation/Processor.cs:408-421 | no address resolution changes SP, A, X, Y or the flags |
| Execution.FetchOperand | Emulation/Processor.cs:387-424 | fetching an operand, in any mode, changes neither SP, A, X, Y nor the flags |
| ExecutionProperties.ReadByteSpec | Emulation/Processor.cs:374-379 | below 0xFFFF a read returns mem[a] and charges one cycle; at 0xFFFF it throws before charging anything |
| ExecutionProperties.FetchByteSpec | Emulation/Processor.cs:340 | returns the byte at the old PC, advances PC by one and charges one cycle; at 0xFFFF the post-increment wraps PC to 0 and the read throws |
| ExecutionProperties.ReadAddressSpec | Emulation/Processor.cs:358-366 | succeeds exactly when the memory holds both bytes; it then returns the little-endian word and charges 4 cycles; the failing cases charge what ran before the throw |
| ExecutionProperties.FetchAddressSpec | Emulation/Processor.cs:347-352 | below 0xFFFE returns the word at PC, advances PC by 2 and charges 4 cycles; otherwise it fails with PC unmoved |
| ExecutionProperties.PageOffsetSpec | Emulation/Processor.cs:498 | the page offset is positive exactly when the two addresses lie on different pages |
| ExecutionProperties.AbsoluteAddressSpec | Emulation/Processor.cs:430-442 | Absolute,X/Y yields (base + index) mod 2^16 and charges one extra cycle exactly when the index is non-zero and the high bytes of base and result differ |
| ExecutionProperties.IndirectAddressSpec | Emulation/Processor.cs:444 | Indirect reads a pointer at PC and returns the little-endian word stored at the pointer, advancing PC by 2 and charging 8 cycles; a PC past 0xFFFD or a pointer at 0xFFFE/0xFFFF fails, with the cycles of the reads that ran before the throw |
| ExecutionProperties.ZeroPageAddressSpec | Emulation/Processor.cs:471-482 | Zero Page,X/Y yields the page-0 address `ZeroPageTarget((byte + index) mod 256)`, with one extra cycle exactly when the index is non-zero |
| ExecutionProperties.IndirectXAddressSpec | Emulation/Processor.cs:449-455 | (Indirect,X) reads the pointer at (byte + X) mod 256 and charges 6 cycles; at zero-page 0xFF the high byte comes from 0x100, not 0x00 |
| ExecutionProperties.IndexPointerSpec | Emulation/Processor.cs:462-465 | the effective address is (pointer + Y) truncated to 8 bits, with one extra cycle exactly when the pointer's high byte is non-zero |
| ExecutionProperties.IndirectYAddressSpec | Emulation/Processor.cs:460-466 | (Indirect),Y reads the pointer from page 0 and returns (pointer + Y) mod 256; it charges 5 cycles, plus one exactly when the pointer's high byte is non-zero |
| ExecutionProperties.FetchOperandNonMemory | Emulation/Processor.cs:389-404 | Implied throws, Accumulator returns A without touching anything, Immediate fetches the next byte, and Relative falls to the unknown-mode throw (line 420) |
| ExecutionProperties.FetchOperandAdvance | Emulation/Processor.cs:387-424 | a successful operand fetch advances PC by exactly the mode's operand length |
| ExecutionProperties.BitOf | Emulation/Processor.cs:519 | `v & (1 << n)` is non-zero exactly when binary digit n of v is 1, for every n in 0..7 |
| ExecutionProperties.IsNthBitSetSpec | Emulation/Processor.cs:512-520 | succeeds exactly for n in 0..7 and then returns whether binary digit n of the value is 1; bit 0 is the low bit and bit 7 is value >= 0x80 |
| ExecutionProperties.IsNegativeSpec | Emulation/Processor.cs:510 | a value is negative exactly when it is at least 0x80 |
| ExecutionProperties.SetNegativeAndZeroFlagsSpec | Emulation/Processor.cs:500-508 | afterwards N reads value >= 0x80 and Z reads value == 0, and every other flag is as it was |
| ExecutionProperties.ExecuteDispatch | Emulation/Processor.cs:110-325 | the eight LDA opcodes run `ExecuteLda`; every other opcode throws with the registers untouched: an unnamed byte at the default case, a named one at the final throw |
| ExecutionProperties.ExecuteLdaSpec | Emulation/Processor.cs:327-334 | on a fetched operand v, A becomes v, N and Z follow v and the operation carries v; when the operand fetch fails, A and the flags are unchanged |
| ExecutionProperties.StepUnsupported | Emulation/Processor.cs:78-91 | fetching a byte absent from the set fails with that opcode and address; PC has advanced by one, one cycle is charged and A, X, Y, SP and the flags are untouched |
| ExecutionProperties.StepLdaImmediate | Emulation/Processor.cs:54-58 | with the Mos6502 table, `Step` on 0xA9 v loads v into A, sets N and Z from v, advances PC by 2, charges 2 cycles and reports the operation with operand v |
| ExecutionProperties.Mos6502StepsOnlyLdaImmediate | Emulation/InstructionSetFactory.cs:5-9 | with the Mos6502 table, a step can succeed only on LdaImm |
| ExecutionProperties.ResetSpec | Emulation/Processor.cs:33-52 | PC = mem[0xFFFC] + 256 * mem[0xFFFD], SP = 0xFF, A = X = Y = 0, every flag false, and 12 cycles charged |
| ExecutionProperties.ResetTwice | Emulation/Processor.cs:33-52 | a second reset gives the same registers, 12 cycles later |
| ExecutionProperties.InterruptsNotImplemented | Emulation/Processor.cs:60-68 | interrupt entry always fails with NotImplemented and changes nothing |
| Processors.Processor.constructor | Emulation/Processor.cs:23-31 | the processor keeps the given set, memory and clock, and its registers are those of `Reset` from zero registers at the clock's count |
| Processors.Processor.WithNewDevices | Emulation/Processor.cs:19-21 | with a fresh memory and clock, the reset leaves PC 0, SP 0xFF, A = X = Y = 0, no flags and 12 cycles |
| Processors.Processor.Cycle | Emulation/Processor.cs:70-76 | the clock ticks once per pass, so `times` cycles when times is positive and none otherwise |
| Processors.Processor.ReadByte | Emulation/Processor.cs:374-379 | the result and registers are those of `Execution.ReadByte` |
| Processors.Processor.FetchByte | Emulation/Processor.cs:340 | the result and registers are those of `Execution.FetchByte` |
| Processors.Processor.ReadAddress | Emulation/Processor.cs:358-366 | the result and registers are those of `Execution.ReadAddress` |
| Processors.Processor.FetchAddress | Emulation/Processor.cs:347-352 | the result and registers are those of `Execution.FetchAddress` |
| Processors.Processor.CycleIfCrossedPageBoundary | Emulation/Processor.cs:487-493 | one cycle exactly when the page offset is positive |
| Processors.Processor.AbsoluteAddress | Emulation/Processor.cs:430-442 | the result and registers are those of `Execution.AbsoluteAddress` |
| Processors.Processor.IndirectAddress | Emulation/Processor.cs:444 | the result and registers are those of `Execution.IndirectAddress` |
| Processors.Processor.IndirectXAddress | Emulation/Processor.cs:449-455 | the result and registers are those of `Execution.IndirectXAddress` |
| Processors.Processor.IndirectYAddress | Emulation/Processor.cs:460-466 | the result and registers are those of `Execution.IndirectYAddress` |
| Processors.Processor.ZeroPageAddress | Emulation/Processor.cs:471-482 | the result and registers are those of `Execution.ZeroPageAddress` |
| Processors.Processor.ResolveAddress | Emulation/Processor.cs:408-421 | the switch on the memory modes, equal to `Execution.ResolveAddress` |
| Processors.Processor.FetchOperand | Emulation/Processor.cs:387-424 | the result and registers are those of `Execution.FetchOperand` |
| Processors.Processor.SetNegativeAndZeroFlags | Emulation/Processor.cs:500-508 | the status byte becomes `Execution.SetNegativeAndZeroFlags` of the old one |
| Processors.Processor.ExecuteLda | Emulation/Processor.cs:327-334 | the result and registers are those of `Execution.ExecuteLda` |
| Processors.Processor.Execute | Emulation/Processor.cs:110-325 | the result and registers are those of `Execution.Execute` |
| Processors.Processor.Fetch | Emulation/Processor.cs:78-96 | the result and registers are those of `Execution.Fetch` on the processor's set |
| Processors.Processor.Step | Emulation/Processor.cs:54-58 | the result and registers are those of `Execution.Step` on the processor's set |
| Processors.Processor.Reset | Emulation/Processor.cs:33-52 | the registers become those of `Execution.Reset` |
| Processors.Processor.Interrupt | Emulation/Processor.cs:60-63 | always fails with NotImplemented |
| Processors.Processor.NonMaskableInterrupt | Emulation/Processor.cs:65-68 | always fails with NotImplemented |
| Processors.NewMos6502 | Emulation/Mos6502.cs:5-7 | a processor on a fresh memory and clock with the Mos6502 table, reset: SP 0xFF and 12 cycles |
| Processors.NewMos6502With | Emulation/Mos6502.cs:9-11 | a processor on the given memory and clock with the Mos6502 table, reset from the memory's vector |
| Processors.NewWdc65C02 | Emulation/Wdc65C02.cs:5-7 | a processor on a fresh memory and clock with the Mos65C02 table, which equals the Mos6502 one |
| Processors.NewWdc65C02With | Emulation/Wdc65C02.cs:9-11 | a processor on the given memory and clock; this constructor passes the Mos6502 table |
| Assembly.Encoding | Assembly/Assembler.cs:15-31 | each emit call appends one or two bytes, the first being the LdaImm, LdxImm or Brk opcode |
| Assembly.EncodePrepend | Assembly/Assembler.cs:15-31 | the bytes of a call sequence are the first call's bytes followed by the rest's |
| Assembly.DecodeEncode | Assembly/Assembler.cs:15-33 | the assembled bytes decode back to exactly the sequence of emit calls |
| Assembly.SignedOperand | Assembly/Assembler.cs:21 | the sbyte overloads store the two's-complement byte, e.g. LDA #-42 is A9 D6 and LDX #-1 is A2 FF |
| Assembly.Assembler.constructor | Assembly/Assembler.cs:10-13 | an assembler with the given origin and no bytes |
| Assembly.Assembler.Emit | Assembly/Assembler.cs:15-31 | an emit call appends its encoding to the buffer |
| Assembly.Assembler.LdaImmediate | Assembly/Assembler.cs:15-19 | appends 0xA9 and the value |
| Assembly.Assembler.LdaImmediateSigned | Assembly/Assembler.cs:21 | appends 0xA9 and `(byte)value` |
| Assembly.Assembler.LdxImmediate | Assembly/Assembler.cs:23-27 | appends 0xA2 and the value |
| Assembly.Assembler.LdxImmediateSigned | Assembly/Assembler.cs:29 | appends 0xA2 and `(byte)value` |
| Assembly.Assembler.Brk | Assembly/Assembler.cs:31 | appends 0x00 |
| Assembly.Assembler.Assemble | Assembly/Assembler.cs:33 | a program with the origin and the emitted bytes, which decode back to the emit calls |
| Assembly.WriteBytesSpec | Assembly/Loader.cs:15-20 | the copy loop succeeds exactly when the bytes end below 0xFFFF; byte k lands at address + k for every k reached; every other cell is unchanged |
| Assembly.Load | Assembly/Loader.cs:7-21 | the memory afterwards, and whether the load threw, are those of `Loaded` |
| Assembly.LoadedSpec | Assembly/Loader.cs:7-21 | the vector holds the origin unless the program covers it, byte k lands at org + k, nothing else changes, and the load fails exactly when the program reaches 0xFFFF |
| Assembly.LoadOverwritesVector | Assembly/Loader.cs:11-20 | a program that covers 0xFFFC/0xFFFD overwrites the vector with its own bytes |
| Assembly.LoadThenReset | Assembly/Loader.cs:7-21 | after a load none of whose bytes lands on 0xFFFC or 0xFFFD, `Reset` starts at the origin, and PC points at the program's first byte unless the program is empty or the origin is 0xFFFF |
| Assembly.LoadKeepsVector | Assembly/Loader.cs:7-21 | a program whose bytes miss 0xFFFC and 0xFFFD leaves the origin in the reset vector |
| Assembly.LoadFirstByte | Assembly/Loader.cs:7-21 | a non-empty program at an origin below 0xFFFF has its first byte at the origin |
| MemoryFormatting.Int32 | Console/MemoryFormatter.cs:34 | C# `int` arithmetic: the value itself in range, and values up to 2^32 - 1 wrap to their negative two's-complement reading |
| MemoryFormatting.DivWidth | Console/MemoryFormatter.cs:34 | `/ Width` truncating toward zero, for non-negative and negative dividends |
| MemoryFormatting.StartsWith | Console/MemoryFormatter.cs:98-101 | true exactly when the input is at least as long as the test and agrees with it letter by letter, ignoring ASCII case |
| MemoryFormatting.NotPrefix | Console/MemoryFormatter.cs:98-101 | one mismatching position makes StartsWith false |
| MemoryFormatting.ConvertToInt32 | Console/MemoryFormatter.cs:77 | `Convert.ToInt32(s, radix)` returns only 32-bit values |
| MemoryFormatting.ParseInt | Console/MemoryFormatter.cs:95 | `int.Parse` returns only 32-bit values |
| MemoryFormatting.ParseIntTrailingNul | Console/MemoryFormatter.cs:95 | `int.Parse` gives the same result with or without a NUL character at the end |
| MemoryFormatting.DecimalTrailingNul | Console/MemoryFormatter.cs:73-96 | a decimal number followed by a NUL character parses as the number alone |
| MemoryFormatting.ParseNumber | Console/MemoryFormatter.cs:73-96 | the parsed number is a 32-bit value |
| MemoryFormatting.ConvertDigits | Console/MemoryFormatter.cs:77 | a digit string in radix 2, 8 or 16 converts to its value read as a 32-bit pattern, and fails above 2^32 - 1 |
| MemoryFormatting.DollarIsHex | Console/MemoryFormatter.cs:80-83 | "$" followed by hex digits is parsed as hexadecimal |
| MemoryFormatting.ZeroXIsHex | Console/MemoryFormatter.cs:75-78 | "0x" or "0X" followed by hex digits is parsed as hexadecimal |
| MemoryFormatting.ZeroBIsBinary | Console/MemoryFormatter.cs:85-88 | "0b" or "0B" followed by binary digits is parsed as binary |
| MemoryFormatting.LeadingZeroIsOctal | Console/MemoryFormatter.cs:90-93 | a leading "0" followed by octal digits is parsed as octal |
| MemoryFormatting.MinusRefused | Console/MemoryFormatter.cs:80-88 | a minus sign after "$" or "0b" is rejected |
| MemoryFormatting.ParseIntDigits | Console/MemoryFormatter.cs:95 | `int.Parse` of decimal digits is their value when it fits in an int, else a failure |
| MemoryFormatting.ParseIntNegative | Console/MemoryFormatter.cs:95 | `int.Parse` of "-" and decimal digits is minus their value, down to -2^31 |
| MemoryFormatting.DecimalIsParsed | Console/MemoryFormatter.cs:73-96 | a decimal number without a leading zero, with or without "-", falls through to `int.Parse` and gets its decimal value |
| MemoryFormatting.Hex2 | Console/MemoryFormatter.cs:49 | `X2` gives two characters |
| MemoryFormatting.Hex4 | Console/MemoryFormatter.cs:42 | `X4` gives four characters |
| MemoryFormatting.Hex2Upper | Console/MemoryFormatter.cs:49 | both characters of `X2` are digits or capital letters A to F |
| MemoryFormatting.Hex4Upper | Console/MemoryFormatter.cs:42 | all four characters of `X4` are digits or capital letters A to F |
| MemoryFormatting.HexPlain | Console/MemoryFormatter.cs:42-49 | neither hex field contains a newline |
| MemoryFormatting.HexDigitValue | Console/MemoryFormatter.cs:49 | each printed hex digit reads back as its value |
| MemoryFormatting.Hex2Value | Console/MemoryFormatter.cs:49 | `X2` of a byte reads back, in base 16, as the byte |
| MemoryFormatting.Hex4Value | Console/MemoryFormatter.cs:42 | `X4` of an address reads back, in base 16, as the address |
| MemoryFormatting.AddressRoundTrip | Console/MemoryFormatter.cs:42 | a printed row address, prefixed with "$" or "0x", parses back to the address (lines 75-83) |
| MemoryFormatting.Shown | Console/MemoryFormatter.cs:55 | printable bytes 32..126 show as themselves and every other byte as '.'; never a newline |
| MemoryFormatting.HexColumnLayout | Console/MemoryFormatter.cs:47-50 | the hex column is three characters per byte: its two hex digits and a space |
| MemoryFormatting.AsciiColumnLayout | Console/MemoryFormatter.cs:53-56 | the ASCII column is one shown character per byte |
| MemoryFormatting.RowShape | Console/MemoryFormatter.cs:42-56 | a row of 8 bytes is 38 characters without a newline |
| MemoryFormatting.RowLayout | Console/MemoryFormatter.cs:42-56 | a row is "$", the four-digit address and a space, then "hh " per byte, then the eight shown characters |
| MemoryFormatting.RowsCount | Console/MemoryFormatter.cs:39 | a whole number of rows gives one row per 8 bytes |
| MemoryFormatting.RowsPlain | Console/MemoryFormatter.cs:39-56 | every row is 38 characters and holds no newline |
| MemoryFormatting.RowsLength | Console/MemoryFormatter.cs:39 | 8m bytes give m rows |
| MemoryFormatting.RowAt | Console/MemoryFormatter.cs:39-44 | row k shows the bytes 8k to 8k + 7 of the range, under the address start + 8k |
| MemoryFormatting.RowsIndex | Console/MemoryFormatter.cs:39-44 | every row k of a whole number of rows shows the bytes 8k to 8k + 7 under the address start + 8k |
| MemoryFormatting.JoinSnoc | Console/MemoryFormatter.cs:58-62 | adding a row appends a newline, unless it is the first row, and then the row |
| MemoryFormatting.LastIndex | Console/MemoryFormatter.cs:19 | the position of the last separator, or -1 when there is none |
| MemoryFormatting.Split | Console/MemoryFormatter.cs:19 | `Split` at a separator gives at least one part; it splits the format string at ',' and, in the lemmas, the dump at its newlines |
| MemoryFormatting.SplitJoin | Console/MemoryFormatter.cs:39-63 | splitting the dump at its newlines gives back the rows, so rows are separated, not terminated |
| MemoryFormatting.JoinEnd | Console/MemoryFormatter.cs:58-62 | the dump ends with its last row's last character, so no newline follows the last row |
| MemoryFormatting.Requested | Console/MemoryFormatter.cs:19-31 | the start and length read from the format string are 32-bit values |
| MemoryFormatting.RoundUp | Console/MemoryFormatter.cs:34 | the rounded length is a multiple of 8 and a 32-bit value |
| MemoryFormatting.RoundUpSpec | Console/MemoryFormatter.cs:34 | a non-negative length rounds up to the next multiple of 8; lengths in -14..-1 round to 0; more negative lengths, and lengths that overflow, become negative |
| MemoryFormatting.InStoreSpec | Console/MemoryFormatter.cs:36 | the range check passes exactly when 0 <= start, 0 <= length and start + length <= 65535, and then the int sum does not wrap |
| MemoryFormatting.DumpSpec | Console/MemoryFormatter.cs:36-65 | a dump succeeds exactly when the range lies in the store |
| MemoryFormatting.DumpEmpty | Console/MemoryFormatter.cs:36-65 | the dump is the empty string exactly when the length is 0 and the start is within 0..65535 |
| MemoryFormatting.DumpText | Console/MemoryFormatter.cs:36-65 | a non-empty dump has length / 8 rows, splits back into them and ends without a newline |
| MemoryFormatting.DumpRow | Console/MemoryFormatter.cs:39-44 | row k of a dump of m rows from start shows mem[start + 8k .. start + 8k + 7] under the address start + 8k |
| MemoryFormatting.DumpLines | Console/MemoryFormatter.cs:36-65 | a dump in the store is its rows joined, 8 bytes per row, and row k shows mem[start + 8k .. start + 8k + 7] under the address start + 8k |
| MemoryFormatting.FormatDefaults | Console/MemoryFormatter.cs:8-10 | without a format string the dump covers bytes 0..63 in 8 rows |
| MemoryFormatting.FormattedSpec | Console/MemoryFormatter.cs:12-66 | an unparsable number fails; otherwise the result is the dump of the start and the rounded length, and it succeeds exactly when that range lies in the store |
| MemoryFormatting.Format | Console/MemoryFormatter.cs:12-66 | equals `Formatted`; anything other than a memory is printed as its own text (lines 14-17) |
| MemoryFormatting.ReadFormat | Console/MemoryFormatter.cs:19-31 | splitting at ',' and parsing the parts gives `Requested` |
| MemoryFormatting.DumpRows | Console/MemoryFormatter.cs:37-65 | the loop's text is the rows joined by newlines |
| MemoryFormatting.DumpStep | Console/MemoryFormatter.cs:39-63 | the loop invariant: one pass extends the joined rows by the next row |
| MemoryFormatting.AppendRow | Console/MemoryFormatter.cs:42-56 | appends one row |
| MemoryFormatting.AppendHexColumn | Console/MemoryFormatter.cs:47-50 | appends the hex column |
| MemoryFormatting.AppendAsciiColumn | Console/MemoryFormatter.cs:53-56 | appends the ASCII column |

## Left out

- Events: `BeforeInstruction`/`AfterInstruction` and `ExecuteWithEvents` are not modelled. They notify subscribers and change no state, so `Step` is `Fetch` followed by `Execute`.
- Clock.Tick: the `Thread.Sleep(Frequency * cycles)` delay is not modelled, because it is timing only.
- Clocks.Clock.Tick: the count is an unbounded integer, so the 32-bit wrap of `Cycles += cycles` is not modelled.
- Interrupt and NonMaskableInterrupt: these throw in the code and are modelled only as that failure.
- Instructions other than LDA: each one fails as in the code, and their semantics are not modelled because the emulator has none.
- Exceptions: the exception types are collapsed into one `Fault` value per throw site. Messages are not modelled.
- Console/ProcessorFormatter.cs and Console/Program.cs are not part of this model.
- GetFormat: this is the `IFormatProvider` plumbing that hands the formatter to `string.Format`.
- MemoryFormatting.ParseInt: the sign is '-' or '+', as in the invariant culture. A current culture whose sign strings differ is not modelled.
- MemoryFormatting.StartsWith: compares with ASCII case folding only. `OrdinalIgnoreCase` also folds non-ASCII letters, but only ASCII prefixes are ever tested.
- MemoryFormatting.Format: a parse failure or an out-of-range slice is one error value each. The code throws `FormatException`, `OverflowException` or `ArgumentOutOfRangeException`.
- MemoryFormatting.Format: `AppendLine` is modelled as appending "\n". `Environment.NewLine` depends on the platform.
- MemoryFormatting.Rows: drops a leading partial row, because it peels whole rows off the end. `Format` only asks for whole rows, because the length is rounded first.
- AddressingModes.Documented: IndirectX, IndirectY, ZeroPage, ZeroPageX and ZeroPageY carry no memory or indexed marker in the enum's documentation. Their classification (`IsMemory`, `IsIndexed`) follows from their names and operand use, and nothing checks it against documentation.
- Instruction and Operation are plain records. They are modelled as datatypes and have no members.
