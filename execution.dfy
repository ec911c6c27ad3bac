/**
 * What one call of each private step of Emulation/Processor.cs does, as a function of the
 * memory image and the registers before it. Every step returns an `Outcome`: the value it
 * returns or the exception it throws, and the registers it leaves behind. An exception does
 * not roll anything back, so a failed step can still have moved PC or charged cycles.
 *
 * The processor never writes memory, so the image is an argument and not part of the result.
 */
module Execution {
  import opened Bytes
  import opened Outcomes
  import opened Opcodes
  import opened AddressingModes
  import opened StatusRegisters
  import opened Memories
  import opened InstructionSets

  /** The exceptions the processor's steps can throw. */
  datatype Fault =
    | AddressOutOfRange                           // the memory indexer, at 0xFFFF
    | UnsupportedOpcode(opcode: Opcode, at: Word) // `Fetch`: the set has no such instruction
    | OpcodeOutOfRange(opcode: Opcode)            // `Execute`: a byte that names no opcode
    | UnknownOpcode(opcode: Opcode)               // `Execute`: a named opcode with no implementation
    | ImpliedHasNoOperand                         // `FetchOperand(Implied)`
    | UnknownAddressMode(mode: AddressingMode)    // `FetchOperand(Relative)`
    | BitIndexOutOfRange                          // `IsNthBitSet` with n outside 0..7
    | NotImplemented                              // `Interrupt`, `NonMaskableInterrupt`

  /** The processor's registers, with the status byte and the clock's cycle count. */
  datatype Regs = Regs(pc: Word, sp: Byte, a: Byte, x: Byte, y: Byte, status: bv8, cycles: int)

  /** What a step returns or throws, and the registers after it. */
  datatype Outcome<+T> = Outcome(result: Result<T, Fault>, regs: Regs)

  /** `Operation`: the executed instruction and its operand bytes. */
  datatype Operation = Operation(instruction: Instruction, operands: seq<Byte>)

  /**
   * What every addressing step leaves alone: SP, A, X, Y and the flags are as they were, and
   * the clock has not gone backwards. Only PC and the cycle count move.
   */
  predicate Keeps(r: Regs, s: Regs)
  {
    s.sp == r.sp && s.a == r.a && s.x == r.x && s.y == r.y && s.status == r.status && s.cycles >= r.cycles
  }

  function Tick(r: Regs, n: int): Regs
  {
    r.(cycles := r.cycles + n)
  }

  /** `Cycle(times)`: one clock tick per pass of its loop, so none when times <= 0. */
  function Cycle(r: Regs, times: int): Regs
  {
    if times > 0 then Tick(r, times) else r
  }

  /** `ReadByte(address)`: the memory read, then one cycle. */
  function ReadByte(mem: Image, r: Regs, address: Word): (o: Outcome<Byte>)
    ensures Keeps(r, o.regs) && o.regs.pc == r.pc
  {
    match Peek(mem, address)
    case None => Outcome(Err(AddressOutOfRange), r)
    case Some(v) => Outcome(Ok(v), Tick(r, 1))
  }

  /** `FetchByte`: `ReadByte(ProgramCounter++)`, so PC has moved on before the read. */
  function FetchByte(mem: Image, r: Regs): (o: Outcome<Byte>)
    ensures Keeps(r, o.regs)
  {
    ReadByte(mem, r.(pc := WordAdd(r.pc, 1)), r.pc)
  }

  /** `ReadAddress(address)`: two byte reads, little-endian, then two more cycles. */
  function ReadAddress(mem: Image, r: Regs, address: Word): (o: Outcome<Word>)
    ensures Keeps(r, o.regs) && o.regs.pc == r.pc
  {
    var lo := ReadByte(mem, r, address);
    if lo.result.Err? then Outcome(Err(lo.result.error), lo.regs) else
    var hi := ReadByte(mem, lo.regs, WordAdd(address, 1));
    if hi.result.Err? then Outcome(Err(hi.result.error), hi.regs) else
    Outcome(Ok(MakeWord(lo.result.value, hi.result.value)), Tick(hi.regs, 2))
  }

  /** `FetchAddress`: the address at PC; PC moves on by two only once it has been read. */
  function FetchAddress(mem: Image, r: Regs): (o: Outcome<Word>)
    ensures Keeps(r, o.regs)
  {
    var o := ReadAddress(mem, r, r.pc);
    if o.result.Err? then o else
    Outcome(o.result, o.regs.(pc := WordAdd(o.regs.pc, 2)))
  }

  /** `PageOffset(from, to)`: `(from ^ to) >> 8`; on non-negative numbers `>> 8` divides by 256. */
  function PageOffset(from: Word, to: Word): int
  {
    Xor(from, to) / 0x100
  }

  /** `CycleIfCrossedPageBoundary`. */
  function CycleIfCrossedPageBoundary(r: Regs, from: Word, to: Word): Regs
  {
    if PageOffset(from, to) > 0 then Tick(r, 1) else r
  }

  /** `AbsoluteAddress(offset)`: the fetched address, moved on by the offset modulo 2^16. */
  function AbsoluteAddress(mem: Image, r: Regs, offset: Byte): (o: Outcome<Word>)
    ensures Keeps(r, o.regs)
  {
    var o := FetchAddress(mem, r);
    if o.result.Err? || offset == 0 then o else
    var target := WordAdd(o.result.value, offset);
    Outcome(Ok(target), CycleIfCrossedPageBoundary(o.regs, o.result.value, target))
  }

  /** `IndirectAddress`: the word stored at the absolute address. */
  function IndirectAddress(mem: Image, r: Regs): (o: Outcome<Word>)
    ensures Keeps(r, o.regs)
  {
    var o := AbsoluteAddress(mem, r, 0);
    if o.result.Err? then o else ReadAddress(mem, o.regs, o.result.value)
  }

  /**
   * `IndirectXAddress`: the zero-page byte plus X, as a byte, one cycle, then the word stored
   * there. The word's second byte is read from (ushort)(zp + 1), which for zp = 0xFF is 0x0100.
   */
  function IndirectXAddress(mem: Image, r: Regs): (o: Outcome<Word>)
    ensures Keeps(r, o.regs)
  {
    var b := FetchByte(mem, r);
    if b.result.Err? then Outcome(Err(b.result.error), b.regs) else
    ReadAddress(mem, Tick(b.regs, 1), ByteAdd(b.result.value, b.regs.x))
  }

  /** `IndirectYAddress`: the word at the zero-page byte, plus Y, cast to a byte. */
  function IndirectYAddress(mem: Image, r: Regs): (o: Outcome<Word>)
    ensures Keeps(r, o.regs)
  {
    var b := FetchByte(mem, r);
    if b.result.Err? then Outcome(Err(b.result.error), b.regs) else
    var p := ReadAddress(mem, b.regs, b.result.value);
    if p.result.Err? then p else IndexPointer(p.regs, p.result.value)
  }

  /** The last part of `IndirectYAddress`: `(byte)(pointer + Y)`, and the page check between the two. */
  function IndexPointer(r: Regs, pointer: Word): (o: Outcome<Word>)
    ensures Keeps(r, o.regs)
  {
    var target := (pointer + r.y) % 0x100;
    Outcome(Ok(target), CycleIfCrossedPageBoundary(r, pointer, target))
  }

  /** `ZeroPageAddress(offset)`: the fetched byte plus the offset, as a byte; one cycle if the offset is not 0. */
  function ZeroPageAddress(mem: Image, r: Regs, offset: Byte): (o: Outcome<Word>)
    ensures Keeps(r, o.regs)
  {
    var b := FetchByte(mem, r);
    if b.result.Err? then Outcome(Err(b.result.error), b.regs) else
    if offset > 0 then Outcome(Ok(ByteAdd(b.result.value, offset)), Tick(b.regs, 1))
    else Outcome(Ok(b.result.value), b.regs)
  }

  /** The `switch` of `FetchOperand` that resolves a memory mode to an address. */
  function ResolveAddress(mem: Image, r: Regs, mode: AddressingMode): (o: Outcome<Word>)
    ensures Keeps(r, o.regs)
  {
    match mode
    case Absolute => AbsoluteAddress(mem, r, 0)
    case AbsoluteX => AbsoluteAddress(mem, r, r.x)
    case AbsoluteY => AbsoluteAddress(mem, r, r.y)
    case Indirect => IndirectAddress(mem, r)
    case IndirectX => IndirectXAddress(mem, r)
    case IndirectY => IndirectYAddress(mem, r)
    case ZeroPage => ZeroPageAddress(mem, r, 0)
    case ZeroPageX => ZeroPageAddress(mem, r, r.x)
    case ZeroPageY => ZeroPageAddress(mem, r, r.y)
    case _ => Outcome(Err(UnknownAddressMode(mode)), r)
  }

  /** `FetchOperand(mode)`. */
  function FetchOperand(mem: Image, r: Regs, mode: AddressingMode): (o: Outcome<Byte>)
    ensures Keeps(r, o.regs)
  {
    if mode == Implied then Outcome(Err(ImpliedHasNoOperand), r)
    else if mode == Accumulator then Outcome(Ok(r.a), r)
    else if mode == Immediate then FetchByte(mem, r)
    else
      var address := ResolveAddress(mem, r, mode);
      if address.result.Err? then Outcome(Err(address.result.error), address.regs)
      else ReadByte(mem, address.regs, address.result.value)
  }

  /** `IsNthBitSet(value, n)`: `value & (1 << n)`, for bit indexes 0 to 7 only. */
  function IsNthBitSet(value: Byte, n: int): Result<bool, Fault>
  {
    if n < 0 || n > 7 then Err(BitIndexOutOfRange)
    else Ok((value as bv8) & ((1 as bv8) << n) != 0)
  }

  /** `IsNegative`: bit 7. */
  function IsNegative(value: Byte): bool
  {
    IsNthBitSet(value, 7).value
  }

  /** `SetNegativeAndZeroFlags`: N first, then Z. */
  function SetNegativeAndZeroFlags(status: bv8, value: Byte): bv8
  {
    Update(Update(status, Negative, IsNegative(value)), Zero, value == 0)
  }

  /** `ExecuteLda`: A takes the operand, N and Z follow it; A is left alone when the operand fetch throws. */
  function ExecuteLda(mem: Image, r: Regs, i: Instruction): Outcome<Operation>
  {
    var v := FetchOperand(mem, r, i.mode);
    if v.result.Err? then Outcome(Err(v.result.error), v.regs) else
    var value := v.result.value;
    Outcome(Ok(Operation(i, [value])),
            v.regs.(a := value, status := SetNegativeAndZeroFlags(v.regs.status, value)))
  }

  /**
   * `Execute`: the eight LDA opcodes run; every other named opcode has a `case` that only
   * breaks out to "Unknown opcode"; a byte that names no opcode reaches `default`.
   */
  function Execute(mem: Image, r: Regs, i: Instruction): Outcome<Operation>
  {
    if i.opcode in LdaOpcodes then ExecuteLda(mem, r, i)
    else if i.opcode in Named then Outcome(Err(UnknownOpcode(i.opcode)), r)
    else Outcome(Err(OpcodeOutOfRange(i.opcode)), r)
  }

  /** `Fetch`: the opcode byte at PC, looked up in the instruction set. */
  function Fetch(mem: Image, r: Regs, table: Table): Outcome<Instruction>
  {
    var b := FetchByte(mem, r);
    if b.result.Err? then Outcome(Err(b.result.error), b.regs)
    else if b.result.value in table then Outcome(Ok(table[b.result.value]), b.regs)
    else Outcome(Err(UnsupportedOpcode(b.result.value, r.pc)), b.regs)
  }

  /** `Step`: fetch, then execute. */
  function Step(mem: Image, r: Regs, table: Table): Outcome<Operation>
  {
    var i := Fetch(mem, r, table);
    if i.result.Err? then Outcome(Err(i.result.error), i.regs)
    else Execute(mem, i.regs, i.result.value)
  }

  /**
   * `Reset`: PC from the vector at 0xFFFC, SP = 0xFF, flags, A, X and Y cleared, then eight
   * more cycles. The cycle count is not reset.
   */
  function Reset(mem: Image, r: Regs): Outcome<()>
  {
    var v := ReadAddress(mem, r, 0xFFFC);
    if v.result.Err? then Outcome(Err(v.result.error), v.regs) else
    Outcome(Ok(()), Cycle(Regs(v.result.value, 0xFF, 0, 0, 0, 0, v.regs.cycles), 8))
  }

  /** `Interrupt` and `NonMaskableInterrupt` are not implemented: they throw and change nothing. */
  function InterruptEntry(r: Regs): Outcome<()>
  {
    Outcome(Err(NotImplemented), r)
  }
}
