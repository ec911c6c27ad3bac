/**
 * What the processor's steps guarantee, stated over all memory images and registers: how far
 * each step moves PC, how many cycles it charges, which registers it leaves alone, and where it
 * throws.
 */
module ExecutionProperties {
  import opened Bytes
  import opened Outcomes
  import opened Opcodes
  import opened AddressingModes
  import opened StatusRegisters
  import opened Memories
  import opened InstructionSets
  import opened Execution

  /** A byte read succeeds everywhere but 0xFFFF, gives the cell, and costs one cycle; a failed read costs none. */
  lemma ReadByteSpec(mem: Image, r: Regs, a: Word)
    ensures ReadByte(mem, r, a).result.Ok? <==> a != 0xFFFF
    ensures a != 0xFFFF ==> ReadByte(mem, r, a) == Outcome(Ok(mem[a]), r.(cycles := r.cycles + 1))
    ensures a == 0xFFFF ==> ReadByte(mem, r, a) == Outcome(Err(AddressOutOfRange), r)
  {
  }

  /**
   * FetchByte returns the byte at the old PC, moves PC on by one and charges one cycle. At
   * PC = 0xFFFF the read throws after PC has already wrapped to 0, and no cycle is charged.
   */
  lemma FetchByteSpec(mem: Image, r: Regs)
    ensures r.pc != 0xFFFF ==>
      FetchByte(mem, r) == Outcome(Ok(mem[r.pc]), r.(pc := r.pc + 1, cycles := r.cycles + 1))
    ensures r.pc == 0xFFFF ==>
      FetchByte(mem, r) == Outcome(Err(AddressOutOfRange), r.(pc := 0))
  {
  }

  /**
   * ReadAddress agrees with the memory's little-endian `ReadWord` and costs four cycles in
   * all: one per byte read and two more. It never moves PC.
   */
  lemma ReadAddressSpec(mem: Image, r: Regs, a: Word)
    ensures ReadAddress(mem, r, a).result.Ok? <==> PeekWord(mem, a).Some?
    ensures PeekWord(mem, a).Some? ==>
      ReadAddress(mem, r, a) == Outcome(Ok(PeekWord(mem, a).value), r.(cycles := r.cycles + 4))
    ensures a == 0xFFFE ==> ReadAddress(mem, r, a) == Outcome(Err(AddressOutOfRange), r.(cycles := r.cycles + 1))
    ensures a == 0xFFFF ==> ReadAddress(mem, r, a) == Outcome(Err(AddressOutOfRange), r)
  {
    WordLittleEndian(mem, a);
  }

  /** FetchAddress reads the word at PC and then, only then, moves PC on by two. */
  lemma FetchAddressSpec(mem: Image, r: Regs)
    ensures r.pc <= 0xFFFD ==>
      FetchAddress(mem, r) ==
        Outcome(Ok(MakeWord(mem[r.pc], mem[r.pc + 1])), r.(pc := WordAdd(r.pc, 2), cycles := r.cycles + 4))
    ensures r.pc > 0xFFFD ==> FetchAddress(mem, r).result.Err? && FetchAddress(mem, r).regs.pc == r.pc
  {
    ReadAddressSpec(mem, r, r.pc);
    WordLittleEndian(mem, r.pc);
  }

  /** `(from ^ to) >> 8` is positive exactly when the two addresses lie on different pages. */
  lemma PageOffsetSpec(from: Word, to: Word)
    ensures PageOffset(from, to) > 0 <==> Hi(from) != Hi(to)
  {
    XorShift8(from, to);
    XorZero(Hi(from), Hi(to));
  }

  /**
   * AbsoluteX and AbsoluteY: the word after the opcode plus the index, modulo 2^16, with one
   * extra cycle exactly when the index is not 0 and the sum lands on another page.
   */
  lemma AbsoluteAddressSpec(mem: Image, r: Regs, offset: Byte)
    requires r.pc <= 0xFFFD
    ensures var base := MakeWord(mem[r.pc], mem[r.pc + 1]);
      var target := WordAdd(base, offset);
      AbsoluteAddress(mem, r, offset) ==
        Outcome(Ok(target),
                r.(pc := WordAdd(r.pc, 2),
                   cycles := r.cycles + 4 + if offset != 0 && Hi(base) != Hi(target) then 1 else 0))
  {
    FetchAddressSpec(mem, r);
    var base := MakeWord(mem[r.pc], mem[r.pc + 1]);
    var target := WordAdd(base, offset);
    var fetched := r.(pc := WordAdd(r.pc, 2), cycles := r.cycles + 4);
    assert FetchAddress(mem, r) == Outcome(Ok(base), fetched);
    if offset != 0 {
      PageOffsetSpec(base, target);
      assert AbsoluteAddress(mem, r, offset) ==
        Outcome(Ok(target), CycleIfCrossedPageBoundary(fetched, base, target));
      var extra := if Hi(base) != Hi(target) then 1 else 0;
      assert CycleIfCrossedPageBoundary(fetched, base, target) == fetched.(cycles := fetched.cycles + extra);
    } else {
      assert target == base;
    }
  }

  /**
   * Indirect: the word stored at the absolute address after the opcode, read in eight cycles
   * (four for each word) with PC moved on by two. A pointer at 0xFFFE or 0xFFFF makes the
   * second read throw, after PC has moved and with the cycles of the reads done so far; an
   * opcode too close to the end makes the first read throw, with PC unmoved.
   */
  lemma IndirectAddressSpec(mem: Image, r: Regs)
    ensures r.pc > 0xFFFD ==>
      IndirectAddress(mem, r).result.Err? && IndirectAddress(mem, r).regs.pc == r.pc
    ensures r.pc <= 0xFFFD ==>
      var base := MakeWord(mem[r.pc], mem[r.pc + 1]);
      base <= 0xFFFD ==>
        IndirectAddress(mem, r) ==
          Outcome(Ok(MakeWord(mem[base], mem[base + 1])), r.(pc := r.pc + 2, cycles := r.cycles + 8))
    ensures r.pc <= 0xFFFD ==>
      var base := MakeWord(mem[r.pc], mem[r.pc + 1]);
      base > 0xFFFD ==>
        IndirectAddress(mem, r) ==
          Outcome(Err(AddressOutOfRange),
                  r.(pc := r.pc + 2, cycles := r.cycles + 4 + if base == 0xFFFE then 1 else 0))
  {
    FetchAddressSpec(mem, r);
    if r.pc <= 0xFFFD {
      var base := MakeWord(mem[r.pc], mem[r.pc + 1]);
      var fetched := r.(pc := r.pc + 2, cycles := r.cycles + 4);
      AbsoluteAddressSpec(mem, r, 0);
      assert AbsoluteAddress(mem, r, 0) == Outcome(Ok(base), fetched);
      ReadAddressSpec(mem, fetched, base);
      WordLittleEndian(mem, base);
    }
  }

  /**
   * ZeroPage, ZeroPageX and ZeroPageY: the byte after the opcode plus the index, wrapped
   * inside page zero, with one extra cycle exactly when the index is not 0.
   */
  lemma ZeroPageAddressSpec(mem: Image, r: Regs, offset: Byte)
    requires r.pc != 0xFFFF
    ensures ZeroPageAddress(mem, r, offset) ==
      Outcome(Ok((mem[r.pc] + offset) % 0x100),
              r.(pc := r.pc + 1, cycles := r.cycles + 1 + if offset != 0 then 1 else 0))
    ensures ZeroPageAddress(mem, r, offset).result.value == ZeroPageTarget((mem[r.pc] + offset) % 0x100)
    ensures Hi(ZeroPageAddress(mem, r, offset).result.value) == 0
  {
    FetchByteSpec(mem, r);
  }

  /**
   * IndirectX: the pointer is read at (zp + X) modulo 256 and the byte after it, in six cycles.
   * The byte after is not wrapped into page zero: for a pointer at 0xFF it comes from 0x0100.
   */
  lemma IndirectXAddressSpec(mem: Image, r: Regs)
    requires r.pc != 0xFFFF
    ensures var zp := (mem[r.pc] + r.x) % 0x100;
      IndirectXAddress(mem, r) ==
        Outcome(Ok(MakeWord(mem[zp], mem[zp + 1])), r.(pc := r.pc + 1, cycles := r.cycles + 6))
    ensures (mem[r.pc] + r.x) % 0x100 == 0xFF ==>
      IndirectXAddress(mem, r).result.value == MakeWord(mem[0xFF], mem[0x100])
  {
    FetchByteSpec(mem, r);
    var zp := (mem[r.pc] + r.x) % 0x100;
    ReadAddressSpec(mem, r.(pc := r.pc + 1, cycles := r.cycles + 2), zp);
    WordLittleEndian(mem, zp);
  }

  /** `(byte)(pointer + Y)` lies in page zero, so the page check charges a cycle exactly for a pointer outside it. */
  lemma IndexPointerSpec(r: Regs, pointer: Word)
    ensures IndexPointer(r, pointer) ==
      Outcome(Ok((pointer + r.y) % 0x100), r.(cycles := r.cycles + if Hi(pointer) != 0 then 1 else 0))
  {
    PageOffsetSpec(pointer, (pointer + r.y) % 0x100);
  }

  /**
   * IndirectY as written: the pointer plus Y is cast to a byte, so the address is always in
   * page zero, and the extra cycle is charged exactly when the pointer itself is outside page
   * zero.
   */
  lemma IndirectYAddressSpec(mem: Image, r: Regs)
    requires r.pc != 0xFFFF
    ensures var zp := mem[r.pc];
      var p := MakeWord(mem[zp], mem[zp + 1]);
      IndirectYAddress(mem, r) ==
        Outcome(Ok((p + r.y) % 0x100),
                r.(pc := r.pc + 1, cycles := r.cycles + 5 + if Hi(p) != 0 then 1 else 0))
    ensures Hi(IndirectYAddress(mem, r).result.value) == 0
  {
    FetchByteSpec(mem, r);
    var zp := mem[r.pc];
    var p := MakeWord(mem[zp], mem[zp + 1]);
    var fetched := r.(pc := r.pc + 1, cycles := r.cycles + 1);
    ReadAddressSpec(mem, fetched, zp);
    WordLittleEndian(mem, zp);
    var read := fetched.(cycles := fetched.cycles + 4);
    assert ReadAddress(mem, fetched, zp) == Outcome(Ok(p), read);
    IndexPointerSpec(read, p);
  }

  /**
   * The modes with no memory operand: Implied and Relative throw without touching a register,
   * Accumulator returns A without moving PC or charging a cycle, and Immediate is FetchByte.
   */
  lemma FetchOperandNonMemory(mem: Image, r: Regs)
    ensures FetchOperand(mem, r, Implied) == Outcome(Err(ImpliedHasNoOperand), r)
    ensures FetchOperand(mem, r, Relative) == Outcome(Err(UnknownAddressMode(Relative)), r)
    ensures FetchOperand(mem, r, Accumulator) == Outcome(Ok(r.a), r)
    ensures FetchOperand(mem, r, Immediate) == FetchByte(mem, r)
  {
  }

  /**
   * A successful operand fetch has consumed exactly the mode's operand bytes: PC has moved on
   * by `OperandLength(mode)`.
   */
  lemma {:induction false} FetchOperandAdvance(mem: Image, r: Regs, mode: AddressingMode)
    ensures FetchOperand(mem, r, mode).result.Ok? ==>
      FetchOperand(mem, r, mode).regs.pc == WordAdd(r.pc, OperandLength(mode))
  {
    match mode {
      case Absolute | AbsoluteX | AbsoluteY =>
        if r.pc <= 0xFFFD {
          AbsoluteAddressSpec(mem, r, if mode == Absolute then 0 else if mode == AbsoluteX then r.x else r.y);
        }
      case Indirect =>
        if r.pc <= 0xFFFD {
          AbsoluteAddressSpec(mem, r, 0);
        }
      case IndirectX =>
        if r.pc != 0xFFFF {
          IndirectXAddressSpec(mem, r);
        }
      case IndirectY =>
        if r.pc != 0xFFFF {
          IndirectYAddressSpec(mem, r);
        }
      case ZeroPage | ZeroPageX | ZeroPageY =>
        if r.pc != 0xFFFF {
          ZeroPageAddressSpec(mem, r, if mode == ZeroPage then 0 else if mode == ZeroPageX then r.x else r.y);
        }
      case _ =>
    }
  }

  /** Binary digit n of a natural number: 0 is the least significant digit. */
  function BinaryDigit(value: nat, n: nat): (d: nat)
    ensures d < 2
  {
    if n == 0 then value % 2 else BinaryDigit(value / 2, n - 1)
  }

  /** Converting a byte to eight bits and back gives the byte again. The case split keeps
      each solver query to eight values. */
  lemma ByteBits(value: Byte)
    ensures (value as bv8) as int == value
  {
    if value < 8 { } else if value < 16 { } else if value < 24 { } else if value < 32 { }
    else if value < 40 { } else if value < 48 { } else if value < 56 { } else if value < 64 { }
    else if value < 72 { } else if value < 80 { } else if value < 88 { } else if value < 96 { }
    else if value < 104 { } else if value < 112 { } else if value < 120 { } else if value < 128 { }
    else if value < 136 { } else if value < 144 { } else if value < 152 { } else if value < 160 { }
    else if value < 168 { } else if value < 176 { } else if value < 184 { } else if value < 192 { }
    else if value < 200 { } else if value < 208 { } else if value < 216 { } else if value < 224 { }
    else if value < 232 { } else if value < 240 { } else if value < 248 { } else { }
  }

  /** Shifting right by one halves the number the bits stand for. */
  lemma HalfBits(v: bv8)
    ensures (v >> 1) as int == v as int / 2
  {
  }

  /** Bit n of v is bit n - 1 of v shifted right by one. */
  lemma ShiftedBit(v: bv8, n: nat)
    requires 1 <= n <= 7
    ensures (v & ((1 as bv8) << n) != 0) == ((v >> 1) & ((1 as bv8) << (n - 1)) != 0)
  {
  }

  /** The low bit is set exactly when the number is odd. */
  lemma LowBit(v: bv8)
    ensures (v & 1 != 0) == (v as int % 2 == 1)
  {
  }

  /** `v & (1 << n)` is not 0 exactly when binary digit n of the number v stands for is 1. */
  lemma {:induction false} BitOf(v: bv8, n: nat)
    requires n <= 7
    ensures (v & ((1 as bv8) << n) != 0) == (BinaryDigit(v as int, n) == 1)
  {
    if n == 0 {
      LowBit(v);
    } else {
      ShiftedBit(v, n);
      HalfBits(v);
      BitOf(v >> 1, n - 1);
    }
  }

  /** Binary digit 7 of a byte is 1 exactly when the byte is 0x80 or more. */
  lemma TopDigit(value: Byte)
    ensures BinaryDigit(value, 7) == 1 <==> value >= 0x80
  {
    var v1 := value / 2;
    var v2 := v1 / 2;
    var v3 := v2 / 2;
    var v4 := v3 / 2;
    var v5 := v4 / 2;
    var v6 := v5 / 2;
    var v7 := v6 / 2;
    assert BinaryDigit(value, 7) == BinaryDigit(v1, 6) == BinaryDigit(v2, 5) == BinaryDigit(v3, 4);
    assert BinaryDigit(v3, 4) == BinaryDigit(v4, 3) == BinaryDigit(v5, 2) == BinaryDigit(v6, 1);
    assert BinaryDigit(v6, 1) == BinaryDigit(v7, 0);
    assert v7 == value / 128;
  }

  /** `IsNthBitSet` throws exactly for bit indexes outside 0..7 and otherwise reads binary digit n. */
  lemma IsNthBitSetSpec(value: Byte, n: int)
    ensures IsNthBitSet(value, n).Ok? <==> 0 <= n <= 7
    ensures 0 <= n <= 7 ==> IsNthBitSet(value, n) == Ok(BinaryDigit(value, n) == 1)
    ensures n == 0 ==> IsNthBitSet(value, n) == Ok(value % 2 == 1)
    ensures n == 7 ==> IsNthBitSet(value, n) == Ok(value >= 0x80)
  {
    if 0 <= n <= 7 {
      ByteBits(value);
      BitOf(value as bv8, n);
      if n == 7 {
        TopDigit(value);
      }
    }
  }

  /** A byte is negative exactly when it is 0x80 or more. */
  lemma IsNegativeSpec(value: Byte)
    ensures IsNegative(value) <==> value >= 0x80
  {
    IsNthBitSetSpec(value, 7);
  }

  /** N becomes bit 7 of the value and Z becomes "the value is 0"; every other flag is kept. */
  lemma SetNegativeAndZeroFlagsSpec(status: bv8, value: Byte)
    ensures HasFlag(SetNegativeAndZeroFlags(status, value), Negative) <==> value >= 0x80
    ensures HasFlag(SetNegativeAndZeroFlags(status, value), Zero) <==> value == 0
    ensures forall f :: f != Negative && f != Zero ==>
      HasFlag(SetNegativeAndZeroFlags(status, value), f) == HasFlag(status, f)
  {
    IsNegativeSpec(value);
  }

  /**
   * Execute runs only the eight LDA opcodes. Every other opcode throws without touching a
   * register: "unknown opcode" when the byte names an opcode, out of range when it does not.
   */
  lemma ExecuteDispatch(mem: Image, r: Regs, i: Instruction)
    ensures i.opcode in LdaOpcodes ==> Execute(mem, r, i) == ExecuteLda(mem, r, i)
    ensures i.opcode !in LdaOpcodes ==> Execute(mem, r, i).result.Err? && Execute(mem, r, i).regs == r
    ensures i.opcode !in LdaOpcodes && i.opcode in Named ==> Execute(mem, r, i).result.error == UnknownOpcode(i.opcode)
    ensures i.opcode in Unnamed ==> Execute(mem, r, i).result.error == OpcodeOutOfRange(i.opcode)
  {
    LdaEncodings();
  }

  /**
   * LDA loads the operand into A and sets N and Z from it; the operation records the operand.
   * When the operand fetch throws, A and the flags keep their old values.
   */
  lemma ExecuteLdaSpec(mem: Image, r: Regs, i: Instruction)
    ensures var v := FetchOperand(mem, r, i.mode);
      v.result.Ok? ==>
        ExecuteLda(mem, r, i).result == Ok(Operation(i, [v.result.value])) &&
        ExecuteLda(mem, r, i).regs.a == v.result.value &&
        (HasFlag(ExecuteLda(mem, r, i).regs.status, Negative) <==> v.result.value >= 0x80) &&
        (HasFlag(ExecuteLda(mem, r, i).regs.status, Zero) <==> v.result.value == 0)
    ensures FetchOperand(mem, r, i.mode).result.Err? ==>
      ExecuteLda(mem, r, i).result.Err? && ExecuteLda(mem, r, i).regs.a == r.a &&
      ExecuteLda(mem, r, i).regs.status == r.status
  {
    FetchOperandAdvance(mem, r, i.mode);
    var v := FetchOperand(mem, r, i.mode);
    if v.result.Ok? {
      SetNegativeAndZeroFlagsSpec(v.regs.status, v.result.value);
    }
  }

  /**
   * An opcode byte the instruction set does not hold: Step throws "unsupported opcode" naming
   * the byte and its address, after moving PC past it and charging its one cycle.
   */
  lemma StepUnsupported(mem: Image, r: Regs, table: Table)
    requires r.pc != 0xFFFF && mem[r.pc] !in table
    ensures Step(mem, r, table) ==
      Outcome(Err(UnsupportedOpcode(mem[r.pc], r.pc)), r.(pc := r.pc + 1, cycles := r.cycles + 1))
  {
    FetchByteSpec(mem, r);
  }

  /**
   * LDA immediate on the 6502 set: A takes the byte after the opcode, N and Z follow it, the
   * other flags and registers are kept, PC moves on by two and two cycles are charged.
   */
  lemma StepLdaImmediate(mem: Image, r: Regs)
    requires r.pc <= 0xFFFD && mem[r.pc] == LdaImm
    ensures var v := mem[r.pc + 1];
      Step(mem, r, Mos6502Table) ==
        Outcome(Ok(Operation(Instruction(LdaImm, Immediate), [v])),
                r.(pc := r.pc + 2, a := v, status := SetNegativeAndZeroFlags(r.status, v),
                   cycles := r.cycles + 2))
  {
    FetchByteSpec(mem, r);
    FetchByteSpec(mem, r.(pc := r.pc + 1, cycles := r.cycles + 1));
    LdaEncodings();
  }

  /** With the 6502 set, a step succeeds only on the LDA immediate opcode. */
  lemma Mos6502StepsOnlyLdaImmediate(mem: Image, r: Regs)
    ensures Step(mem, r, Mos6502Table).result.Ok? ==> r.pc != 0xFFFF && mem[r.pc] == LdaImm
  {
    FetchByteSpec(mem, r);
    if r.pc != 0xFFFF {
      Mos6502TableContents(mem[r.pc]);
    }
  }

  /**
   * Reset never throws: PC comes from the little-endian vector at 0xFFFC, SP is 0xFF, A, X, Y
   * and every flag are 0, and twelve cycles are added: four for the vector read and eight more.
   */
  lemma ResetSpec(mem: Image, r: Regs)
    ensures Reset(mem, r) ==
      Outcome(Ok(()), Regs(MakeWord(mem[0xFFFC], mem[0xFFFD]), 0xFF, 0, 0, 0, 0, r.cycles + 12))
    ensures forall f :: !HasFlag(Reset(mem, r).regs.status, f)
  {
    ReadAddressSpec(mem, r, 0xFFFC);
    WordLittleEndian(mem, 0xFFFC);
    forall f ensures !HasFlag(0, f) {
      NoneHasNoFlag(f);
    }
  }

  /** A second Reset gives the same registers again, twelve cycles later. */
  lemma ResetTwice(mem: Image, r: Regs)
    ensures var once := Reset(mem, r).regs;
      Reset(mem, once).regs == once.(cycles := once.cycles + 12)
  {
    ResetSpec(mem, r);
    ResetSpec(mem, Reset(mem, r).regs);
  }

  /** The interrupt entry points throw and change nothing. */
  lemma InterruptsNotImplemented(r: Regs)
    ensures InterruptEntry(r).result == Err(NotImplemented) && InterruptEntry(r).regs == r
  {
  }
}
