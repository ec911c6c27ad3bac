/**
 * The addressing modes of Emulation/AddressingMode.cs: where an instruction finds its operand,
 * and the memory / indexed classification, checked against the markers the enum's documentation
 * puts on eight of the thirteen modes.
 */
module AddressingModes {
  import opened Bytes
  import opened Outcomes

  datatype AddressingMode =
    | Absolute | AbsoluteX | AbsoluteY
    | Accumulator | Immediate | Implied
    | Indirect | IndirectX | IndirectY
    | Relative
    | ZeroPage | ZeroPageX | ZeroPageY

  datatype IndexRegister = X | Y

  /** The class summary: every mode but Accumulator, Immediate and Implied accesses memory. */
  predicate IsMemory(m: AddressingMode)
  {
    m !in {Accumulator, Immediate, Implied}
  }

  /** The class summary: the indexed modes offset a base value by X or Y. */
  predicate IsIndexed(m: AddressingMode)
  {
    IndexOf(m).Some?
  }

  /** The register an indexed mode adds to its base; the mode name's suffix says which. */
  function IndexOf(m: AddressingMode): Option<IndexRegister>
  {
    match m
    case AbsoluteX | IndirectX | ZeroPageX => Some(X)
    case AbsoluteY | IndirectY | ZeroPageY => Some(Y)
    case _ => None
  }

  /** A memory / indexed classification of one mode. */
  datatype Classification = Classification(memory: bool, indexed: bool)

  /**
   * The classification a mode's own documentation marks it with, for the eight modes that
   * carry a marker; IndirectX, IndirectY, ZeroPage, ZeroPageX and ZeroPageY carry none.
   */
  function Documented(m: AddressingMode): Option<Classification>
  {
    match m
    case Absolute => Some(Classification(true, false))
    case AbsoluteX => Some(Classification(true, true))
    case AbsoluteY => Some(Classification(true, true))
    case Accumulator => Some(Classification(false, false))
    case Immediate => Some(Classification(false, false))
    case Implied => Some(Classification(false, false))
    case Indirect => Some(Classification(true, false))
    case Relative => Some(Classification(true, false))
    case IndirectX | IndirectY | ZeroPage | ZeroPageX | ZeroPageY => None
  }

  /**
   * The class summary agrees with the marker of every marked mode; Accumulator, Immediate and
   * Implied are exactly the non-memory modes.
   */
  lemma ClassificationAgrees(m: AddressingMode)
    ensures Documented(m).None? <==> m in {IndirectX, IndirectY, ZeroPage, ZeroPageX, ZeroPageY}
    ensures Documented(m).Some? ==>
      IsMemory(m) == Documented(m).value.memory && IsIndexed(m) == Documented(m).value.indexed
    ensures !IsMemory(m) <==> m == Accumulator || m == Immediate || m == Implied
  {
  }

  /** AbsoluteX and AbsoluteY are Absolute offset by X and by Y; both are indexed memory modes. */
  lemma AbsoluteIndexed()
    ensures IndexOf(AbsoluteX) == Some(X) && IndexOf(AbsoluteY) == Some(Y) && IndexOf(Absolute) == None
    ensures IsMemory(AbsoluteX) && IsIndexed(AbsoluteX) && IsMemory(AbsoluteY) && IsIndexed(AbsoluteY)
  {
  }

  /**
   * How many operand bytes follow the opcode: a 16-bit address for Absolute and Indirect, one
   * byte for Immediate, Relative and the zero-page modes, none for Accumulator and Implied.
   */
  function OperandLength(m: AddressingMode): nat
  {
    match m
    case Absolute | AbsoluteX | AbsoluteY | Indirect => 2
    case Immediate | Relative | ZeroPage | ZeroPageX | ZeroPageY | IndirectX | IndirectY => 1
    case Accumulator | Implied => 0
  }

  /** A mode with operand bytes reads them from memory or is Immediate; the others have none. */
  lemma OperandLengthByClass(m: AddressingMode)
    ensures OperandLength(m) == 0 <==> m == Accumulator || m == Implied
    ensures OperandLength(m) == 2 ==> IsMemory(m) && Documented(m).Some? && Documented(m).value.memory
  {
  }

  /** The target of a taken branch: PC plus the offset byte read as a signed number. */
  function RelativeTarget(pc: Word, offset: Byte): Word
  {
    WordAdd(pc, ToSByte(offset))
  }

  /**
   * A branch reaches at most 127 bytes forward or 128 bytes back, and every address in that
   * window is the target of exactly one offset byte.
   */
  lemma {:induction false} RelativeReach(pc: Word, target: Word)
    ensures (exists offset: Byte :: RelativeTarget(pc, offset) == target)
        <==> (exists d :: -128 <= d <= 127 && target == WordAdd(pc, d))
    ensures forall o1: Byte, o2: Byte :: RelativeTarget(pc, o1) == RelativeTarget(pc, o2) ==> o1 == o2
  {
    if d :| -128 <= d <= 127 && target == WordAdd(pc, d) {
      var offset := ToByte(d);
      assert ToSByte(offset) == d;
      assert RelativeTarget(pc, offset) == target;
    }
    forall o1: Byte, o2: Byte | RelativeTarget(pc, o1) == RelativeTarget(pc, o2)
      ensures o1 == o2
    {
      var d1, d2 := ToSByte(o1), ToSByte(o2);
      assert (pc + d1) % 0x1_0000 == (pc + d2) % 0x1_0000;
      assert ToByte(d1) == o1 && ToByte(d2) == o2;
    }
  }

  /** A zero-page operand byte b names the address $00bb: its high byte is always $00. */
  function ZeroPageTarget(b: Byte): (a: Word)
    ensures Hi(a) == 0 && Lo(a) == b
  {
    b
  }
}
