/**
 * The opcode byte encoding of the 6502 (Emulation/Opcode.cs): the 151 named members of the
 * `Opcode : byte` enum, how they cover the 256 byte values, and the flag-effect table that the
 * enum's comments document for each instruction mnemonic.
 */
module Opcodes {
  import opened Bytes

  /**
   * A value of the enum is its byte. The enum is backed by `byte`, so a cast such as
   * `(Opcode)FetchByte()` can produce any of the 256 values, named or not.
   */
  type Opcode = Byte


  // ADC
  const AdcImm: Opcode := 0x69
  const AdcZp: Opcode := 0x65
  const AdcZpX: Opcode := 0x75
  const AdcAbs: Opcode := 0x6D
  const AdcAbsX: Opcode := 0x7D
  const AdcAbsY: Opcode := 0x79
  const AdcIndX: Opcode := 0x61
  const AdcIndY: Opcode := 0x71

  // AND
  const AndImm: Opcode := 0x29
  const AndZp: Opcode := 0x25
  const AndZpX: Opcode := 0x35
  const AndAbs: Opcode := 0x2D
  const AndAbsX: Opcode := 0x3D
  const AndAbsY: Opcode := 0x39
  const AndIndX: Opcode := 0x21
  const AndIndY: Opcode := 0x31

  // ASL
  const AslA: Opcode := 0x0A
  const AslZp: Opcode := 0x06
  const AslZpX: Opcode := 0x16
  const AslAbs: Opcode := 0x0E
  const AslAbsX: Opcode := 0x1E

  // BCC
  const Bcc: Opcode := 0x90

  // BCS
  const Bcs: Opcode := 0xB0

  // BEQ
  const Beq: Opcode := 0xF0

  // BIT
  const BitZp: Opcode := 0x24
  const BitAbs: Opcode := 0x2C

  // BMI
  const Bmi: Opcode := 0x30

  // BNE
  const Bne: Opcode := 0xD0

  // BPL
  const Bpl: Opcode := 0x10

  // BRK
  const Brk: Opcode := 0x00

  // BVS
  const Bvs: Opcode := 0x70

  // BVC
  const Bvc: Opcode := 0x50

  // CLC
  const Clc: Opcode := 0x18

  // CLD
  const Cld: Opcode := 0xD8

  // CLI
  const Cli: Opcode := 0x58

  // CLV
  const Clv: Opcode := 0xB8

  // CMP
  const CmpImm: Opcode := 0xC9
  const CmpZp: Opcode := 0xC5
  const CmpZpX: Opcode := 0xD5
  const CmpAbs: Opcode := 0xCD
  const CmpAbsX: Opcode := 0xDD
  const CmpAbsY: Opcode := 0xD9
  const CmpIndX: Opcode := 0xC1
  const CmpIndY: Opcode := 0xD1

  // CPX
  const CpxImm: Opcode := 0xE0
  const CpxZp: Opcode := 0xE4
  const CpxAbs: Opcode := 0xEC

  // CPY
  const CpyImm: Opcode := 0xC0
  const CpyZp: Opcode := 0xC4
  const CpyAbs: Opcode := 0xCC

  // DEC
  const DecZp: Opcode := 0xC6
  const DecZpX: Opcode := 0xD6
  const DecAbs: Opcode := 0xCE
  const DecAbsX: Opcode := 0xDE

  // DEX
  const Dex: Opcode := 0xCA

  // DEY
  const Dey: Opcode := 0x88

  // EOR
  const EorImm: Opcode := 0x49
  const EorZp: Opcode := 0x45
  const EorZpX: Opcode := 0x55
  const EorAbs: Opcode := 0x4D
  const EorAbsX: Opcode := 0x5D
  const EorAbsY: Opcode := 0x59
  const EorIndX: Opcode := 0x41
  const EorIndY: Opcode := 0x51

  // INC
  const IncZp: Opcode := 0xE6
  const IncZpX: Opcode := 0xF6
  const IncAbs: Opcode := 0xEE
  const IncAbsX: Opcode := 0xFE

  // INX
  const IndX: Opcode := 0xE8

  // INY
  const IndY: Opcode := 0xC8

  // JMP
  const JmpAbs: Opcode := 0x4C
  const JmpInd: Opcode := 0x6C

  // JSR
  const Jsr: Opcode := 0x20

  // LDA
  const LdaAbs: Opcode := 0xAD
  const LdaAbsX: Opcode := 0xBD
  const LdaAbsY: Opcode := 0xB9
  const LdaImm: Opcode := 0xA9
  const LdaIndX: Opcode := 0xA1
  const LdaIndY: Opcode := 0xB1
  const LdaZp: Opcode := 0xA5
  const LdaZpX: Opcode := 0xB5

  // LDX
  const LdxImm: Opcode := 0xA2
  const LdxZp: Opcode := 0xA6
  const LdxZpY: Opcode := 0xB6
  const LdxAbs: Opcode := 0xAE
  const LdxAbsY: Opcode := 0xBE

  // LDY
  const LdyImm: Opcode := 0xA0
  const LdyZp: Opcode := 0xA4
  const LdyZpX: Opcode := 0xB4
  const LdyAbs: Opcode := 0xAC
  const LdyAbsX: Opcode := 0xBC

  // LSR
  const LsrA: Opcode := 0x4A
  const LsrZp: Opcode := 0x46
  const LsrZpX: Opcode := 0x56
  const LsrAbs: Opcode := 0x4E
  const LsrAbsX: Opcode := 0x5E

  // NOP
  const Nop: Opcode := 0xEA

  // ORA
  const OraImm: Opcode := 0x09
  const OraZp: Opcode := 0x05
  const OraZpX: Opcode := 0x15
  const OraAbs: Opcode := 0x0D
  const OraAbsX: Opcode := 0x1D
  const OraAbsY: Opcode := 0x19
  const OraIndX: Opcode := 0x01
  const OraIndY: Opcode := 0x11

  // PHA
  const Pha: Opcode := 0x48

  // PHP
  const Php: Opcode := 0x08

  // PLA
  const Pla: Opcode := 0x68

  // PLP
  const Plp: Opcode := 0x28

  // ROL
  const RolA: Opcode := 0x2A
  const RolZp: Opcode := 0x26
  const RolZpX: Opcode := 0x36
  const RolAbs: Opcode := 0x2E
  const RolAbsX: Opcode := 0x3E

  // ROR
  const RorA: Opcode := 0x6A
  const RorZp: Opcode := 0x66
  const RorZpX: Opcode := 0x76
  const RorAbs: Opcode := 0x6E
  const RorAbsX: Opcode := 0x7E

  // RTI
  const Rti: Opcode := 0x40

  // RTS
  const Rts: Opcode := 0x60

  // SBC
  const SbcImm: Opcode := 0xE9
  const SbcZp: Opcode := 0xE5
  const SbcZpX: Opcode := 0xF5
  const SbcAbs: Opcode := 0xED
  const SbcAbsX: Opcode := 0xFD
  const SbcAbsY: Opcode := 0xF9
  const SbcIndX: Opcode := 0xE1
  const SbcIndY: Opcode := 0xF1

  // SEC
  const Sec: Opcode := 0x38

  // SED
  const Sed: Opcode := 0xF8

  // SEI
  const Sei: Opcode := 0x78

  // STA
  const StaZp: Opcode := 0x85
  const StaZpX: Opcode := 0x95
  const StaAbs: Opcode := 0x8D
  const StaAbsX: Opcode := 0x9D
  const StaAbsY: Opcode := 0x99
  const StaIndX: Opcode := 0x81
  const StaIndY: Opcode := 0x91

  // STX
  const StxZp: Opcode := 0x86
  const StxZpY: Opcode := 0x96
  const StxAbs: Opcode := 0x8E

  // STY
  const StyZp: Opcode := 0x84
  const StyZpY: Opcode := 0x94
  const StyAbs: Opcode := 0x8C

  // TAX
  const Tax: Opcode := 0xAA

  // TAY
  const Tay: Opcode := 0xA8

  // TSX
  const Tsx: Opcode := 0xBA

  // TXA
  const Txa: Opcode := 0x8A

  // TXS
  const Txs: Opcode := 0x9A

  // TYA
  const Tya: Opcode := 0x98

  /*
   * Row k of the opcode matrix lists, in byte order, the named members whose byte has high
   * nibble k. Each of the 151 named members above is listed in exactly one row.
   */
  const Row0: seq<Opcode> := [Brk, OraIndX, OraZp, AslZp, Php, OraImm, AslA, OraAbs, AslAbs]
  const Row1: seq<Opcode> := [Bpl, OraIndY, OraZpX, AslZpX, Clc, OraAbsY, OraAbsX, AslAbsX]
  const Row2: seq<Opcode> := [Jsr, AndIndX, BitZp, AndZp, RolZp, Plp, AndImm, RolA, BitAbs, AndAbs, RolAbs]
  const Row3: seq<Opcode> := [Bmi, AndIndY, AndZpX, RolZpX, Sec, AndAbsY, AndAbsX, RolAbsX]
  const Row4: seq<Opcode> := [Rti, EorIndX, EorZp, LsrZp, Pha, EorImm, LsrA, JmpAbs, EorAbs, LsrAbs]
  const Row5: seq<Opcode> := [Bvc, EorIndY, EorZpX, LsrZpX, Cli, EorAbsY, EorAbsX, LsrAbsX]
  const Row6: seq<Opcode> := [Rts, AdcIndX, AdcZp, RorZp, Pla, AdcImm, RorA, JmpInd, AdcAbs, RorAbs]
  const Row7: seq<Opcode> := [Bvs, AdcIndY, AdcZpX, RorZpX, Sei, AdcAbsY, AdcAbsX, RorAbsX]
  const Row8: seq<Opcode> := [StaIndX, StyZp, StaZp, StxZp, Dey, Txa, StyAbs, StaAbs, StxAbs]
  const Row9: seq<Opcode> := [Bcc, StaIndY, StyZpY, StaZpX, StxZpY, Tya, StaAbsY, Txs, StaAbsX]
  const Row10: seq<Opcode> := [LdyImm, LdaIndX, LdxImm, LdyZp, LdaZp, LdxZp, Tay, LdaImm, Tax, LdyAbs, LdaAbs, LdxAbs]
  const Row11: seq<Opcode> := [Bcs, LdaIndY, LdyZpX, LdaZpX, LdxZpY, Clv, LdaAbsY, Tsx, LdyAbsX, LdaAbsX, LdxAbsY]
  const Row12: seq<Opcode> := [CpyImm, CmpIndX, CpyZp, CmpZp, DecZp, IndY, CmpImm, Dex, CpyAbs, CmpAbs, DecAbs]
  const Row13: seq<Opcode> := [Bne, CmpIndY, CmpZpX, DecZpX, Cld, CmpAbsY, CmpAbsX, DecAbsX]
  const Row14: seq<Opcode> := [CpxImm, SbcIndX, CpxZp, SbcZp, IncZp, IndX, SbcImm, Nop, CpxAbs, SbcAbs, IncAbs]
  const Row15: seq<Opcode> := [Beq, SbcIndY, SbcZpX, IncZpX, Sed, SbcAbsY, SbcAbsX, IncAbsX]

  /** Every named member of the enum, in byte order. */
  const Named: seq<Opcode> :=
    Row0 + Row1 + Row2 + Row3 + Row4 + Row5 + Row6 + Row7 +
    Row8 + Row9 + Row10 + Row11 + Row12 + Row13 + Row14 + Row15

  /** The integers 0 to n - 1. */
  function Below(n: nat): (r: set<int>)
    ensures forall b :: b in r <==> 0 <= b < n
  {
    if n == 0 then {} else Below(n - 1) + {n - 1}
  }

  /** The byte values the enum gives no name. */
  const Unnamed: set<int> := set b | b in Below(0x100) && b !in Named

  /** The opcodes whose case labels lead to `ExecuteLda` in `Processor.Execute`. */
  const LdaOpcodes: set<Opcode> := {LdaAbs, LdaImm, LdaAbsX, LdaAbsY, LdaZp, LdaZpX, LdaIndX, LdaIndY}

  predicate Increasing(s: seq<int>)
  {
    forall i, j :: 0 <= i < j < |s| ==> s[i] < s[j]
  }

  /** Row k: each entry above the one before it, and all of them with high nibble k. */
  predicate RowShape(r: seq<int>, k: nat)
  {
    && (forall i :: 0 < i < |r| ==> r[i - 1] < r[i])
    && (forall i :: 0 <= i < |r| ==> 16 * k <= r[i] < 16 * k + 16)
  }


  lemma RowShapes0And1()
    ensures RowShape(Row0, 0)
    ensures RowShape(Row1, 1)
  {
  }

  lemma RowShapes2And3()
    ensures RowShape(Row2, 2)
    ensures RowShape(Row3, 3)
  {
  }

  lemma RowShapes4And5()
    ensures RowShape(Row4, 4)
    ensures RowShape(Row5, 5)
  {
  }

  lemma RowShapes6And7()
    ensures RowShape(Row6, 6)
    ensures RowShape(Row7, 7)
  {
  }

  lemma RowShapes8And9()
    ensures RowShape(Row8, 8)
    ensures RowShape(Row9, 9)
  {
  }

  lemma RowShapes10And11()
    ensures RowShape(Row10, 10)
    ensures RowShape(Row11, 11)
  {
  }

  lemma RowShapes12And13()
    ensures RowShape(Row12, 12)
    ensures RowShape(Row13, 13)
  {
  }

  lemma RowShapes14And15()
    ensures RowShape(Row14, 14)
    ensures RowShape(Row15, 15)
  {
  }


  lemma {:induction false} StepsIncreasing(r: seq<int>)
    requires forall i :: 0 < i < |r| ==> r[i - 1] < r[i]
    ensures Increasing(r)
  {
    if |r| > 1 {
      var t := r[..|r| - 1];
      StepsIncreasing(t);
      forall i | 0 <= i < |r| - 1
        ensures r[i] < r[|r| - 1]
      {
        assert t[i] <= t[|t| - 1];
      }
    }
  }

  /** Appending row k to the rows before it keeps the sequence increasing. */
  lemma AppendRow(s: seq<int>, r: seq<int>, k: nat)
    requires Increasing(s) && forall i :: 0 <= i < |s| ==> s[i] < 16 * k
    requires RowShape(r, k)
    ensures Increasing(s + r) && forall i :: 0 <= i < |s + r| ==> (s + r)[i] < 16 * (k + 1)
  {
    StepsIncreasing(r);
  }

  /** The named members, in byte order, strictly increase: no two of them share a byte. */
  lemma NamedIncreasing()
    ensures |Named| == 151 && Increasing(Named)
  {
    RowShapes0And1();
    RowShapes2And3();
    RowShapes4And5();
    RowShapes6And7();
    RowShapes8And9();
    RowShapes10And11();
    RowShapes12And13();
    RowShapes14And15();
    StepsIncreasing(Row0);
    AppendRow(Row0, Row1, 1);
    AppendRow(Row0 + Row1, Row2, 2);
    AppendRow(Row0 + Row1 + Row2, Row3, 3);
    AppendRow(Row0 + Row1 + Row2 + Row3, Row4, 4);
    AppendRow(Row0 + Row1 + Row2 + Row3 + Row4, Row5, 5);
    AppendRow(Row0 + Row1 + Row2 + Row3 + Row4 + Row5, Row6, 6);
    AppendRow(Row0 + Row1 + Row2 + Row3 + Row4 + Row5 + Row6, Row7, 7);
    AppendRow(Row0 + Row1 + Row2 + Row3 + Row4 + Row5 + Row6 + Row7, Row8, 8);
    AppendRow(Row0 + Row1 + Row2 + Row3 + Row4 + Row5 + Row6 + Row7 + Row8, Row9, 9);
    AppendRow(Row0 + Row1 + Row2 + Row3 + Row4 + Row5 + Row6 + Row7 + Row8 + Row9, Row10, 10);
    AppendRow(Row0 + Row1 + Row2 + Row3 + Row4 + Row5 + Row6 + Row7 + Row8 + Row9 + Row10, Row11, 11);
    AppendRow(Row0 + Row1 + Row2 + Row3 + Row4 + Row5 + Row6 + Row7 + Row8 + Row9 + Row10 + Row11, Row12, 12);
    AppendRow(Row0 + Row1 + Row2 + Row3 + Row4 + Row5 + Row6 + Row7 + Row8 + Row9 + Row10 + Row11 + Row12, Row13, 13);
    AppendRow(Row0 + Row1 + Row2 + Row3 + Row4 + Row5 + Row6 + Row7 + Row8 + Row9 + Row10 + Row11 + Row12 + Row13, Row14, 14);
    AppendRow(Row0 + Row1 + Row2 + Row3 + Row4 + Row5 + Row6 + Row7 + Row8 + Row9 + Row10 + Row11 + Row12 + Row13 + Row14, Row15, 15);
  }

  /** The 151 named members have pairwise distinct bytes. */
  lemma NamedDistinct()
    ensures |Named| == 151
    ensures forall i, j :: 0 <= i < |Named| && 0 <= j < |Named| && i != j ==> Named[i] != Named[j]
  {
    NamedIncreasing();
    forall i, j | 0 <= i < |Named| && 0 <= j < |Named| && i != j
      ensures Named[i] != Named[j]
    {
      if i > j {
        assert Named[j] < Named[i];
      }
    }
  }

  /** A sequence in strictly increasing order lists as many values as it has entries. */
  lemma {:induction false} IncreasingCard(s: seq<int>)
    requires Increasing(s)
    ensures |set x | x in s| == |s|
  {
    if s != [] {
      var t := s[..|s| - 1];
      IncreasingCard(t);
      assert (set x | x in s) == (set x | x in t) + {s[|s| - 1]};
    }
  }

  lemma {:induction false} BelowSize(n: nat)
    ensures |Below(n)| == n
  {
    if n > 0 {
      BelowSize(n - 1);
    }
  }

  /** The remaining 105 byte values name nothing. */
  lemma UnnamedCount()
    ensures |Unnamed| == 105
  {
    NamedIncreasing();
    IncreasingCard(Named);
    BelowSize(0x100);
    var names := set x | x in Named;
    assert Unnamed == Below(0x100) - names;
    assert names <= Below(0x100);
  }

  /** The eight LDA members, and nothing else, reach `ExecuteLda`; all of them are named. */
  lemma LdaEncodings()
    ensures LdaOpcodes == {0xAD, 0xBD, 0xB9, 0xA9, 0xA1, 0xB1, 0xA5, 0xB5}
    ensures forall b :: b in LdaOpcodes ==> b in Named
  {
  }

  /** The members the assembler emits, and NOP, have their documented bytes and are named. */
  lemma AssemblerOpcodes()
    ensures LdaImm == 0xA9 && LdxImm == 0xA2 && Brk == 0x00 && Nop == 0xEA
    ensures LdaImm in Named && LdxImm in Named && Brk in Named && Nop in Named
  {
  }


  /** The instruction mnemonics, in the order the enum introduces them. */
  datatype Mnemonic =
    ADC | AND | ASL | BCC | BCS | BEQ | BIT | BMI | BNE | BPL | BRK | BVS | BVC | CLC | CLD | CLI | CLV | CMP | CPX | CPY | DEC | DEX | DEY | EOR | INC | INX | INY | JMP | JSR | LDA | LDX | LDY | LSR | NOP | ORA | PHA | PHP | PLA | PLP | ROL | ROR | RTI | RTS | SBC | SEC | SED | SEI | STA | STX | STY | TAX | TAY | TSX | TXA | TXS | TYA

  /** One entry of the comments' flag columns. */
  datatype Effect = Modified | Unchanged | Set | Cleared | Bit6 | Bit7 | FromStack

  /** One row of the table, in the comments' column order N Z C I D V. */
  datatype FlagEffects = FlagEffects(n: Effect, z: Effect, c: Effect, i: Effect, d: Effect, v: Effect)

  /** The row documented above each group of members, as written. */
  function Documented(m: Mnemonic): FlagEffects
  {
    match m
    case ADC => FlagEffects(Modified, Modified, Modified, Unchanged, Unchanged, Modified)
    case AND => FlagEffects(Modified, Modified, Unchanged, Unchanged, Unchanged, Unchanged)
    case ASL => FlagEffects(Modified, Modified, Modified, Unchanged, Unchanged, Unchanged)
    case BCC => FlagEffects(Unchanged, Unchanged, Unchanged, Unchanged, Unchanged, Unchanged)
    case BCS => FlagEffects(Unchanged, Unchanged, Unchanged, Unchanged, Unchanged, Unchanged)
    case BEQ => FlagEffects(Unchanged, Unchanged, Unchanged, Unchanged, Unchanged, Unchanged)
    case BIT => FlagEffects(Bit7, Unchanged, Unchanged, Unchanged, Unchanged, Bit6)
    case BMI => FlagEffects(Unchanged, Unchanged, Unchanged, Unchanged, Unchanged, Unchanged)
    case BNE => FlagEffects(Unchanged, Unchanged, Unchanged, Unchanged, Unchanged, Unchanged)
    case BPL => FlagEffects(Unchanged, Unchanged, Unchanged, Unchanged, Unchanged, Unchanged)
    case BRK => FlagEffects(Unchanged, Unchanged, Unchanged, Set, Unchanged, Unchanged)
    case BVS => FlagEffects(Unchanged, Unchanged, Unchanged, Unchanged, Unchanged, Unchanged)
    case BVC => FlagEffects(Unchanged, Unchanged, Unchanged, Unchanged, Unchanged, Unchanged)
    case CLC => FlagEffects(Unchanged, Unchanged, Cleared, Unchanged, Unchanged, Unchanged)
    case CLD => FlagEffects(Unchanged, Unchanged, Unchanged, Unchanged, Cleared, Unchanged)
    case CLI => FlagEffects(Unchanged, Unchanged, Unchanged, Cleared, Unchanged, Unchanged)
    case CLV => FlagEffects(Unchanged, Unchanged, Unchanged, Unchanged, Unchanged, Cleared)
    case CMP => FlagEffects(Modified, Modified, Modified, Unchanged, Unchanged, Unchanged)
    case CPX => FlagEffects(Modified, Modified, Modified, Unchanged, Unchanged, Unchanged)
    case CPY => FlagEffects(Modified, Modified, Modified, Unchanged, Unchanged, Unchanged)
    case DEC => FlagEffects(Modified, Modified, Unchanged, Unchanged, Unchanged, Unchanged)
    case DEX => FlagEffects(Modified, Modified, Unchanged, Unchanged, Unchanged, Unchanged)
    case DEY => FlagEffects(Modified, Modified, Unchanged, Unchanged, Unchanged, Unchanged)
    case EOR => FlagEffects(Modified, Modified, Unchanged, Unchanged, Unchanged, Unchanged)
    case INC => FlagEffects(Modified, Modified, Unchanged, Unchanged, Unchanged, Unchanged)
    case INX => FlagEffects(Modified, Modified, Unchanged, Unchanged, Unchanged, Unchanged)
    case INY => FlagEffects(Modified, Modified, Unchanged, Unchanged, Unchanged, Unchanged)
    case JMP => FlagEffects(Unchanged, Unchanged, Unchanged, Unchanged, Unchanged, Unchanged)
    case JSR => FlagEffects(Unchanged, Unchanged, Unchanged, Unchanged, Unchanged, Unchanged)
    case LDA => FlagEffects(Modified, Modified, Unchanged, Unchanged, Unchanged, Unchanged)
    case LDX => FlagEffects(Modified, Modified, Unchanged, Unchanged, Unchanged, Unchanged)
    case LDY => FlagEffects(Modified, Modified, Unchanged, Unchanged, Unchanged, Unchanged)
    case LSR => FlagEffects(Cleared, Modified, Modified, Unchanged, Unchanged, Unchanged)
    case NOP => FlagEffects(Unchanged, Unchanged, Unchanged, Unchanged, Unchanged, Unchanged)
    case ORA => FlagEffects(Modified, Modified, Unchanged, Unchanged, Unchanged, Unchanged)
    case PHA => FlagEffects(Unchanged, Unchanged, Unchanged, Unchanged, Unchanged, Unchanged)
    case PHP => FlagEffects(Unchanged, Unchanged, Unchanged, Unchanged, Unchanged, Unchanged)
    case PLA => FlagEffects(Unchanged, Unchanged, Unchanged, Unchanged, Unchanged, Unchanged)
    case PLP => FlagEffects(Unchanged, Unchanged, Unchanged, Unchanged, Unchanged, Unchanged)
    case ROL => FlagEffects(Modified, Modified, Modified, Unchanged, Unchanged, Unchanged)
    case ROR => FlagEffects(Cleared, Modified, Modified, Unchanged, Unchanged, Unchanged)
    case RTI => FlagEffects(FromStack, FromStack, FromStack, FromStack, FromStack, FromStack)
    case RTS => FlagEffects(Unchanged, Unchanged, Unchanged, Unchanged, Unchanged, Unchanged)
    case SBC => FlagEffects(Modified, Modified, Modified, Unchanged, Unchanged, Modified)
    case SEC => FlagEffects(Unchanged, Unchanged, Set, Unchanged, Unchanged, Unchanged)
    case SED => FlagEffects(Unchanged, Unchanged, Unchanged, Unchanged, Set, Unchanged)
    case SEI => FlagEffects(Unchanged, Unchanged, Unchanged, Set, Unchanged, Unchanged)
    case STA => FlagEffects(Unchanged, Unchanged, Unchanged, Unchanged, Unchanged, Unchanged)
    case STX => FlagEffects(Unchanged, Unchanged, Unchanged, Unchanged, Unchanged, Unchanged)
    case STY => FlagEffects(Unchanged, Unchanged, Unchanged, Unchanged, Unchanged, Unchanged)
    case TAX => FlagEffects(Modified, Modified, Unchanged, Unchanged, Unchanged, Unchanged)
    case TAY => FlagEffects(Modified, Modified, Unchanged, Unchanged, Unchanged, Unchanged)
    case TSX => FlagEffects(Modified, Modified, Unchanged, Unchanged, Unchanged, Unchanged)
    case TXA => FlagEffects(Modified, Modified, Unchanged, Unchanged, Unchanged, Unchanged)
    case TXS => FlagEffects(Unchanged, Unchanged, Unchanged, Unchanged, Unchanged, Unchanged)
    case TYA => FlagEffects(Modified, Modified, Unchanged, Unchanged, Unchanged, Unchanged)
  }

  /** How many of the six columns are documented as anything other than unchanged. */
  function ChangedColumns(e: FlagEffects): nat
  {
    (if e.n != Unchanged then 1 else 0) + (if e.z != Unchanged then 1 else 0) +
    (if e.c != Unchanged then 1 else 0) + (if e.i != Unchanged then 1 else 0) +
    (if e.d != Unchanged then 1 else 0) + (if e.v != Unchanged then 1 else 0)
  }

  /** The loads and the transfers into A, X or Y modify N and Z and no other flag. */
  lemma LoadsTouchOnlyNZ(m: Mnemonic)
    requires m in {LDA, LDX, LDY, TAX, TAY, TSX, TXA, TYA}
    ensures Documented(m).n == Modified && Documented(m).z == Modified
    ensures ChangedColumns(Documented(m)) == 2
  {
  }

  /** The stores and TXS modify no flag. */
  lemma StoresTouchNoFlag(m: Mnemonic)
    requires m in {STA, STX, STY, TXS}
    ensures ChangedColumns(Documented(m)) == 0
  {
  }

  /** Each flag instruction clears or sets its own flag ... */
  lemma CarryAndDecimalInstructions()
    ensures Documented(CLC).c == Cleared && Documented(SEC).c == Set
    ensures Documented(CLD).d == Cleared && Documented(SED).d == Set
  {
  }

  lemma InterruptAndOverflowInstructions()
    ensures Documented(CLI).i == Cleared && Documented(SEI).i == Set
    ensures Documented(CLV).v == Cleared
  {
  }

  /** ... and no other. */
  lemma FlagInstructionsChangeOneFlag(m: Mnemonic)
    requires m in {CLC, SEC, CLD, SED, CLI, SEI, CLV}
    ensures ChangedColumns(Documented(m)) == 1
  {
  }
}
