/**
 * The opcode table of Emulation/InstructionSet.cs and the tables that
 * Emulation/InstructionSetFactory.cs builds: a dictionary from opcode to instruction, in which a
 * later `Add` for the same opcode replaces the earlier one.
 */
module InstructionSets {
  import opened Outcomes
  import opened Opcodes
  import opened AddressingModes

  /** An opcode together with the addressing mode it is executed with. */
  datatype Instruction = Instruction(opcode: Opcode, mode: AddressingMode)

  /** `UnknownOpcodeException`, carrying the opcode that was looked up. */
  datatype UnknownOpcodeException = UnknownOpcodeException(opcode: Opcode)

  type Table = map<Opcode, Instruction>

  /** The indexer: the stored instruction, or the exception. */
  function Lookup(table: Table, op: Opcode): Result<Instruction, UnknownOpcodeException>
  {
    if op in table then Ok(table[op]) else Err(UnknownOpcodeException(op))
  }

  /** `TryGetInstruction`: the stored instruction, if any. */
  function TryGet(table: Table, op: Opcode): Option<Instruction>
  {
    if op in table then Some(table[op]) else None
  }

  /** `Add(instruction)`: the entry for its opcode is overwritten. */
  function Added(table: Table, i: Instruction): Table
  {
    table[i.opcode := i]
  }

  /** The indexer and `TryGetInstruction` agree, and both succeed exactly on registered opcodes. */
  lemma LookupAgrees(table: Table, op: Opcode)
    ensures Lookup(table, op).Ok? <==> op in table
    ensures TryGet(table, op).Some? <==> op in table
    ensures Lookup(table, op).Ok? ==> Lookup(table, op).value == TryGet(table, op).value == table[op]
    ensures Lookup(table, op).Err? ==> Lookup(table, op).error.opcode == op
  {
  }

  /** After `Add`, its opcode finds it (last writer wins) and every other opcode finds what it did before. */
  lemma AddedLookup(table: Table, i: Instruction, op: Opcode)
    ensures Lookup(Added(table, i), i.opcode) == Ok(i)
    ensures op != i.opcode ==> Lookup(Added(table, i), op) == Lookup(table, op)
  {
  }

  /** Two `Add`s of the same opcode: the second one is what remains. */
  lemma AddTwice(table: Table, i: Instruction, j: Instruction)
    requires i.opcode == j.opcode
    ensures Added(Added(table, i), j) == Added(table, j)
  {
  }

  /** The 6502 table: only LDA immediate, with the Immediate mode. */
  const Mos6502Table: Table := Added(map[], Instruction(LdaImm, Immediate))

  /** Looking up any byte but 0xA9 in the 6502 table fails. */
  lemma Mos6502TableContents(op: Opcode)
    ensures Lookup(Mos6502Table, op).Ok? <==> op == 0xA9
    ensures Lookup(Mos6502Table, 0xA9) == Ok(Instruction(LdaImm, Immediate))
  {
  }

  class InstructionSet {
    var instructions: Table

    constructor ()
      ensures instructions == map[]
    {
      instructions := map[];
    }

    /** The indexer. */
    method Get(op: Opcode) returns (r: Result<Instruction, UnknownOpcodeException>)
      ensures r == Lookup(instructions, op)
    {
      if op in instructions {
        r := Ok(instructions[op]);
      } else {
        r := Err(UnknownOpcodeException(op));
      }
    }

    /** `TryGetInstruction`: whether the opcode is registered, and its instruction if so. */
    method TryGetInstruction(op: Opcode) returns (found: bool, instruction: Option<Instruction>)
      ensures found <==> op in instructions
      ensures instruction == TryGet(instructions, op)
    {
      found := op in instructions;
      instruction := if found then Some(instructions[op]) else None;
    }

    /** `Add(instruction)`, returning the set itself so that calls chain. */
    method Add(i: Instruction) returns (self: InstructionSet)
      modifies this
      ensures self == this
      ensures instructions == Added(old(instructions), i)
    {
      instructions := instructions[i.opcode := i];
      self := this;
    }

    /** `Add(opcode, addressingMode = Implied)`. */
    method AddOpcode(op: Opcode, mode: AddressingMode := Implied) returns (self: InstructionSet)
      modifies this
      ensures self == this
      ensures instructions == Added(old(instructions), Instruction(op, mode))
    {
      self := Add(Instruction(op, mode));
    }
  }

  /** `InstructionSetFactory.Mos6502`: every access builds a new set. */
  method Mos6502() returns (s: InstructionSet)
    ensures fresh(s)
    ensures s.instructions == Mos6502Table
  {
    s := new InstructionSet();
    s := s.AddOpcode(LdaImm, Immediate);
  }

  /** `InstructionSetFactory.Mos65C02`: the 6502 set, with nothing added yet. */
  method Mos65C02() returns (s: InstructionSet)
    ensures fresh(s)
    ensures s.instructions == Mos6502Table
  {
    s := Mos6502();
  }
}
