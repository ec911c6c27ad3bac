/**
 * The processor object of Emulation/Processor.cs, with Emulation/Mos6502.cs and
 * Emulation/Wdc65C02.cs, which only choose its instruction set. Its registers are fields that
 * each step updates in place; the status register, the memory and the clock are objects of
 * their own. Every method is tied to the function of the same name in `Execution`: the value
 * it returns or the fault it stands for, and the registers after it, are what that function
 * gives for the registers before it.
 *
 * No method's `modifies` clause names the memory's cells: the processor only ever reads them.
 */
module Processors {
  import opened Bytes
  import opened Outcomes
  import opened Opcodes
  import opened AddressingModes
  import opened StatusRegisters
  import opened Memories
  import opened Clocks
  import opened InstructionSets
  import E = Execution
  import P = ExecutionProperties

  class Processor {
    var pc: Word
    var sp: Byte
    var a: Byte
    var x: Byte
    var y: Byte
    const status: StatusRegister
    const memory: Memory
    const clock: Clock
    const instructionSet: InstructionSet

    ghost predicate Valid()
      reads memory, status
    {
      memory.Valid() && status.Valid()
    }

    /** The registers, the status byte and the clock's count, as one value. */
    function Regs(): E.Regs
      reads this, status, clock
    {
      E.Regs(pc, sp, a, x, y, status.value, clock.cycles)
    }

    /** The memory image the processor reads. */
    function Mem(): Image
      reads memory, memory.bytes
      requires memory.Valid()
    {
      memory.Image()
    }

    /**
     * `Processor(instructionSet, memory, clock)`: the registers start at 0 and `Reset` runs
     * at once.
     */
    constructor (instructionSet: InstructionSet, memory: Memory, clock: Clock)
      requires memory.Valid()
      modifies clock
      ensures Valid() && fresh(status)
      ensures this.instructionSet == instructionSet && this.memory == memory && this.clock == clock
      ensures E.Outcome(Ok(()), Regs()) == E.Reset(Mem(), E.Regs(0, 0, 0, 0, 0, 0, old(clock.cycles)))
    {
      this.instructionSet := instructionSet;
      this.memory := memory;
      this.clock := clock;
      status := new StatusRegister();
      pc, sp, a, x, y := 0, 0, 0, 0, 0;
      new;
      var start := Regs();
      P.ResetSpec(Mem(), start);
      var _ := Reset();
    }

    /** `Processor(instructionSet)`: a new memory and a new clock. */
    constructor WithNewDevices(instructionSet: InstructionSet)
      ensures Valid() && fresh(status) && fresh(memory) && fresh(memory.bytes) && fresh(clock)
      ensures this.instructionSet == instructionSet
      ensures E.Outcome(Ok(()), Regs()) == E.Reset(Mem(), E.Regs(0, 0, 0, 0, 0, 0, 0))
      ensures Regs() == E.Regs(0, 0xFF, 0, 0, 0, 0, 12)
    {
      this.instructionSet := instructionSet;
      memory := new Memory();
      clock := new Clock();
      status := new StatusRegister();
      pc, sp, a, x, y := 0, 0, 0, 0, 0;
      new;
      assert Mem()[0xFFFC] == 0 && Mem()[0xFFFD] == 0;
      P.ResetSpec(Mem(), Regs());
      var _ := Reset();
    }

    /** `Cycle(times)`: one clock tick per pass. */
    method Cycle(times: int)
      modifies clock
      ensures Regs() == E.Cycle(old(Regs()), times)
      ensures clock.startupCycles == old(clock.startupCycles) && clock.frequency == old(clock.frequency)
    {
      var i := 0;
      while i < times
        invariant 0 <= i && (times > 0 ==> i <= times) && (times <= 0 ==> i == 0)
        invariant Regs() == old(Regs()).(cycles := old(clock.cycles) + i)
        invariant clock.startupCycles == old(clock.startupCycles) && clock.frequency == old(clock.frequency)
      {
        clock.Tick(1);
        i := i + 1;
      }
    }

    /** `ReadByte(address)`. */
    method ReadByte(address: Word) returns (r: Result<Byte, E.Fault>)
      requires Valid()
      modifies clock
      ensures E.Outcome(r, Regs()) == E.ReadByte(Mem(), old(Regs()), address)
    {
      var data := memory.ReadByte(address);
      if data.None? {
        return Err(E.AddressOutOfRange);
      }
      Cycle(1);
      r := Ok(data.value);
    }

    /** `FetchByte`. */
    method FetchByte() returns (r: Result<Byte, E.Fault>)
      requires Valid()
      modifies this, clock
      ensures Valid()
      ensures E.Outcome(r, Regs()) == E.FetchByte(Mem(), old(Regs()))
    {
      var address := pc;
      pc := WordAdd(pc, 1);
      r := ReadByte(address);
    }

    /** `ReadAddress(address)`. */
    method ReadAddress(address: Word) returns (r: Result<Word, E.Fault>)
      requires Valid()
      modifies clock
      ensures E.Outcome(r, Regs()) == E.ReadAddress(Mem(), old(Regs()), address)
    {
      var lo := ReadByte(address);
      if lo.Err? {
        return Err(lo.error);
      }
      var hi := ReadByte(WordAdd(address, 1));
      if hi.Err? {
        return Err(hi.error);
      }
      Cycle(2);
      r := Ok(MakeWord(lo.value, hi.value));
    }

    /** `FetchAddress`. */
    method FetchAddress() returns (r: Result<Word, E.Fault>)
      requires Valid()
      modifies this, clock
      ensures Valid()
      ensures E.Outcome(r, Regs()) == E.FetchAddress(Mem(), old(Regs()))
    {
      r := ReadAddress(pc);
      if r.Ok? {
        pc := WordAdd(pc, 2);
      }
    }

    /** `CycleIfCrossedPageBoundary(from, to)`. */
    method CycleIfCrossedPageBoundary(from: Word, to: Word)
      modifies clock
      ensures Regs() == E.CycleIfCrossedPageBoundary(old(Regs()), from, to)
    {
      if E.PageOffset(from, to) > 0 {
        Cycle(1);
      }
    }

    /** `AbsoluteAddress(offset)`. */
    method AbsoluteAddress(offset: Byte) returns (r: Result<Word, E.Fault>)
      requires Valid()
      modifies this, clock
      ensures Valid()
      ensures E.Outcome(r, Regs()) == E.AbsoluteAddress(Mem(), old(Regs()), offset)
    {
      r := FetchAddress();
      if r.Err? || offset == 0 {
        return;
      }
      var target := WordAdd(r.value, offset);
      CycleIfCrossedPageBoundary(r.value, target);
      r := Ok(target);
    }

    /** `IndirectAddress`. */
    method IndirectAddress() returns (r: Result<Word, E.Fault>)
      requires Valid()
      modifies this, clock
      ensures Valid()
      ensures E.Outcome(r, Regs()) == E.IndirectAddress(Mem(), old(Regs()))
    {
      r := AbsoluteAddress(0);
      if r.Ok? {
        r := ReadAddress(r.value);
      }
    }

    /** `IndirectXAddress`. */
    method IndirectXAddress() returns (r: Result<Word, E.Fault>)
      requires Valid()
      modifies this, clock
      ensures Valid()
      ensures E.Outcome(r, Regs()) == E.IndirectXAddress(Mem(), old(Regs()))
    {
      var b := FetchByte();
      if b.Err? {
        return Err(b.error);
      }
      var address := ByteAdd(b.value, x);
      Cycle(1);
      r := ReadAddress(address);
    }

    /** `IndirectYAddress`. */
    method IndirectYAddress() returns (r: Result<Word, E.Fault>)
      requires Valid()
      modifies this, clock
      ensures Valid()
      ensures E.Outcome(r, Regs()) == E.IndirectYAddress(Mem(), old(Regs()))
    {
      var b := FetchByte();
      if b.Err? {
        return Err(b.error);
      }
      r := ReadAddress(b.value);
      if r.Err? {
        return;
      }
      var target := (r.value + y) % 0x100;
      CycleIfCrossedPageBoundary(r.value, target);
      r := Ok(target);
    }

    /** `ZeroPageAddress(offset)`. */
    method ZeroPageAddress(offset: Byte) returns (r: Result<Word, E.Fault>)
      requires Valid()
      modifies this, clock
      ensures Valid()
      ensures E.Outcome(r, Regs()) == E.ZeroPageAddress(Mem(), old(Regs()), offset)
    {
      var b := FetchByte();
      if b.Err? {
        return Err(b.error);
      }
      var address := b.value;
      if offset > 0 {
        address := ByteAdd(address, offset);
        Cycle(1);
      }
      r := Ok(address);
    }

    /** The address `switch` of `FetchOperand`. */
    method ResolveAddress(mode: AddressingMode) returns (r: Result<Word, E.Fault>)
      requires Valid()
      modifies this, clock
      ensures Valid()
      ensures E.Outcome(r, Regs()) == E.ResolveAddress(Mem(), old(Regs()), mode)
    {
      match mode {
        case Absolute => r := AbsoluteAddress(0);
        case AbsoluteX => r := AbsoluteAddress(x);
        case AbsoluteY => r := AbsoluteAddress(y);
        case Indirect => r := IndirectAddress();
        case IndirectX => r := IndirectXAddress();
        case IndirectY => r := IndirectYAddress();
        case ZeroPage => r := ZeroPageAddress(0);
        case ZeroPageX => r := ZeroPageAddress(x);
        case ZeroPageY => r := ZeroPageAddress(y);
        case _ => r := Err(E.UnknownAddressMode(mode));
      }
    }

    /** `FetchOperand(mode)`. */
    method FetchOperand(mode: AddressingMode) returns (r: Result<Byte, E.Fault>)
      requires Valid()
      modifies this, clock
      ensures Valid()
      ensures E.Outcome(r, Regs()) == E.FetchOperand(Mem(), old(Regs()), mode)
    {
      if mode == Implied {
        return Err(E.ImpliedHasNoOperand);
      }
      if mode == Accumulator {
        return Ok(a);
      }
      if mode == Immediate {
        r := FetchByte();
        return;
      }
      var address := ResolveAddress(mode);
      if address.Err? {
        return Err(address.error);
      }
      r := ReadByte(address.value);
    }

    /** `SetNegativeAndZeroFlags(value)`. */
    method SetNegativeAndZeroFlags(value: Byte)
      requires Valid()
      modifies status
      ensures Valid()
      ensures status.value == E.SetNegativeAndZeroFlags(old(status.value), value)
    {
      status.Set(Negative, E.IsNegative(value));
      status.Set(Zero, value == 0);
    }

    /** `ExecuteLda(instruction)`. */
    method ExecuteLda(i: Instruction) returns (r: Result<E.Operation, E.Fault>)
      requires Valid()
      modifies this, status, clock
      ensures Valid()
      ensures E.Outcome(r, Regs()) == E.ExecuteLda(Mem(), old(Regs()), i)
    {
      var v := FetchOperand(i.mode);
      if v.Err? {
        return Err(v.error);
      }
      a := v.value;
      SetNegativeAndZeroFlags(a);
      r := Ok(E.Operation(i, [a]));
    }

    /** `Execute(instruction)`: the opcode `switch`. */
    method Execute(i: Instruction) returns (r: Result<E.Operation, E.Fault>)
      requires Valid()
      modifies this, status, clock
      ensures Valid()
      ensures E.Outcome(r, Regs()) == E.Execute(Mem(), old(Regs()), i)
    {
      if i.opcode in LdaOpcodes {
        r := ExecuteLda(i);
      } else if i.opcode in Named {
        r := Err(E.UnknownOpcode(i.opcode));
      } else {
        r := Err(E.OpcodeOutOfRange(i.opcode));
      }
    }

    /** `Fetch`. */
    method Fetch() returns (r: Result<Instruction, E.Fault>)
      requires Valid()
      modifies this, clock
      ensures Valid()
      ensures E.Outcome(r, Regs()) == E.Fetch(Mem(), old(Regs()), instructionSet.instructions)
    {
      var address := pc;
      var opcode := FetchByte();
      if opcode.Err? {
        return Err(opcode.error);
      }
      var found, instruction := instructionSet.TryGetInstruction(opcode.value);
      if !found {
        return Err(E.UnsupportedOpcode(opcode.value, address));
      }
      r := Ok(instruction.value);
    }

    /** `Step`: the operation it hands to the after-instruction event is returned. */
    method Step() returns (r: Result<E.Operation, E.Fault>)
      requires Valid()
      modifies this, status, clock
      ensures Valid()
      ensures E.Outcome(r, Regs()) == E.Step(Mem(), old(Regs()), instructionSet.instructions)
    {
      var i := Fetch();
      if i.Err? {
        return Err(i.error);
      }
      r := Execute(i.value);
    }

    /** `Reset`. */
    method Reset() returns (r: Result<(), E.Fault>)
      requires Valid()
      modifies this, status, clock
      ensures Valid()
      ensures E.Outcome(r, Regs()) == E.Reset(Mem(), old(Regs()))
    {
      var vector := ReadAddress(0xFFFC);
      if vector.Err? {
        return Err(vector.error);
      }
      pc := vector.value;
      sp := 0xFF;
      status.ClearAll();
      a, x, y := 0, 0, 0;
      Cycle(8);
      r := Ok(());
    }

    /** `Interrupt`: not implemented; it throws and changes nothing. */
    method Interrupt() returns (r: Result<(), E.Fault>)
      ensures r == E.InterruptEntry(Regs()).result
    {
      r := Err(E.NotImplemented);
    }

    /** `NonMaskableInterrupt`: not implemented; it throws and changes nothing. */
    method NonMaskableInterrupt() returns (r: Result<(), E.Fault>)
      ensures r == E.InterruptEntry(Regs()).result
    {
      r := Err(E.NotImplemented);
    }
  }

  /** `new Mos6502()`: the 6502 instruction set, a new memory and a new clock. */
  method NewMos6502() returns (p: Processor)
    ensures p.Valid() && fresh(p.instructionSet) && fresh(p.memory) && fresh(p.clock)
    ensures p.instructionSet.instructions == Mos6502Table
    ensures p.Regs() == E.Regs(0, 0xFF, 0, 0, 0, 0, 12)
  {
    var set6502 := Mos6502();
    p := new Processor.WithNewDevices(set6502);
  }

  /** `new Mos6502(memory, clock)`. */
  method NewMos6502With(memory: Memory, clock: Clock) returns (p: Processor)
    requires memory.Valid()
    modifies clock
    ensures p.Valid() && fresh(p.instructionSet) && p.memory == memory && p.clock == clock
    ensures p.instructionSet.instructions == Mos6502Table
    ensures E.Outcome(Ok(()), p.Regs()) == E.Reset(memory.Image(), E.Regs(0, 0, 0, 0, 0, 0, old(clock.cycles)))
  {
    var set6502 := Mos6502();
    p := new Processor(set6502, memory, clock);
  }

  /** `new Wdc65C02()`: the 65C02 instruction set, a new memory and a new clock. */
  method NewWdc65C02() returns (p: Processor)
    ensures p.Valid() && fresh(p.instructionSet) && fresh(p.memory) && fresh(p.clock)
    ensures p.instructionSet.instructions == Mos6502Table
    ensures p.Regs() == E.Regs(0, 0xFF, 0, 0, 0, 0, 12)
  {
    var set65C02 := Mos65C02();
    p := new Processor.WithNewDevices(set65C02);
  }

  /** `new Wdc65C02(memory, clock)`: this constructor passes the 6502 set, not the 65C02 one. */
  method NewWdc65C02With(memory: Memory, clock: Clock) returns (p: Processor)
    requires memory.Valid()
    modifies clock
    ensures p.Valid() && fresh(p.instructionSet) && p.memory == memory && p.clock == clock
    ensures p.instructionSet.instructions == Mos6502Table
    ensures E.Outcome(Ok(()), p.Regs()) == E.Reset(memory.Image(), E.Regs(0, 0, 0, 0, 0, 0, old(clock.cycles)))
  {
    var set6502 := Mos6502();
    p := new Processor(set6502, memory, clock);
  }
}
