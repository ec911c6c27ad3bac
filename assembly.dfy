/**
 * The tiny assembler of Assembly/Assembler.cs and the loader of Assembly/Loader.cs.
 *
 * The assembler appends instruction bytes to a buffer and hands out a `Program`: an origin and
 * a copy of the bytes. The loader points the reset vector (0xFFFC/0xFFFD) at the origin and
 * then copies the bytes upwards from the origin, one indexer write at a time; the address is a
 * `ushort` and wraps. Because the store has no cell 0xFFFF, a program that reaches that address
 * makes the loader throw, with the earlier writes already done.
 */
module Assembly {
  import opened Bytes
  import opened Outcomes
  import opened Opcodes
  import opened Memories
  import E = Execution
  import P = ExecutionProperties

  /** `Program`: where the code goes, and the code. */
  datatype Program = Program(org: Word, bytes: seq<Byte>)

  /** One call of an emit method of the assembler, with its operand byte. */
  datatype Emitted = LoadA(value: Byte) | LoadX(value: Byte) | Break

  /** The bytes a single emit call appends. */
  function Encoding(e: Emitted): (s: seq<Byte>)
    ensures 1 <= |s| <= 2
    ensures s[0] in {LdaImm, LdxImm, Brk}
  {
    match e
    case LoadA(v) => [LdaImm, v]
    case LoadX(v) => [LdxImm, v]
    case Break => [Brk]
  }

  /** The bytes a sequence of emit calls leaves in the buffer, in call order. */
  function Encode(es: seq<Emitted>): seq<Byte>
  {
    if es == [] then [] else Encode(es[..|es| - 1]) + Encoding(es[|es| - 1])
  }

  /**
   * Reads emitted code back: the three opcodes are distinct and each fixes how many operand
   * bytes follow, so the buffer determines the calls that produced it.
   */
  function Decode(s: seq<Byte>): Option<seq<Emitted>>
    decreases |s|
  {
    if s == [] then Some([])
    else if s[0] == Brk then
      match Decode(s[1..])
      case Some(rest) => Some([Break] + rest)
      case None => None
    else if (s[0] == LdaImm || s[0] == LdxImm) && |s| >= 2 then
      match Decode(s[2..])
      case Some(rest) => Some([if s[0] == LdaImm then LoadA(s[1]) else LoadX(s[1])] + rest)
      case None => None
    else None
  }

  /** Emitting after a buffer appends that call's bytes, read from the front. */
  lemma {:induction false} EncodePrepend(e: Emitted, es: seq<Emitted>)
    ensures Encode([e] + es) == Encoding(e) + Encode(es)
    decreases |es|
  {
    if es == [] {
      assert [e] + es == [e];
      assert Encode([e]) == Encode([]) + Encoding(e);
    } else {
      var init := es[..|es| - 1];
      var last := es[|es| - 1];
      assert ([e] + es)[..|[e] + es| - 1] == [e] + init;
      assert es == init + [last];
      EncodePrepend(e, init);
    }
  }

  /** Decoding the buffer gives back exactly the calls that filled it. */
  lemma {:induction false} DecodeEncode(es: seq<Emitted>)
    ensures Decode(Encode(es)) == Some(es)
    decreases |es|
  {
    if es != [] {
      var e := es[0];
      var rest := es[1..];
      assert es == [e] + rest;
      EncodePrepend(e, rest);
      DecodeEncode(rest);
      var s := Encode(es);
      assert s == Encoding(e) + Encode(rest);
      match e
      case LoadA(v) => assert s[2..] == Encode(rest);
      case LoadX(v) => assert s[2..] == Encode(rest);
      case Break => assert s[1..] == Encode(rest);
    }
  }

  /** The signed overloads pass the two's-complement byte: -42 goes out as 0xD6. */
  lemma SignedOperand()
    ensures Encoding(LoadA(ToByte(-42))) == [0xA9, 0xD6]
    ensures Encoding(LoadX(ToByte(-1))) == [0xA2, 0xFF]
    ensures forall v: SByte :: Encoding(LoadA(ToByte(v)))[1] as int == (if v < 0 then v + 0x100 else v)
  {
  }

  class Assembler {
    const org: Word
    /** `_bytes`, the buffer the emit methods append to. */
    var bytes: seq<Byte>
    /** The calls made so far. */
    ghost var emitted: seq<Emitted>

    ghost predicate Valid()
      reads this
    {
      bytes == Encode(emitted)
    }

    /** `Assembler(org)`: an empty buffer. */
    constructor (org: Word)
      ensures Valid()
      ensures this.org == org && bytes == [] && emitted == []
    {
      this.org := org;
      bytes := [];
      emitted := [];
    }

    /** Records one emit call and appends its bytes. */
    method Emit(e: Emitted)
      requires Valid()
      modifies this
      ensures Valid()
      ensures emitted == old(emitted) + [e]
      ensures bytes == old(bytes) + Encoding(e)
    {
      bytes := bytes + Encoding(e);
      emitted := emitted + [e];
      assert emitted[..|emitted| - 1] == old(emitted);
    }

    /** `LDA_IMM(byte)`: appends 0xA9 and the operand. */
    method LdaImmediate(value: Byte)
      requires Valid()
      modifies this
      ensures Valid() && emitted == old(emitted) + [LoadA(value)]
      ensures bytes == old(bytes) + [0xA9, value]
    {
      Emit(LoadA(value));
    }

    /** `LDA_IMM(sbyte)`: the same, with the operand's two's-complement byte. */
    method LdaImmediateSigned(value: SByte)
      requires Valid()
      modifies this
      ensures Valid() && emitted == old(emitted) + [LoadA(ToByte(value))]
      ensures bytes == old(bytes) + [0xA9, ToByte(value)]
    {
      LdaImmediate(ToByte(value));
    }

    /** `LDX_IMM(byte)`: appends 0xA2 and the operand. */
    method LdxImmediate(value: Byte)
      requires Valid()
      modifies this
      ensures Valid() && emitted == old(emitted) + [LoadX(value)]
      ensures bytes == old(bytes) + [0xA2, value]
    {
      Emit(LoadX(value));
    }

    /** `LDX_IMM(sbyte)`. */
    method LdxImmediateSigned(value: SByte)
      requires Valid()
      modifies this
      ensures Valid() && emitted == old(emitted) + [LoadX(ToByte(value))]
      ensures bytes == old(bytes) + [0xA2, ToByte(value)]
    {
      LdxImmediate(ToByte(value));
    }

    /** `BRK`: appends 0x00. */
    method Brk()
      requires Valid()
      modifies this
      ensures Valid() && emitted == old(emitted) + [Break]
      ensures bytes == old(bytes) + [0x00]
    {
      Emit(Break);
    }

    /**
     * `Assemble`: the origin and the bytes emitted so far, in call order. The program holds a
     * value, so emits after this call leave it as it is.
     */
    method Assemble() returns (p: Program)
      requires Valid()
      ensures p.org == org && p.bytes == Encode(emitted)
      ensures Decode(p.bytes) == Some(emitted)
    {
      p := Program(org, bytes);
      DecodeEncode(emitted);
    }
  }

  /**
   * The `foreach` of the loader: byte k goes to address + k, the address wrapping as a `ushort`.
   * The first write to 0xFFFF throws and ends the load, the earlier writes kept.
   */
  function WriteBytes(mem: Image, address: Word, bytes: seq<Byte>): Written
    decreases |bytes|
  {
    if bytes == [] then Written(mem, true)
    else
      match Poke(mem, address, bytes[0])
      case None => Written(mem, false)
      case Some(m) => WriteBytes(m, WordAdd(address, 1), bytes[1..])
  }

  /** `Load`: the reset vector first, then the program bytes from the origin upwards. */
  function Loaded(mem: Image, p: Program): Written
  {
    WriteBytes(mem[0xFFFC := Lo(p.org)][0xFFFD := Hi(p.org)], p.org, p.bytes)
  }

  /** How many of the bytes are written: all of them, or those below 0xFFFF. */
  function Reached(address: Word, n: nat): nat
  {
    if address + n <= 0xFFFF then n else 0xFFFF - address
  }

  /**
   * The writes succeed exactly when the bytes end below 0xFFFF, and then no address wraps.
   * Byte k lands at address + k for every k that is reached; every other cell is unchanged.
   */
  lemma {:induction false} WriteBytesSpec(mem: Image, address: Word, bytes: seq<Byte>)
    ensures WriteBytes(mem, address, bytes).ok <==> address + |bytes| <= 0xFFFF
    ensures forall b :: 0 <= b < Size ==>
      WriteBytes(mem, address, bytes).mem[b] ==
        if address <= b < address + Reached(address, |bytes|) then bytes[b - address] else mem[b]
    decreases |bytes|
  {
    if bytes != [] && address < Size {
      var m := mem[address := bytes[0]];
      WriteBytesSpec(m, address + 1, bytes[1..]);
    }
  }

  /** The loader as a procedure on the store; false when it throws part-way. */
  method Load(p: Program, memory: Memory) returns (ok: bool)
    requires memory.Valid()
    modifies memory.bytes
    ensures Written(memory.Image(), ok) == Loaded(old(memory.Image()), p)
  {
    var address := p.org;
    var _ := memory.WriteByte(0xFFFC, Lo(address));
    var _ := memory.WriteByte(0xFFFD, Hi(address));
    ghost var vector := memory.Image();
    var i := 0;
    while i < |p.bytes|
      invariant i <= |p.bytes|
      invariant WriteBytes(vector, p.org, p.bytes) == WriteBytes(memory.Image(), address, p.bytes[i..])
    {
      ghost var before := memory.Image();
      assert p.bytes[i..][1..] == p.bytes[i + 1..];
      ok := memory.WriteByte(address, p.bytes[i]);
      if !ok {
        assert WriteBytes(before, address, p.bytes[i..]) == Written(before, false);
        return;
      }
      assert WriteBytes(before, address, p.bytes[i..]) ==
        WriteBytes(memory.Image(), WordAdd(address, 1), p.bytes[i + 1..]);
      address := WordAdd(address, 1);
      i := i + 1;
    }
    ok := true;
  }

  /**
   * What `Load` leaves behind: it completes exactly when the program ends below 0xFFFF; the
   * reset vector holds the origin unless a program byte landed on it; byte k is at org + k
   * for every byte written; all other cells are as before.
   */
  lemma LoadedSpec(mem: Image, p: Program)
    ensures Loaded(mem, p).ok <==> p.org + |p.bytes| <= 0xFFFF
    ensures forall k :: 0 <= k < Reached(p.org, |p.bytes|) ==>
      Loaded(mem, p).mem[WordAdd(p.org, k)] == p.bytes[k]
    ensures !(p.org <= 0xFFFC < p.org + Reached(p.org, |p.bytes|)) ==> Loaded(mem, p).mem[0xFFFC] == Lo(p.org)
    ensures !(p.org <= 0xFFFD < p.org + Reached(p.org, |p.bytes|)) ==> Loaded(mem, p).mem[0xFFFD] == Hi(p.org)
    ensures forall b :: (0 <= b < Size && b != 0xFFFC && b != 0xFFFD &&
      !(p.org <= b < p.org + Reached(p.org, |p.bytes|))) ==> Loaded(mem, p).mem[b] == mem[b]
  {
    var n := Reached(p.org, |p.bytes|);
    WriteBytesSpec(mem[0xFFFC := Lo(p.org)][0xFFFD := Hi(p.org)], p.org, p.bytes);
    forall k | 0 <= k < n
      ensures Loaded(mem, p).mem[WordAdd(p.org, k)] == p.bytes[k]
    {
      assert WordAdd(p.org, k) == p.org + k;
    }
  }

  /** The program bytes come after the vector, so a program covering 0xFFFC/0xFFFD overwrites it. */
  lemma LoadOverwritesVector(mem: Image, p: Program)
    requires p.org <= 0xFFFC < p.org + |p.bytes|
    ensures Loaded(mem, p).mem[0xFFFC] == p.bytes[0xFFFC - p.org]
    ensures p.org + |p.bytes| > 0xFFFD ==> Loaded(mem, p).mem[0xFFFD] == p.bytes[0xFFFD - p.org]
  {
    WriteBytesSpec(mem[0xFFFC := Lo(p.org)][0xFFFD := Hi(p.org)], p.org, p.bytes);
  }

  /**
   * Loading a program none of whose bytes lands on the vector and then resetting starts
   * execution at the origin, with the first program byte at PC (unless the origin is 0xFFFF,
   * where no byte is written).
   */
  lemma LoadThenReset(mem: Image, p: Program, r: E.Regs)
    requires !(p.org <= 0xFFFC < p.org + |p.bytes|) && !(p.org <= 0xFFFD < p.org + |p.bytes|)
    ensures E.Reset(Loaded(mem, p).mem, r).regs.pc == p.org
    ensures 0 < |p.bytes| && p.org < 0xFFFF ==>
      Loaded(mem, p).mem[E.Reset(Loaded(mem, p).mem, r).regs.pc] == p.bytes[0]
  {
    var m := Loaded(mem, p).mem;
    LoadKeepsVector(mem, p);
    P.ResetSpec(m, r);
    SplitWord(p.org);
    if 0 < |p.bytes| && p.org < 0xFFFF {
      LoadFirstByte(mem, p);
    }
  }

  /** A program none of whose bytes lands on 0xFFFC or 0xFFFD leaves the origin in the vector. */
  lemma LoadKeepsVector(mem: Image, p: Program)
    requires !(p.org <= 0xFFFC < p.org + |p.bytes|) && !(p.org <= 0xFFFD < p.org + |p.bytes|)
    ensures Loaded(mem, p).mem[0xFFFC] == Lo(p.org) && Loaded(mem, p).mem[0xFFFD] == Hi(p.org)
  {
    LoadedSpec(mem, p);
    assert Reached(p.org, |p.bytes|) <= |p.bytes|;
  }

  /** Unless the origin is 0xFFFF, the first program byte is written at the origin. */
  lemma LoadFirstByte(mem: Image, p: Program)
    requires 0 < |p.bytes| && p.org < 0xFFFF
    ensures Loaded(mem, p).mem[p.org] == p.bytes[0]
  {
    LoadedSpec(mem, p);
    assert WordAdd(p.org, 0) == p.org;
  }
}
