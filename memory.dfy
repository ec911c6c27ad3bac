/**
 * The byte store of Emulation/Memory.cs. It allocates `new byte[ushort.MaxValue]`, that is
 * 65535 cells, so the valid addresses are 0 to 0xFFFE and every access to 0xFFFF throws
 * `IndexOutOfRangeException`. Words are little-endian and the second byte's address wraps
 * modulo 2^16.
 *
 * The functions below describe the store as a sequence of bytes (an image); a result of
 * `None` stands for the exception. The class `Memory` is the object the emulator updates in
 * place, and each of its methods is tied to one of the functions.
 */
module Memories {
  import opened Bytes
  import opened Outcomes

  /** `ushort.MaxValue`: the number of cells. */
  const Size: nat := 0xFFFF

  type Image = m: seq<Byte> | |m| == Size witness seq(Size, _ => 0)

  /** The indexer's getter. */
  function Peek(mem: Image, a: Word): Option<Byte>
  {
    if a < Size then Some(mem[a]) else None
  }

  /** The indexer's setter: on failure nothing has been written. */
  function Poke(mem: Image, a: Word, v: Byte): Option<Image>
  {
    if a < Size then Some(mem[a := v]) else None
  }

  /** `ReadWord`: the low byte at a, the high byte at (ushort)(a + 1). */
  function PeekWord(mem: Image, a: Word): Option<Word>
  {
    match (Peek(mem, a), Peek(mem, WordAdd(a, 1)))
    case (Some(lo), Some(hi)) => Some(MakeWord(lo, hi))
    case _ => None
  }

  /** What a call that may throw part-way leaves behind: the image after it, and whether it completed. */
  datatype Written = Written(mem: Image, ok: bool)

  /**
   * `WriteWord`: the low byte goes to a, then the high byte to (ushort)(a + 1). When the
   * second write throws, the first one has already happened.
   */
  function PokeWord(mem: Image, a: Word, w: Word): Written
  {
    match Poke(mem, a, Lo(w))
    case None => Written(mem, false)
    case Some(m1) =>
      match Poke(m1, WordAdd(a, 1), Hi(w))
      case None => Written(m1, false)
      case Some(m2) => Written(m2, true)
  }

  /** The range indexer `memory[start..end]`: the cells from start up to, not including, end. */
  function Slice(mem: Image, start: int, end: int): Option<seq<Byte>>
  {
    if 0 <= start <= end <= Size then Some(mem[start..end]) else None
  }

  /** Every address but 0xFFFF can be read, and reading gives the cell. */
  lemma PeekDefined(mem: Image, a: Word)
    ensures Peek(mem, a).Some? <==> a != 0xFFFF
    ensures Peek(mem, a).Some? ==> Peek(mem, a).value == mem[a]
  {
  }

  /** After writing v at a, a reads v and every other address reads what it did before. */
  lemma ReadAfterWrite(mem: Image, a: Word, v: Byte, b: Word)
    requires Poke(mem, a, v).Some?
    ensures Peek(Poke(mem, a, v).value, a) == Some(v)
    ensures b != a ==> Peek(Poke(mem, a, v).value, b) == Peek(mem, b)
  {
  }

  /** Any write to 0xFFFF fails and leaves the image alone. */
  lemma LastAddressFails(mem: Image, v: Byte, w: Word)
    ensures Peek(mem, 0xFFFF) == None && Poke(mem, 0xFFFF, v) == None
    ensures PeekWord(mem, 0xFFFF) == None && PeekWord(mem, 0xFFFE) == None
    ensures PokeWord(mem, 0xFFFF, w) == Written(mem, false)
    ensures PokeWord(mem, 0xFFFE, w) == Written(mem[0xFFFE := Lo(w)], false)
  {
  }

  /** Words are little-endian: ReadWord(a) == mem[a] | mem[a + 1] << 8 whenever both cells exist. */
  lemma WordLittleEndian(mem: Image, a: Word)
    ensures PeekWord(mem, a).Some? <==> a <= 0xFFFD
    ensures a <= 0xFFFD ==> PeekWord(mem, a).value == mem[a] as int + mem[a + 1] as int * 0x100
  {
  }

  /**
   * WriteWord stores the low byte at a and the high byte at a + 1, touches nothing else, and
   * reading the word back gives what was written.
   */
  lemma WordRoundTrip(mem: Image, a: Word, w: Word)
    requires a <= 0xFFFD
    ensures PokeWord(mem, a, w).ok
    ensures PokeWord(mem, a, w).mem[a] == Lo(w) && PokeWord(mem, a, w).mem[a + 1] == Hi(w)
    ensures forall b :: 0 <= b < Size && b != a && b != a + 1 ==> PokeWord(mem, a, w).mem[b] == mem[b]
    ensures PeekWord(PokeWord(mem, a, w).mem, a) == Some(w)
  {
    SplitWord(w);
  }

  /** The range indexer succeeds exactly on ranges inside the store, and gives those cells in order. */
  lemma SliceDefined(mem: Image, start: int, end: int)
    ensures Slice(mem, start, end).Some? <==> 0 <= start <= end <= Size
    ensures Slice(mem, start, end).Some? ==>
      |Slice(mem, start, end).value| == end - start &&
      forall i :: 0 <= i < end - start ==> Slice(mem, start, end).value[i] == mem[start + i]
  {
  }

  /** The store object: `_bytes` is written in place. */
  class Memory {
    const bytes: array<Byte>

    ghost predicate Valid()
      reads this
    {
      bytes.Length == Size
    }

    /** The image the object holds. */
    function Image(): Image
      reads this, bytes
      requires Valid()
    {
      bytes[..]
    }

    /** A new store reads 0 everywhere. */
    constructor ()
      ensures Valid() && fresh(bytes)
      ensures forall a :: 0 <= a < Size ==> Image()[a] == 0
    {
      bytes := new Byte[Size](_ => 0);
    }

    /** The indexer's getter, and `ReadByte`. */
    method ReadByte(a: Word) returns (r: Option<Byte>)
      requires Valid()
      ensures r == Peek(Image(), a)
    {
      if a < bytes.Length {
        r := Some(bytes[a]);
      } else {
        r := None;
      }
    }

    /** The indexer's setter, and `WriteByte`; false when it throws. */
    method WriteByte(a: Word, v: Byte) returns (ok: bool)
      requires Valid()
      modifies bytes
      ensures ok == Poke(old(Image()), a, v).Some?
      ensures Image() == if ok then Poke(old(Image()), a, v).value else old(Image())
    {
      ok := a < bytes.Length;
      if ok {
        bytes[a] := v;
      }
    }

    /** `ReadWord`. */
    method ReadWord(a: Word) returns (r: Option<Word>)
      requires Valid()
      ensures r == PeekWord(Image(), a)
    {
      var lo := ReadByte(a);
      var hi := ReadByte(WordAdd(a, 1));
      if lo.Some? && hi.Some? {
        r := Some(MakeWord(lo.value, hi.value));
      } else {
        r := None;
      }
    }

    /** `WriteWord`; false when one of its writes throws. */
    method WriteWord(a: Word, w: Word) returns (ok: bool)
      requires Valid()
      modifies bytes
      ensures Written(Image(), ok) == PokeWord(old(Image()), a, w)
    {
      ok := WriteByte(a, Lo(w));
      if ok {
        ok := WriteByte(WordAdd(a, 1), Hi(w));
      }
    }

    /** The range indexer. */
    method Range(start: int, end: int) returns (r: Option<seq<Byte>>)
      requires Valid()
      ensures r == Slice(Image(), start, end)
    {
      if 0 <= start <= end <= bytes.Length {
        r := Some(bytes[start..end]);
      } else {
        r := None;
      }
    }
  }
}
