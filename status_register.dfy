/**
 * The processor status register of Emulation/StatusRegister.cs: seven flags kept as bits of
 * one byte, read with `HasFlag`, written with `|=` and `&= ~`, and cleared all at once.
 */
module StatusRegisters {

  datatype Flag = Carry | Zero | Interrupt | Decimal | Break | Overflow | Negative

  /** The bit each flag owns in the private `Flags` enum; V is 0x20 and N is 0x40. */
  function Mask(f: Flag): bv8
  {
    match f
    case Carry => 0x01
    case Zero => 0x02
    case Interrupt => 0x04
    case Decimal => 0x08
    case Break => 0x10
    case Overflow => 0x20
    case Negative => 0x40
  }

  /** `Enum.HasFlag`: every bit of the flag is set in the value. */
  predicate HasFlag(value: bv8, f: Flag)
  {
    value & Mask(f) == Mask(f)
  }

  /** `UpdateFlags`: or the flag's bit in, or and it out. */
  function Update(value: bv8, f: Flag, on: bool): (r: bv8)
    ensures HasFlag(r, f) == on
    ensures forall g :: g != f ==> HasFlag(r, g) == HasFlag(value, g)
    ensures r & 0x80 == value & 0x80
  {
    if on then value | Mask(f) else value & !Mask(f)
  }

  /** Each flag owns exactly one bit, no two flags share it, and none of them is bit 7. */
  lemma MasksAreDistinctBits(f: Flag, g: Flag)
    ensures Mask(f) != 0 && Mask(f) & (Mask(f) - 1) == 0
    ensures Mask(f) & 0x80 == 0
    ensures f != g ==> Mask(f) & Mask(g) == 0
  {
  }

  /** Writing a flag its current value leaves the register as it was. */
  lemma UpdateIdempotent(value: bv8, f: Flag, on: bool)
    requires HasFlag(value, f) == on
    ensures Update(value, f, on) == value
  {
  }

  /** The value 0 (`Flags.None`) has every flag false. */
  lemma NoneHasNoFlag(f: Flag)
    ensures !HasFlag(0, f)
  {
  }

  /** The register object: its `_value` field is overwritten in place. */
  class StatusRegister {
    var value: bv8

    /** Only the seven flag bits are ever set. */
    ghost predicate Valid()
      reads this
    {
      value & 0x80 == 0
    }

    /** `_value = Flags.None`. */
    constructor ()
      ensures Valid() && value == 0
      ensures forall f :: !Get(f)
    {
      value := 0;
    }

    /** A flag property's getter. */
    function Get(f: Flag): bool
      reads this
    {
      HasFlag(value, f)
    }

    /** A flag property's setter: `UpdateFlags` on `_value`. */
    method Set(f: Flag, on: bool)
      requires Valid()
      modifies this
      ensures Valid()
      ensures value == Update(old(value), f, on)
      ensures Get(f) == on
      ensures forall g :: g != f ==> Get(g) == old(Get(g))
    {
      value := Update(value, f, on);
    }

    /** `ClearAll`: back to `Flags.None`. */
    method ClearAll()
      modifies this
      ensures Valid() && value == 0
      ensures forall f :: !Get(f)
    {
      value := 0;
    }
  }
}
