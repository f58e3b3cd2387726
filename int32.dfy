/** C#'s 32-bit `int`, with the unchecked (wrapping) `+ 1` and `- 1` that the
    "+1"-encoded optional references of an objective state rely on. */
module Int32s {

  const MinValue: int := -0x8000_0000
  const MaxValue: int := 0x7FFF_FFFF
  const Modulus: int := 0x1_0000_0000

  newtype Int32 = x: int | -0x8000_0000 <= x <= 0x7FFF_FFFF

  /** Two integers denote the same 32-bit value when they differ by a multiple of 2^32. */
  predicate Congruent(a: int, b: int) {
    (a - b) % Modulus == 0
  }

  /** Two distinct 32-bit values are never congruent, so a result stated only up
      to congruence is unique. */
  lemma CongruentInt32sAreEqual(a: Int32, b: Int32)
    requires Congruent(a as int, b as int)
    ensures a == b
  {
  }

  /** C#'s unchecked `x + 1`: `int.MaxValue + 1` wraps to `int.MinValue`. */
  function WrappingIncrement(x: Int32): (r: Int32)
    ensures Congruent(r as int, x as int + 1)
  {
    if x as int == MaxValue then MinValue as Int32 else x + 1
  }

  /** C#'s unchecked `x - 1`: `int.MinValue - 1` wraps to `int.MaxValue`. */
  function WrappingDecrement(x: Int32): (r: Int32)
    ensures Congruent(r as int, x as int - 1)
  {
    if x as int == MinValue then MaxValue as Int32 else x - 1
  }

  /** Decoding a "+1"-encoded value gives back what was encoded, for every 32-bit value. */
  lemma DecrementUndoesIncrement(x: Int32)
    ensures WrappingDecrement(WrappingIncrement(x)) == x
  {
  }

  /** Every stored value is the encoding of exactly the value it decodes to. */
  lemma IncrementUndoesDecrement(x: Int32)
    ensures WrappingIncrement(WrappingDecrement(x)) == x
  {
  }
}
