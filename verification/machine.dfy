/** Fixed-width C integers used by the erfc host code.

    The element count arrives as a 64-bit `size_t`, is stored in a C `int`
    (`element_num`) and is later handed to the kernel as an `unsigned int`.
    Dafny integers are unbounded, so both conversions are written out here as
    the two's-complement wrap of the low 32 bits.
 */
module Machine {

  const TWO_32: nat := 0x1_0000_0000
  const TWO_31: nat := 0x8000_0000

  /** Largest value of a C `int`. */
  const INT_MAX: nat := 0x7fff_ffff

  /** A C `int` (32-bit two's complement). */
  type Int32 = i: int | -0x8000_0000 <= i < 0x8000_0000

  /** A C `unsigned int`. */
  type Uint32 = u: int | 0 <= u < 0x1_0000_0000

  /** Conversion of an element count to `int`: keeps the low 32 bits and reads
      them as two's complement, so every count up to INT_MAX is kept as is. */
  function ToInt(v: nat): (r: Int32)
    ensures (r - v) % TWO_32 == 0
    ensures v <= INT_MAX <==> r == v
  {
    var low := v % TWO_32;
    if low < TWO_31 then low else low - TWO_32
  }

  /** Conversion of an `int` to `unsigned int`: non-negative values are kept,
      negative ones wrap around by 2^32. */
  function ToUnsigned(i: Int32): (r: Uint32)
    ensures (r - i) % TWO_32 == 0
    ensures 0 <= i <==> r == i
  {
    if 0 <= i then i else i + TWO_32
  }

  /** Narrowing a count to `int` and then widening it to `unsigned int`
      yields the count modulo 2^32. */
  lemma NarrowThenWiden(v: nat)
    ensures ToUnsigned(ToInt(v)) == v % TWO_32
    ensures v < TWO_32 ==> ToUnsigned(ToInt(v)) == v
  {
  }
}
