/**
 The Java primitives the configuration object is written in: 32-bit `int`
 with two's-complement wrap-around, signed `byte`, the `&` operator on
 single-bit masks, nullable references and the exceptions the code can throw.
 */
module JavaTypes {

  const TWO_POW_32: int := 0x1_0000_0000

  /** A Java `int`. */
  type Int32 = x: int | -0x8000_0000 <= x < 0x8000_0000

  /** A Java `byte` (signed). */
  type JavaByte = b: int | -0x80 <= b < 0x80

  /** An unsigned octet, the value a descriptor byte stands for on the wire. */
  type Uint8 = u: int | 0 <= u < 0x100

  /** An unsigned 16-bit quantity (a descriptor's `w` fields). */
  type Uint16 = u: int | 0 <= u < 0x1_0000

  /** A Java reference that may be `null`. */
  datatype Option<+T> = None | Some(value: T)

  /** The exceptions the modelled code can raise. */
  datatype Exception =
    | NullPointer            // dereferencing or checking a null reference
    | ArrayIndexOutOfBounds  // indexing a Java array outside 0 .. length-1
    | IndexOutOfBounds       // ByteBuffer.get past the buffer's limit
    | BadParcel              // reading a parcel entry that is absent or of another kind

  /** The outcome of a Java call: a value, or the exception it throws. */
  datatype Result<+T> = Ok(value: T) | Throw(error: Exception) {

    predicate IsFailure() {
      Throw?
    }

    function PropagateFailure<U>(): Result<U>
      requires Throw?
    {
      Throw(error)
    }

    function Extract(): T
      requires Ok?
    {
      value
    }
  }

  /** Java's narrowing of an exact integer result to `int`. */
  function Wrap32(x: int): (r: Int32)
    ensures (r - x) % TWO_POW_32 == 0
    ensures -0x8000_0000 <= x < 0x8000_0000 ==> r == x
  {
    (x + 0x8000_0000) % TWO_POW_32 - 0x8000_0000
  }

  /** `0xFF & b`: the byte is sign-extended to `int`, then all but its low
      eight bits are cleared. */
  function MaskByte(b: JavaByte): (u: Uint8)
    ensures (u - b) % 0x100 == 0
  {
    if b < 0 then b + 0x100 else b
  }

  /** `(byte) u`: the octet as Java stores it in a byte buffer. */
  function ToJavaByte(u: Uint8): (b: JavaByte)
    ensures (u - b) % 0x100 == 0
  {
    if u < 0x80 then u else u - 0x100
  }

  /** Masking undoes the store, so an octet read back through `0xFF &` is unchanged. */
  lemma MaskByteOfStoredOctet(u: Uint8)
    ensures MaskByte(ToJavaByte(u)) == u
  {
  }

  /** Storing undoes the mask, so `0xFF &` loses nothing. */
  lemma StoredOctetOfMaskByte(b: JavaByte)
    ensures ToJavaByte(MaskByte(b)) == b
  {
  }

  /** The 32-bit pattern of an `int`, read as an unsigned number. */
  function Unsigned32(x: Int32): (u: int)
    ensures 0 <= u < TWO_POW_32
    ensures (u - x) % TWO_POW_32 == 0
  {
    if x < 0 then x + TWO_POW_32 else x
  }

  /** The 32 bits Java's bitwise operators act on. */
  function Bits(x: Int32): (bits: bv32) {
    Unsigned32(x) as bv32
  }

  /** `(x & mask) != 0` for an `int` x. */
  predicate MaskTest(x: Int32, mask: bv32) {
    Bits(x) & mask != 0
  }

  /** Reference definition of a single bit: the bit of weight `weight` (a power
      of two) in the two's-complement representation of x. Dafny's `/` rounds
      toward negative infinity for a positive divisor, which is exactly what
      makes this right for negative x as well. */
  predicate BitSet(x: int, weight: nat)
    requires weight > 0
  {
    (x / weight) % 2 == 1
  }

  /** Java's `x ^ (1 << k)` for a bit weight 2^k below 2^31, stated arithmetically. */
  function FlipBit(x: Int32, weight: nat): (r: Int32)
    requires weight == 0x20 || weight == 0x40
    ensures BitSet(r, weight) != BitSet(x, weight)
    ensures r == x + weight || r == x - weight
  {
    FlipStaysInRange(x, weight);
    if BitSet(x, weight) then x - weight else x + weight
  }

  /** Clearing a set bit or setting a clear one stays within `int` and
      changes that bit. */
  lemma FlipStaysInRange(x: Int32, weight: nat)
    requires weight == 0x20 || weight == 0x40
    ensures BitSet(x, weight) ==> -0x8000_0000 <= x - weight && !BitSet(x - weight, weight)
    ensures !BitSet(x, weight) ==> x + weight < 0x8000_0000 && BitSet(x + weight, weight)
  {
    ShiftByOneBlock(x, weight);
    TopBlock(x, weight);
  }

  // Quotient facts about plain integers, kept free of the definitions above
  // so that the solver sees only linear arithmetic.

  lemma ShiftByOneBlock(x: int, w: int)
    requires w == 0x20 || w == 0x40
    ensures (x + w) / w == x / w + 1
    ensures (x - w) / w == x / w - 1
  {
  }

  lemma ShiftByTwoBlocks(x: int)
    ensures ((x + 0x40) / 0x20) % 2 == (x / 0x20) % 2
    ensures ((x - 0x40) / 0x20) % 2 == (x / 0x20) % 2
  {
    assert (x + 0x40) / 0x20 == x / 0x20 + 2;
    assert (x - 0x40) / 0x20 == x / 0x20 - 2;
  }

  lemma Bit5ByRemainder(x: int)
    ensures (x / 0x20) % 2 == 1 <==> x % 0x40 >= 0x20
  {
  }

  lemma WithinBlock(x: int)
    ensures (x / 0x20) % 2 == 0 ==> (x + 0x20) / 0x40 == x / 0x40
    ensures (x / 0x20) % 2 == 1 ==> (x - 0x20) / 0x40 == x / 0x40
  {
    Bit5ByRemainder(x);
  }

  /** The top of `int` has every low bit set and the bottom has every low bit clear. */
  lemma TopBlock(x: int, w: int)
    requires w == 0x20 || w == 0x40
    requires -0x8000_0000 <= x < 0x8000_0000
    ensures (x / w) % 2 == 0 ==> x + w < 0x8000_0000
    ensures (x / w) % 2 == 1 ==> -0x8000_0000 <= x - w
  {
  }

  lemma WrapBy32(x: int)
    ensures (x + TWO_POW_32) / 0x20 == x / 0x20 + 0x800_0000
  {
  }

  lemma WrapBy64(x: int)
    ensures (x + TWO_POW_32) / 0x40 == x / 0x40 + 0x400_0000
  {
  }

  lemma UnsignedMask40(u: int)
    requires 0 <= u < TWO_POW_32
    ensures ((u as bv32) & 0x40 != 0) <==> (u / 0x40) % 2 == 1
  {
  }

  lemma UnsignedMask20(u: int)
    requires 0 <= u < TWO_POW_32
    ensures ((u as bv32) & 0x20 != 0) <==> (u / 0x20) % 2 == 1
  {
  }

  /** Adding 2^32 does not change either of the two bits. */
  lemma UnsignedKeepsBit(x: Int32, weight: nat)
    requires weight == 0x20 || weight == 0x40
    ensures BitSet(Unsigned32(x), weight) == BitSet(x, weight)
  {
    if x < 0 {
      assert Unsigned32(x) == x + TWO_POW_32;
      if weight == 0x20 {
        WrapBy32(x);
      } else {
        WrapBy64(x);
      }
    }
  }

  /** The mask `1 << 6` tests exactly the bit of weight 64. */
  lemma MaskTestBit6(x: Int32)
    ensures MaskTest(x, 1 << 6) <==> BitSet(x, 0x40)
  {
    UnsignedMask40(Unsigned32(x));
    UnsignedKeepsBit(x, 0x40);
  }

  /** The mask `1 << 5` tests exactly the bit of weight 32. */
  lemma MaskTestBit5(x: Int32)
    ensures MaskTest(x, 1 << 5) <==> BitSet(x, 0x20)
  {
    UnsignedMask20(Unsigned32(x));
    UnsignedKeepsBit(x, 0x20);
  }

  /** Flipping bit D6 leaves bit D5 alone: x moves by 64, two whole blocks of 32. */
  lemma FlipBit6KeepsBit5(x: Int32)
    ensures BitSet(FlipBit(x, 0x40), 0x20) == BitSet(x, 0x20)
  {
    ShiftByTwoBlocks(x);
  }

  /** Flipping bit D5 leaves bit D6 alone: x moves by 32 within its block of 64. */
  lemma FlipBit5KeepsBit6(x: Int32)
    ensures BitSet(FlipBit(x, 0x20), 0x40) == BitSet(x, 0x40)
  {
    WithinBlock(x);
  }
}
