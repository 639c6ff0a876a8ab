/** Byte-level vocabulary shared by the models: single bits of a byte and the
    little-endian packing the firmware uses for 16- and 32-bit values. */
module Bits {

  /** `BIT(j)`, the byte with only bit `j` set. */
  function Mask(j: nat): (m: bv8)
    requires j < 8
  {
    if j == 0 then 1 else if j == 1 then 2 else if j == 2 then 4 else if j == 3 then 8
    else if j == 4 then 16 else if j == 5 then 32 else if j == 6 then 64 else 128
  }

  /** Bit `j` of `x`, the test `x & BIT(j)` of the C source. */
  function Bit(x: bv8, j: nat): bool
    requires j < 8
  {
    x & Mask(j) != 0
  }

  /** `x` with bit `j` forced to `b`: `x |= BIT(j)` or `x &= ~BIT(j)`. */
  function SetBit(x: bv8, j: nat, b: bool): (r: bv8)
    requires j < 8
    ensures Bit(r, j) == b
  {
    if b then SetBits(x, Mask(j)) else ClearBits(x, Mask(j))
  }

  /** Forcing bit `j` leaves every other bit as it was. */
  lemma SetBitOther(x: bv8, j: nat, b: bool, i: nat)
    requires i < 8 && j < 8 && i != j
    ensures Bit(SetBit(x, j, b), i) == Bit(x, i)
  {
    var m, n := Mask(i), Mask(j);
    MasksDisjoint(i, j);
    OtherMaskKept(x, m, n);
  }

  lemma MasksDisjoint(i: nat, j: nat)
    requires i < 8 && j < 8 && i != j
    ensures Mask(i) & Mask(j) == 0
  {
  }

  lemma OtherMaskKept(x: bv8, m: bv8, n: bv8)
    requires m & n == 0
    ensures SetBits(x, n) & m == x & m
    ensures ClearBits(x, n) & m == x & m
  {
  }

  /** `x |= m` */
  function SetBits(x: bv8, m: bv8): bv8
  {
    x | m
  }

  /** `x &= ~m` */
  function ClearBits(x: bv8, m: bv8): bv8
  {
    x & !m
  }

  /** A bit of `x & y` is set exactly when it is set in both. */
  lemma BitOfAnd(x: bv8, y: bv8, c: nat)
    requires c < 8
    ensures Bit(x & y, c) <==> Bit(x, c) && Bit(y, c)
  {
  }

  lemma NoBitOfZero(c: nat)
    requires c < 8
    ensures !Bit(0, c)
  {
  }

  /** Two bytes are equal exactly when all eight bits agree. */
  lemma BitsDetermineByte(x: bv8, y: bv8)
    requires forall i :: 0 <= i < 8 ==> Bit(x, i) == Bit(y, i)
    ensures x == y
  {
    assert Bit(x, 0) == Bit(y, 0) && Bit(x, 1) == Bit(y, 1) && Bit(x, 2) == Bit(y, 2) && Bit(x, 3) == Bit(y, 3);
    assert Bit(x, 4) == Bit(y, 4) && Bit(x, 5) == Bit(y, 5) && Bit(x, 6) == Bit(y, 6) && Bit(x, 7) == Bit(y, 7);
  }

  /** The number of bits below `n` in which `x` and `y` differ. */
  function DiffBits(x: bv8, y: bv8, n: nat): nat
    requires n <= 8
  {
    if n == 0 then 0 else DiffBits(x, y, n - 1) + (if Bit(x, n - 1) != Bit(y, n - 1) then 1 else 0)
  }

  lemma {:induction false} DiffBitsSelf(x: bv8, n: nat)
    requires n <= 8
    ensures DiffBits(x, x, n) == 0
  {
    if n > 0 {
      DiffBitsSelf(x, n - 1);
    }
  }

  /** Bytes that differ in no bit are equal. */
  lemma NoDiffBitsSame(x: bv8, y: bv8)
    requires DiffBits(x, y, 8) == 0
    ensures x == y
  {
    DiffBitsZero(x, y, 8);
    BitsDetermineByte(x, y);
  }

  lemma {:induction false} DiffBitsZero(x: bv8, y: bv8, n: nat)
    requires n <= 8 && DiffBits(x, y, n) == 0
    ensures forall i :: 0 <= i < n ==> Bit(x, i) == Bit(y, i)
  {
    if n > 0 {
      DiffBitsZero(x, y, n - 1);
    }
  }

  /** Forcing bit `j` does not change how the bits below `j` compare. */
  lemma {:induction false} DiffBitsSetAbove(x: bv8, y: bv8, j: nat, b: bool, n: nat)
    requires n <= j < 8
    ensures DiffBits(x, SetBit(y, j, b), n) == DiffBits(x, y, n)
  {
    if n > 0 {
      DiffBitsSetAbove(x, y, j, b, n - 1);
      SetBitOther(y, j, b, n - 1);
    }
  }

  /** Putting bit `j` of `y` back to bit `j` of `x` leaves the bits up to
      `j` differing as the bits below `j` did. */
  lemma DiffBitsRevert(x: bv8, y: bv8, j: nat)
    requires j < 8
    ensures DiffBits(x, SetBit(y, j, Bit(x, j)), j + 1) == DiffBits(x, y, j)
  {
    DiffBitsSetAbove(x, y, j, Bit(x, j), j);
  }

  /** At least two bits of `x` are set. */
  ghost predicate TwoBits(x: bv8)
  {
    exists j, k :: 0 <= j < k < 8 && Bit(x, j) && Bit(x, k)
  }

  /** Position of the least significant set bit. */
  function Lowest(x: bv8): (j: nat)
    requires x != 0
    ensures j < 8 && Bit(x, j)
    ensures forall i :: 0 <= i < j ==> !Bit(x, i)
  {
    if x & 1 == 1 then 0 else if x & 2 == 2 then 1 else if x & 4 == 4 then 2
    else if x & 8 == 8 then 3 else if x & 16 == 16 then 4 else if x & 32 == 32 then 5
    else if x & 64 == 64 then 6 else 7
  }

  /** Low byte first, as `(uint8_t)v, (uint8_t)(v >> 8)`. */
  function Le16(v: bv16): (r: seq<bv8>)
    ensures |r| == 2
  {
    [(v & 0xFF) as bv8, (v >> 8) as bv8]
  }

  /** `lo | (hi << 8)`, widening both bytes first. */
  function FromLe16(lo: bv8, hi: bv8): bv16
  {
    (lo as bv16) | ((hi as bv16) << 8)
  }

  lemma Le16RoundTrip(v: bv16)
    ensures FromLe16(Le16(v)[0], Le16(v)[1]) == v
  {
  }

  lemma FromLe16RoundTrip(lo: bv8, hi: bv8)
    ensures Le16(FromLe16(lo, hi)) == [lo, hi]
  {
  }

  /** Four bytes, least significant first, as `(uint8_t)(v >> 8*i)`. */
  function Le32(v: bv32): (r: seq<bv8>)
    ensures |r| == 4
  {
    [(v & 0xFF) as bv8, ((v >> 8) & 0xFF) as bv8, ((v >> 16) & 0xFF) as bv8, (v >> 24) as bv8]
  }

  /** The value whose byte `i` is `b[i]`. */
  function FromLe32(b: seq<bv8>): bv32
    requires |b| == 4
  {
    (b[0] as bv32) | ((b[1] as bv32) << 8) | ((b[2] as bv32) << 16) | ((b[3] as bv32) << 24)
  }

  lemma Le32RoundTrip(v: bv32)
    ensures FromLe32(Le32(v)) == v
  {
  }

  lemma FromLe32RoundTrip(b: seq<bv8>)
    requires |b| == 4
    ensures Le32(FromLe32(b)) == b
  {
  }
}
