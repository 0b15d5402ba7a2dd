// Fixed-width integers of the C++ source (u8, u16, u32) and the bit operations the
// encoder applies to them. Widths are unbounded ints restricted by subset types; every
// truncating cast and every wrap-around is written out with `Wrap8`, `Wrap16`, `Wrap32`.
module Types {

  type u8 = x: int | 0 <= x < 0x100
  type u16 = x: int | 0 <= x < 0x1_0000
  type u32 = x: int | 0 <= x < 0x1_0000_0000

  /** A C cast to `u8` of any integer (two's complement truncation). */
  function Wrap8(x: int): u8 { x % 0x100 }

  /** A C cast to `u16` of any integer. */
  function Wrap16(x: int): u16 { x % 0x1_0000 }

  /** A C `u32` addition that wraps around. */
  function Wrap32(x: int): u32 { x % 0x1_0000_0000 }

  lemma Wrap16OfWrap32(x: int)
    ensures Wrap16(Wrap32(x)) == Wrap16(x)
  {
    var q := x / 0x1_0000_0000;
    assert x == q * 0x1_0000_0000 + Wrap32(x);
    assert q * 0x1_0000_0000 == (q * 0x1_0000) * 0x1_0000;
  }

  function Pow2(k: nat): (r: nat)
    ensures r >= 1
  {
    if k == 0 then 1 else 2 * Pow2(k - 1)
  }

  /** Bitwise OR of two non-negative integers, bit by bit from the lowest. */
  function BitOr(a: nat, b: nat): nat
    decreases a
  {
    if a == 0 then b
    else if b == 0 then a
    else 2 * BitOr(a / 2, b / 2) + (if a % 2 == 1 || b % 2 == 1 then 1 else 0)
  }

  /** `a | b` on two bytes (the `byte |= ...` of the encoder). */
  function Or8(a: u8, b: u8): (r: u8)
    ensures a == 0 ==> r == b
    ensures b == 0 ==> r == a
  {
    BitOrBound(a, b, 8);
    BitOr(a, b)
  }

  lemma {:induction false} BitOrBound(a: nat, b: nat, k: nat)
    requires a < Pow2(k) && b < Pow2(k)
    ensures BitOr(a, b) < Pow2(k)
  {
    if a != 0 && b != 0 {
      BitOrBound(a / 2, b / 2, k - 1);
    }
  }

  /** OR-ing a value into the zero low bits of a shifted one is an addition. */
  lemma {:induction false} BitOrDisjoint(a: nat, b: nat, k: nat)
    requires b < Pow2(k)
    ensures BitOr(a * Pow2(k), b) == a * Pow2(k) + b
  {
    if k > 0 && a != 0 && b != 0 {
      assert a * Pow2(k) == 2 * (a * Pow2(k - 1));
      assert (a * Pow2(k)) / 2 == a * Pow2(k - 1);
      BitOrDisjoint(a, b / 2, k - 1);
    }
  }

  /** Packing two nibbles with `(hi << 4) | lo` gives `hi * 16 + lo`. */
  lemma NibblePair(hi: int, lo: int)
    requires 0 <= hi < 16 && 0 <= lo < 16
    ensures Or8(hi * 16, lo) == hi * 16 + lo
  {
    assert Pow2(4) == 16;
    BitOrDisjoint(hi, lo, 4);
  }
}
