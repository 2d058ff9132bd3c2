/**
 * Machine integers of the source (u8, u16, u32, u64) as bounded `int`s, and the
 * bit-level operators the interpreter applies to them, stated arithmetically.
 */
module Bytes {

  type byte = x: int | 0 <= x < 0x100
  type nibble = x: int | 0 <= x < 0x10
  type u16 = x: int | 0 <= x < 0x1_0000
  type u32 = x: int | 0 <= x < 0x1_0000_0000
  type u64 = x: int | 0 <= x < 0x1_0000_0000_0000_0000

  function Pow2(k: nat): (r: nat)
    ensures r > 0
  {
    if k == 0 then 1 else 2 * Pow2(k - 1)
  }

  /** Bit k of a, counting from the least significant bit. */
  predicate Bit(a: nat, k: nat)
  {
    a / Pow2(k) % 2 == 1
  }

  datatype BitOp = And | Or | Xor

  predicate Combine(op: BitOp, p: bool, q: bool)
  {
    match op
    case And => p && q
    case Or => p || q
    case Xor => p != q
  }

  /**
   * Rust's `&`, `|` and `^` on unsigned integers `width` bits wide: the low
   * `width` bits of a and b combined bit by bit.
   */
  function Bitwise(op: BitOp, a: nat, b: nat, width: nat): (r: nat)
    ensures r < Pow2(width)
  {
    if width == 0 then 0
    else 2 * Bitwise(op, a / 2, b / 2, width - 1) + (if Combine(op, a % 2 == 1, b % 2 == 1) then 1 else 0)
  }

  /** `&`, `|` or `^` on two u8 values. */
  function Op8(op: BitOp, a: byte, b: byte): byte
  {
    assert Pow2(8) == 0x100;
    Bitwise(op, a, b, 8)
  }

  /** Rust's `x as u8` from a wider integer: keeps the low eight bits (two's complement for negatives). */
  function AsU8(a: int): byte
  {
    a % 0x100
  }

  /** Rust's `%` on signed integers: truncates toward zero, so the remainder takes the sign of a. */
  function TruncRem(a: int, d: int): (r: int)
    requires d > 0
    ensures -d < r < d
    ensures a >= 0 ==> r >= 0
    ensures a < 0 ==> r <= 0
  {
    if a >= 0 then a % d else -((-a) % d)
  }

  lemma DivUnique(a: int, d: int, q: int, r: int)
    requires d > 0 && 0 <= r < d && a == d * q + r
    ensures a / d == q && a % d == r
  {
    var q0, r0 := a / d, a % d;
    assert d * (q - q0) == r0 - r;
    if q > q0 {
      MulAtLeast(d, q - q0);
    } else if q < q0 {
      MulAtLeast(d, q0 - q);
    }
  }

  lemma MulAtLeast(d: int, k: int)
    requires d > 0 && k >= 1
    ensures d * k >= d
  {
    assert d * k == d * (k - 1) + d;
  }

  lemma HalfOfPow2Div(a: nat, k: nat)
    ensures a / Pow2(k + 1) == (a / 2) / Pow2(k)
  {
    var p := Pow2(k);
    var q, s := a / 2, (a / 2) / p;
    assert a == 2 * q + a % 2;
    assert q == p * s + q % p;
    assert a == (2 * p) * s + (2 * (q % p) + a % 2);
    DivUnique(a, 2 * p, s, 2 * (q % p) + a % 2);
  }

  /** Bit k + 1 of a is bit k of a / 2: the recursion step of every lemma below. */
  lemma BitOfHalf(a: nat, k: nat)
    ensures Bit(a, k + 1) == Bit(a / 2, k)
  {
    HalfOfPow2Div(a, k);
  }

  /** Each bit of a bitwise combination is the combination of the operands' bits. */
  lemma {:induction false} BitwiseBit(op: BitOp, a: nat, b: nat, width: nat, k: nat)
    requires k < width
    ensures Bit(Bitwise(op, a, b, width), k) == Combine(op, Bit(a, k), Bit(b, k))
  {
    var r := Bitwise(op, a, b, width);
    var rest := Bitwise(op, a / 2, b / 2, width - 1);
    var low := if Combine(op, a % 2 == 1, b % 2 == 1) then 1 else 0;
    assert r == 2 * rest + low;
    assert r / 2 == rest && r % 2 == low;
    if k > 0 {
      BitwiseBit(op, a / 2, b / 2, width - 1, k - 1);
      BitOfHalf(r, k - 1);
      BitOfHalf(a, k - 1);
      BitOfHalf(b, k - 1);
    }
  }

  lemma {:induction false} AndZero(a: nat, width: nat)
    ensures Bitwise(And, a, 0, width) == 0
  {
    if width > 0 {
      AndZero(a / 2, width - 1);
    }
  }

  /**
   * Masking with a single bit, `a & (1 << j)` in the source, keeps exactly
   * bit j of a.
   */
  lemma {:induction false} SingleBitMask(a: nat, j: nat, width: nat)
    requires j < width
    ensures Bitwise(And, a, Pow2(j), width) == if Bit(a, j) then Pow2(j) else 0
  {
    if j == 0 {
      AndZero(a / 2, width - 1);
    } else {
      assert Pow2(j) % 2 == 0 && Pow2(j) / 2 == Pow2(j - 1);
      SingleBitMask(a / 2, j - 1, width - 1);
      BitOfHalf(a, j - 1);
    }
  }

  /** Rust's `as u8` of the signed remainder by 0x100 is the mathematical residue modulo 256. */
  lemma AsU8OfTruncRem(a: int)
    ensures AsU8(TruncRem(a, 0x100)) == a % 0x100
  {
    var r := TruncRem(a, 0x100);
    var q := (a - r) / 0x100;
    assert a == 0x100 * q + r;
    if r < 0 {
      DivUnique(a, 0x100, q - 1, r + 0x100);
      DivUnique(r, 0x100, -1, r + 0x100);
    } else {
      DivUnique(a, 0x100, q, r);
      DivUnique(r, 0x100, 0, r);
    }
  }
}
