/**
 * The `Byte` type of the emulator and the bit arithmetic on non-negative
 * integers that the CPU, the APU and the mapper share.
 */
module NesTypes {

  /** A byte as the source's `Byte` (a number in 0..255). */
  type Byte = x: int | 0 <= x < 0x100

  function Pow2(k: nat): (r: nat)
    ensures r >= 1
  {
    if k == 0 then 1 else 2 * Pow2(k - 1)
  }

  /** The powers of two the registers' bit positions use. */
  lemma Pow2Values()
    ensures Pow2(5) == 0x20 && Pow2(6) == 0x40 && Pow2(7) == 0x80 && Pow2(8) == 0x100
  {
  }

  /** Powers of two grow with the exponent. */
  lemma {:induction false} Pow2Monotone(j: nat, k: nat)
    requires j <= k
    ensures Pow2(j) <= Pow2(k)
    decreases k
  {
    if j < k {
      Pow2Monotone(j, k - 1);
    }
  }

  /** Bit `k` of `x`, as JavaScript's `(x & (1 << k)) !== 0` sees it. */
  predicate Bit(x: nat, k: nat) { (x / Pow2(k)) % 2 == 1 }

  /** `(x & mask) !== 0` for a mask of a single bit. */
  predicate HasBit(x: nat, mask: nat)
    requires mask > 0
  {
    (x / mask) % 2 == 1
  }

  datatype BitOp = AndOp | OrOp | XorOp

  function Combine(op: BitOp, x: bool, y: bool): bool
  {
    match op
    case AndOp => x && y
    case OrOp => x || y
    case XorOp => x != y
  }

  /** The low `width` bits of `x op y`, built from the lowest bit up. */
  function Bitwise(op: BitOp, x: nat, y: nat, width: nat): (r: nat)
    ensures r < Pow2(width)
  {
    if width == 0 then 0
    else 2 * Bitwise(op, x / 2, y / 2, width - 1) + (if Combine(op, x % 2 == 1, y % 2 == 1) then 1 else 0)
  }

  /** The bitwise operations of AND, ORA and EOR on bytes. */
  function And8(x: Byte, y: Byte): Byte { Bitwise(AndOp, x, y, 8) }
  function Or8(x: Byte, y: Byte): Byte { Bitwise(OrOp, x, y, 8) }
  function Xor8(x: Byte, y: Byte): Byte { Bitwise(XorOp, x, y, 8) }

  // ---------------------------------------------------------------------
  // Division

  /** Dividing by `d` and then by `e` is dividing by `d * e`. */
  lemma DivDivGeneral(x: nat, d: nat, e: nat)
    requires d > 0 && e > 0
    ensures x / (d * e) == x / d / e
  {
    var q := x / d;
    var r := x % d;
    var q2 := q / e;
    var r2 := q % e;
    assert x == q * d + r;
    assert q == q2 * e + r2;
    Distribute(q2, e, r2, d);
    MulLeq(r2, e - 1, d);
    Distribute(0, e, e - 1, d);
    DivUnique(x, d * e, q2, r2 * d + r);
  }

  /** (q*e + r)*d == q*(d*e) + r*d. */
  lemma Distribute(q: int, e: int, r: int, d: int)
    ensures (q * e + r) * d == q * (d * e) + r * d
  {
  }

  lemma MulLeq(a: nat, b: nat, d: nat)
    requires a <= b
    ensures a * d <= b * d
  {
  }

  lemma MulAtLeast(d: int, t: int)
    requires d > 0 && t >= 1
    ensures t * d >= d
  {
  }

  /** The quotient and remainder are the unique ones: x == q*d + r with 0 <= r < d. */
  lemma DivUnique(x: int, d: int, q: int, r: int)
    requires d > 0 && 0 <= r < d && x == q * d + r
    ensures x / d == q && x % d == r
  {
    var t := q - x / d;
    assert (x / d) * d + x % d == x;
    assert t * d == x % d - r;
    if t >= 1 {
      MulAtLeast(d, t);
    } else if t <= -1 {
      MulAtLeast(d, -t);
    }
  }

  /** Bit `k > 0` of `x` is bit `k - 1` of `x / 2`. */
  lemma BitOfHalf(x: nat, k: nat)
    requires k > 0
    ensures Bit(x, k) <==> Bit(x / 2, k - 1)
  {
    DivDivGeneral(x, 2, Pow2(k - 1));
  }

  /** Bit `k` of `x op y` combines bit `k` of `x` and bit `k` of `y`. */
  lemma {:induction false} BitwiseBit(op: BitOp, x: nat, y: nat, width: nat, k: nat)
    requires k < width
    ensures Bit(Bitwise(op, x, y, width), k) <==> Combine(op, Bit(x, k), Bit(y, k))
    decreases k
  {
    var rest := Bitwise(op, x / 2, y / 2, width - 1);
    var r := Bitwise(op, x, y, width);
    assert r == 2 * rest + (if Combine(op, x % 2 == 1, y % 2 == 1) then 1 else 0);
    if k == 0 {
      assert r % 2 == (if Combine(op, x % 2 == 1, y % 2 == 1) then 1 else 0);
    } else {
      BitwiseBit(op, x / 2, y / 2, width - 1, k - 1);
      BitOfHalf(r, k);
      BitOfHalf(x, k);
      BitOfHalf(y, k);
      assert r / 2 == rest;
    }
  }
}
