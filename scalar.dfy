/**
 * The scalar operators that the vector types apply once per component.
 *
 * The element type is C++ `int` (the `int2`, `int3`, `int4` instantiations),
 * taken as an unbounded integer, so nothing here wraps at 32 bits. In C++
 * an overflowing `+`, `-` or `*` is undefined, while `<<` is defined and
 * wraps into the sign bit (from C++14 when the result fits in `unsigned`,
 * always from C++20); here `a << n` is `a * 2^n`. The operators follow the
 * C++ rules for `int`: `/` truncates toward zero and `%` takes the sign of the
 * dividend, the bitwise operators act on the two's-complement representation,
 * and a shift amount must lie in [0, 32).
 */
module Scalar {

  /** The ten binary operators for which the vector types generate overloads. */
  datatype Op = Add | Sub | Mul | Div | Mod | And | Or | Xor | Shl | Shr

  /** The three unary operators: `+v`, `-v` and `~v`. */
  datatype UnaryOp = Plus | Minus | Complement

  /** Width in bits of the element type `int`; a shift by this much or more is undefined. */
  const IntBits: nat := 32

  /**
   * What C++ demands of the operands of `a op b`, on unbounded `int` (where
   * overflow cannot occur): `+ - * & | ^` are always defined, `/` and `%`
   * need a non-zero divisor, and a shift amount must be neither negative nor
   * as wide as `int`.
   */
  predicate Defined(op: Op, a: int, b: int): (ok: bool)
    ensures !ok ==> op.Div? || op.Mod? || op.Shl? || op.Shr?
    ensures (op.Div? || op.Mod?) && b == 0 ==> !ok
    ensures (op.Shl? || op.Shr?) && (b < 0 || b >= 32) ==> !ok
    ensures (op.Div? || op.Mod?) && b != 0 ==> ok
    ensures (op.Shl? || op.Shr?) && 0 <= b < 32 ==> ok
  {
    match op
    case Div | Mod => b != 0
    case Shl | Shr => 0 <= b < IntBits
    case _ => true
  }

  function Abs(a: int): nat
  {
    if a < 0 then -a else a
  }

  /**
   * C++ integer division: the quotient truncated toward zero and the remainder
   * that goes with it, whose sign is that of the dividend.
   */
  function DivMod(a: int, b: int): (qr: (int, int))
    requires b != 0
    ensures a == b * qr.0 + qr.1
    ensures Abs(qr.1) < Abs(b)
    ensures qr.1 == 0 || (qr.1 < 0 <==> a < 0)
  {
    var q := if a >= 0 then (if b > 0 then a / b else -(a / -b))
             else (if b > 0 then -((-a) / b) else (-a) / (-b));
    (q, a - b * q)
  }

  /** 2 to the power n. */
  function Pow2(n: nat): (r: nat)
    ensures r > 0
  {
    if n == 0 then 1 else 2 * Pow2(n - 1)
  }

  function AndBit(p: bool, q: bool): bool { p && q }
  function OrBit(p: bool, q: bool): bool { p || q }
  function XorBit(p: bool, q: bool): bool { p != q }

  /** The bit operation behind `&`, `|` or `^`. */
  function BitOf(op: Op): (bool, bool) -> bool
    requires op.And? || op.Or? || op.Xor?
  {
    if op.And? then AndBit else if op.Or? then OrBit else XorBit
  }

  /**
   * Applies the bit operation f to every bit of the (infinite) two's-complement
   * representations of a and b. 0 and -1 are the all-zeros and all-ones words.
   */
  function Bitwise(f: (bool, bool) -> bool, a: int, b: int): (r: int)
    // the sign bit of the result is f of the operands' sign bits ...
    ensures r < 0 <==> f(a < 0, b < 0)
    // ... and so is its lowest bit
    ensures r % 2 == 1 <==> f(a % 2 == 1, b % 2 == 1)
    decreases Abs(a) + Abs(b)
  {
    if (a == 0 || a == -1) && (b == 0 || b == -1) then
      (if f(a == -1, b == -1) then -1 else 0)
    else
      2 * Bitwise(f, a / 2, b / 2) + (if f(a % 2 == 1, b % 2 == 1) then 1 else 0)
  }

  /** Bit k of the two's-complement representation of x (bit 0 is the lowest). */
  function Bit(x: int, k: nat): bool
    decreases k
  {
    if k == 0 then x % 2 == 1 else Bit(x / 2, k - 1)
  }

  /** Every bit of 0 is clear and every bit of -1 is set. */
  lemma {:induction false} BitOfZeroAndAllOnes(k: nat)
    ensures !Bit(0, k) && Bit(-1, k)
  {
    if k > 0 {
      BitOfZeroAndAllOnes(k - 1);
    }
  }

  /** `Bitwise` applies f bit by bit: bit k of the result is f of bit k of each operand. */
  lemma {:induction false} BitwiseBits(f: (bool, bool) -> bool, a: int, b: int, k: nat)
    ensures Bit(Bitwise(f, a, b), k) == f(Bit(a, k), Bit(b, k))
    decreases Abs(a) + Abs(b)
  {
    if (a == 0 || a == -1) && (b == 0 || b == -1) {
      BitOfZeroAndAllOnes(k);
    } else if k > 0 {
      var r := Bitwise(f, a / 2, b / 2);
      assert Bitwise(f, a, b) / 2 == r;
      BitwiseBits(f, a / 2, b / 2, k - 1);
    }
  }

  /** `a op b` on `int`, defined when `Defined(op, a, b)`. */
  function Apply(op: Op, a: int, b: int): (r: int)
    requires Defined(op, a, b)
    ensures op.Add? ==> r - b == a
    ensures op.Sub? ==> r + b == a
    ensures op.Div? ==> Abs(a - b * r) < Abs(b) && (a - b * r == 0 || (a - b * r < 0 <==> a < 0))
    ensures op.Mod? ==> Abs(r) < Abs(b) && (r == 0 || (r < 0 <==> a < 0)) && a == b * DivMod(a, b).0 + r
    ensures (op.And? || op.Or? || op.Xor?) ==> (r < 0 <==> BitOf(op)(a < 0, b < 0))
    ensures op.Shl? ==> r % Pow2(b) == 0 && r / Pow2(b) == a
    ensures op.Shr? ==> Pow2(b) * r <= a < Pow2(b) * (r + 1)
  {
    match op
    case Add => a + b
    case Sub => a - b
    case Mul => a * b
    case Div => DivMod(a, b).0
    case Mod => DivMod(a, b).1
    case And | Or | Xor => Bitwise(BitOf(op), a, b)
    case Shl => ShlExact(a, Pow2(b)); a * Pow2(b)
    case Shr => ShrFloor(a, Pow2(b)); a / Pow2(b)
  }

  /** a * p is a multiple of p with quotient a. */
  lemma ShlExact(a: int, p: nat)
    requires p > 0
    ensures (a * p) % p == 0 && (a * p) / p == a
  {
    var q, r := (a * p) / p, (a * p) % p;
    assert p * (q - a) == -r;
    if q != a {
      MulAbsAtLeast(p, q - a);
      assert false;
    }
  }

  /** Dividing by a positive p rounds toward minus infinity. */
  lemma ShrFloor(a: int, p: nat)
    requires p > 0
    ensures p * (a / p) <= a < p * (a / p + 1)
  {
  }

  /** `+a`, `-a` and `~a` on `int`; `~a` flips every bit, which is `-a - 1`. */
  function ApplyUnary(u: UnaryOp, a: int): (r: int)
    ensures u.Plus? ==> r == a
    ensures u.Minus? ==> r + a == 0
    // `~a` has the opposite sign bit and the opposite lowest bit
    ensures u.Complement? ==> (r < 0 <==> a >= 0) && r % 2 != a % 2 && r + a == -1
  {
    match u
    case Plus => a
    case Minus => -a
    case Complement => -a - 1
  }

  /** The five operators for which `a op b == b op a`. */
  predicate Commutative(op: Op)
  {
    op.Add? || op.Mul? || op.And? || op.Or? || op.Xor?
  }

  /** C++ division is the unique truncating quotient and remainder. */
  lemma DivModUnique(a: int, b: int, q: int, r: int)
    requires b != 0
    requires a == b * q + r && Abs(r) < Abs(b) && (r == 0 || (r < 0 <==> a < 0))
    ensures DivMod(a, b) == (q, r)
  {
    var (q', r') := DivMod(a, b);
    assert b * (q - q') == r' - r;
    if q != q' {
      MulAbsAtLeast(b, q - q');
      assert false;
    }
  }

  lemma MulAbsAtLeast(b: int, d: int)
    requires d != 0
    ensures Abs(b * d) >= Abs(b)
  {
    var m := Abs(d);
    assert Abs(b) * m >= Abs(b) * 1 by {
      assert m >= 1;
    }
    if (b < 0) == (d < 0) {
      assert b * d == Abs(b) * m;
    } else {
      assert b * d == -(Abs(b) * m);
    }
  }

  /** Multiplying by a non-zero s and then dividing by s gives back the operand. */
  lemma MulDivCancel(a: int, s: int)
    requires s != 0
    ensures Apply(Div, Apply(Mul, a, s), s) == a
    ensures Apply(Mod, Apply(Mul, a, s), s) == 0
  {
    DivModUnique(a * s, s, a, 0);
  }

  /** Shifting left and then right by the same amount gives back the operand. */
  lemma ShiftRoundTrip(a: int, n: int)
    requires 0 <= n < IntBits
    ensures Apply(Shr, Apply(Shl, a, n), n) == a
  {
  }

  /** x ^ x == 0. */
  lemma {:induction false} XorSelf(a: int)
    ensures Apply(Xor, a, a) == 0
    decreases Abs(a)
  {
    if !(a == 0 || a == -1) {
      XorSelf(a / 2);
    }
  }

  /** x & x == x and x | x == x. */
  lemma {:induction false} AndOrSelf(a: int)
    ensures Apply(And, a, a) == a
    ensures Apply(Or, a, a) == a
    decreases Abs(a)
  {
    if !(a == 0 || a == -1) {
      AndOrSelf(a / 2);
    }
  }

  /** x ^ -1 flips every bit, which is ~x. */
  lemma {:induction false} XorAllOnes(a: int)
    ensures Apply(Xor, a, -1) == ApplyUnary(Complement, a)
    decreases Abs(a)
  {
    if !(a == 0 || a == -1) {
      XorAllOnes(a / 2);
    }
  }

  /** A bit operation that does not depend on operand order gives a commutative word operation. */
  lemma {:induction false} BitwiseCommutes(f: (bool, bool) -> bool, a: int, b: int)
    requires forall p, q :: f(p, q) == f(q, p)
    ensures Bitwise(f, a, b) == Bitwise(f, b, a)
    decreases Abs(a) + Abs(b)
  {
    if !((a == 0 || a == -1) && (b == 0 || b == -1)) {
      BitwiseCommutes(f, a / 2, b / 2);
    }
  }

  /** `a op b == b op a` for the five commutative operators. */
  lemma ApplyCommutes(op: Op, a: int, b: int)
    requires Commutative(op)
    ensures Apply(op, a, b) == Apply(op, b, a)
  {
    match op
    case And => BitwiseCommutes(AndBit, a, b);
    case Or => BitwiseCommutes(OrBit, a, b);
    case Xor => BitwiseCommutes(XorBit, a, b);
    case _ =>
  }

  /**
   * Worked values: `/` truncates toward zero and `%` keeps the dividend's sign
   * (unlike floor division), `>>` rounds toward minus infinity, and the bitwise
   * operators act on two's complement.
   */
  lemma OperatorExamples()
    ensures Apply(Div, -7, 2) == -3 && Apply(Mod, -7, 2) == -1
    ensures Apply(Div, 7, -2) == -3 && Apply(Mod, 7, -2) == 1
    ensures Apply(Shl, -3, 2) == -12 && Apply(Shr, -7, 1) == -4
    ensures Apply(And, 12, 10) == 8 && Apply(Or, 12, 10) == 14 && Apply(Xor, 12, 10) == 6
    ensures Apply(And, -1, 5) == 5 && ApplyUnary(Complement, 5) == -6
  {
    DivModUnique(-7, 2, -3, -1);
    DivModUnique(7, -2, -3, 1);
    assert Pow2(2) == 4 && Pow2(1) == 2;
  }
}
