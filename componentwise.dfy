/**
 * The reference meaning of the operator family that `MAKE_OP` stamps out for
 * every arity, stated once over the value of a vector: the sequence of its
 * components in axis order x, y, z, w. The per-arity vector classes are
 * proved against these functions, and the lemmas below are the properties
 * the operator family promises whatever the arity.
 */
module Componentwise {
  import opened Scalar

  /** The value of a vector whose every component is s: the scalar broadcast. */
  function Filled(n: nat, s: int): seq<int>
  {
    seq(n, _ => s)
  }

  /** `+v`, `-v` or `~v`: the unary operator applied to each component. */
  function MapUnary(u: UnaryOp, v: seq<int>): seq<int>
  {
    seq(|v|, i requires 0 <= i < |v| => ApplyUnary(u, v[i]))
  }

  /** `v op s` is defined in every component. */
  predicate DefinedWithScalar(op: Op, v: seq<int>, s: int)
  {
    forall i :: 0 <= i < |v| ==> Defined(op, v[i], s)
  }

  /** `s op v` is defined in every component. */
  predicate DefinedScalarWith(op: Op, s: int, v: seq<int>)
  {
    forall i :: 0 <= i < |v| ==> Defined(op, s, v[i])
  }

  /** `a op b` is defined in every component of two vectors of one arity. */
  predicate DefinedZip(op: Op, a: seq<int>, b: seq<int>)
  {
    |a| == |b| && forall i :: 0 <= i < |a| ==> Defined(op, a[i], b[i])
  }

  /** `v op s`: the scalar on the right of every component. */
  function WithScalar(op: Op, v: seq<int>, s: int): seq<int>
    requires DefinedWithScalar(op, v, s)
  {
    seq(|v|, i requires 0 <= i < |v| => Apply(op, v[i], s))
  }

  /** `s op v`: the scalar on the left of every component. */
  function ScalarWith(op: Op, s: int, v: seq<int>): seq<int>
    requires DefinedScalarWith(op, s, v)
  {
    seq(|v|, i requires 0 <= i < |v| => Apply(op, s, v[i]))
  }

  /** `a op b`: same-indexed components combined. */
  function Zip(op: Op, a: seq<int>, b: seq<int>): seq<int>
    requires DefinedZip(op, a, b)
  {
    seq(|a|, i requires 0 <= i < |a| => Apply(op, a[i], b[i]))
  }

  /** A swizzle: component k of the result is the source component at index idx[k]. */
  function Select(v: seq<int>, idx: seq<int>): seq<int>
    requires forall k :: 0 <= k < |idx| ==> 0 <= idx[k] < |v|
  {
    seq(|idx|, k requires 0 <= k < |idx| => v[idx[k]])
  }

  // ---------------------------------------------------------------------
  // Both one-sided scalar forms are the vector form against a broadcast.

  /** `v op s` is `v op Vector(s)`: the scalar stands on the right of every component. */
  lemma WithScalarIsZipBroadcast(op: Op, v: seq<int>, s: int)
    requires DefinedWithScalar(op, v, s)
    ensures DefinedZip(op, v, Filled(|v|, s))
    ensures WithScalar(op, v, s) == Zip(op, v, Filled(|v|, s))
  {
  }

  /** `s op v` is `Vector(s) op v`: the scalar stands on the left of every component. */
  lemma ScalarWithIsZipBroadcast(op: Op, s: int, v: seq<int>)
    requires DefinedScalarWith(op, s, v)
    ensures DefinedZip(op, Filled(|v|, s), v)
    ensures ScalarWith(op, s, v) == Zip(op, Filled(|v|, s), v)
  {
  }

  /** For the commutative operators the side of the scalar does not matter. */
  lemma CommutativeSidesAgree(op: Op, s: int, v: seq<int>)
    requires Commutative(op)
    ensures DefinedScalarWith(op, s, v) && DefinedWithScalar(op, v, s)
    ensures ScalarWith(op, s, v) == WithScalar(op, v, s)
  {
    forall i | 0 <= i < |v|
      ensures Apply(op, s, v[i]) == Apply(op, v[i], s)
    {
      ApplyCommutes(op, s, v[i]);
    }
  }

  /** For `-` the side does matter: `s - v` is the negation of `v - s`. */
  lemma ScalarLeftSubtraction(s: int, v: seq<int>)
    ensures DefinedScalarWith(Sub, s, v) && DefinedWithScalar(Sub, v, s)
    ensures ScalarWith(Sub, s, v) == MapUnary(Minus, WithScalar(Sub, v, s))
  {
  }

  // ---------------------------------------------------------------------
  // Identities of the operator family.

  /** `v + 0 == v`. */
  lemma AddZeroIsIdentity(v: seq<int>)
    ensures DefinedWithScalar(Add, v, 0)
    ensures WithScalar(Add, v, 0) == v
  {
  }

  /** `v - v` is the zero vector. */
  lemma SubSelfIsZero(v: seq<int>)
    ensures DefinedZip(Sub, v, v)
    ensures Zip(Sub, v, v) == Filled(|v|, 0)
  {
  }

  /** `v ^ v` is the zero vector. */
  lemma XorSelfIsZero(v: seq<int>)
    ensures DefinedZip(Xor, v, v)
    ensures Zip(Xor, v, v) == Filled(|v|, 0)
  {
    forall i | 0 <= i < |v|
      ensures Apply(Xor, v[i], v[i]) == 0
    {
      XorSelf(v[i]);
    }
  }

  /** `v & v == v` and `v | v == v`. */
  lemma AndOrSelfIsIdentity(v: seq<int>)
    ensures DefinedZip(And, v, v) && DefinedZip(Or, v, v)
    ensures Zip(And, v, v) == v && Zip(Or, v, v) == v
  {
    forall i | 0 <= i < |v|
      ensures Apply(And, v[i], v[i]) == v[i] && Apply(Or, v[i], v[i]) == v[i]
    {
      AndOrSelf(v[i]);
    }
  }

  /** `(v * s) / s == v` for every non-zero s (exact, since the elements are integers). */
  lemma MulDivRoundTrip(v: seq<int>, s: int)
    requires s != 0
    ensures DefinedWithScalar(Mul, v, s)
    ensures DefinedWithScalar(Div, WithScalar(Mul, v, s), s)
    ensures WithScalar(Div, WithScalar(Mul, v, s), s) == v
  {
    forall i | 0 <= i < |v|
      ensures Apply(Div, Apply(Mul, v[i], s), s) == v[i]
    {
      MulDivCancel(v[i], s);
    }
  }

  /** `(v << n) >> n == v` for every shift amount in range. */
  lemma ShiftRoundTripAll(v: seq<int>, n: int)
    requires 0 <= n < IntBits
    ensures DefinedWithScalar(Shl, v, n)
    ensures DefinedWithScalar(Shr, WithScalar(Shl, v, n), n)
    ensures WithScalar(Shr, WithScalar(Shl, v, n), n) == v
  {
    forall i | 0 <= i < |v|
      ensures Apply(Shr, Apply(Shl, v[i], n), n) == v[i]
    {
      ShiftRoundTrip(v[i], n);
    }
  }

  /** `+v == v`, `-(-v) == v` and `~~v == v`. */
  lemma UnaryIdentities(v: seq<int>)
    ensures MapUnary(Plus, v) == v
    ensures MapUnary(Minus, MapUnary(Minus, v)) == v
    ensures MapUnary(Complement, MapUnary(Complement, v)) == v
  {
  }

  /** `~v` is `v ^ -1`: complementing flips every bit of every component. */
  lemma ComplementIsXorAllOnes(v: seq<int>)
    ensures DefinedWithScalar(Xor, v, -1)
    ensures MapUnary(Complement, v) == WithScalar(Xor, v, -1)
  {
    forall i | 0 <= i < |v|
      ensures ApplyUnary(Complement, v[i]) == Apply(Xor, v[i], -1)
    {
      XorAllOnes(v[i]);
    }
  }

  // ---------------------------------------------------------------------
  // Swizzle.

  /** Selecting the axes in order gives the vector back. */
  lemma SelectIdentity(v: seq<int>)
    ensures Select(v, seq(|v|, k => k)) == v
  {
  }

  /** Swizzling a swizzle is one swizzle through the composed index map. */
  lemma SelectCompose(v: seq<int>, p: seq<int>, q: seq<int>)
    requires forall k :: 0 <= k < |p| ==> 0 <= p[k] < |v|
    requires forall k :: 0 <= k < |q| ==> 0 <= q[k] < |p|
    ensures Select(Select(v, p), q) == Select(v, Select(p, q))
  {
  }
}
