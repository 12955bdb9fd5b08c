/**
 * `Vector3<T>` over `int`: three slots of `VectorBase` whose named fields
 * x, y, z are slots 0 to 2, the constructors, assignments and unary
 * operators, and the six overloads that `MAKE_OP` generates for each of the
 * ten operators, proved against `Componentwise`.
 */
module Vec3 {
  import opened Scalar
  import opened Componentwise
  import opened Base

  class Vector3 {
    /** The `VectorBase<T, 3>` part of the object. */
    const base: VectorBase

    predicate Valid()
    {
      base.Valid() && base.N == 3
    }

    /** The components in axis order x, y, z. */
    function Value(): (v: seq<int>)
      reads base.slots
      requires Valid()
      ensures |v| == 3
    {
      base.Elements()
    }

    // The named fields are views of fixed slots, not copies: reading one
    // reads that slot of the buffer.
    function X(): (r: int)
      reads base.slots
      requires Valid()
      ensures r == Value()[0]
    {
      base.slots[0]
    }

    function Y(): (r: int)
      reads base.slots
      requires Valid()
      ensures r == Value()[1]
    {
      base.slots[1]
    }

    function Z(): (r: int)
      reads base.slots
      requires Valid()
      ensures r == Value()[2]
    {
      base.slots[2]
    }

    /** Assigning to `x` writes slot 0 and no other slot. */
    method SetX(a: int)
      requires Valid()
      modifies base.slots
      ensures Value() == old(Value())[0 := a]
    {
      base.Set(0, a);
    }

    /** Assigning to `y` writes slot 1 and no other slot. */
    method SetY(a: int)
      requires Valid()
      modifies base.slots
      ensures Value() == old(Value())[1 := a]
    {
      base.Set(1, a);
    }

    /** Assigning to `z` writes slot 2 and no other slot. */
    method SetZ(a: int)
      requires Valid()
      modifies base.slots
      ensures Value() == old(Value())[2 := a]
    {
      base.Set(2, a);
    }

    /** `Vector3(s)`: every component is s. */
    constructor Broadcast(s: int)
      ensures Valid() && fresh(base) && fresh(base.slots)
      ensures Value() == Filled(3, s)
    {
      base := new VectorBase(3, [s, s, s]);
    }

    /** `Vector3(x, y, z)`: the components in that order. */
    constructor (x: int, y: int, z: int)
      ensures Valid() && fresh(base) && fresh(base.slots)
      ensures Value() == [x, y, z] && X() == x && Y() == y && Z() == z
    {
      base := new VectorBase(3, [x, y, z]);
    }

    /** `v = o` with a scalar: every component becomes o; returns `*this`. */
    method AssignScalar(o: int) returns (r: Vector3)
      requires Valid()
      modifies base.slots
      ensures r == this
      ensures Value() == Filled(3, o)
    {
      SetX(o);
      SetY(o);
      SetZ(o);
      r := this;
    }

    /** `v = o` with a vector: each component copied from o (o may be v itself); returns `*this`. */
    method Assign(o: Vector3) returns (r: Vector3)
      requires Valid() && o.Valid()
      modifies base.slots
      ensures r == this
      ensures Value() == old(o.Value())
    {
      SetX(o.X());
      SetY(o.Y());
      SetZ(o.Z());
      r := this;
    }

    /** `+v`. */
    method UnaryPlus() returns (r: Vector3)
      requires Valid()
      ensures r.Valid() && fresh(r) && fresh(r.base.slots)
      ensures r.Value() == MapUnary(Plus, Value())
    {
      r := new Vector3(ApplyUnary(Plus, X()), ApplyUnary(Plus, Y()), ApplyUnary(Plus, Z()));
    }

    /** `-v`. */
    method UnaryMinus() returns (r: Vector3)
      requires Valid()
      ensures r.Valid() && fresh(r) && fresh(r.base.slots)
      ensures r.Value() == MapUnary(Minus, Value())
    {
      r := new Vector3(ApplyUnary(Minus, X()), ApplyUnary(Minus, Y()), ApplyUnary(Minus, Z()));
    }

    /** `~v`. */
    method UnaryComplement() returns (r: Vector3)
      requires Valid()
      ensures r.Valid() && fresh(r) && fresh(r.base.slots)
      ensures r.Value() == MapUnary(Complement, Value())
    {
      r := new Vector3(ApplyUnary(Complement, X()), ApplyUnary(Complement, Y()),
                       ApplyUnary(Complement, Z()));
    }
  }

  // -----------------------------------------------------------------------
  // The six overloads that MAKE_OP generates for an operator op.

  /** `v op= s`: each component becomes `old op s`; returns v. */
  method OpAssignScalar(v: Vector3, op: Op, s: int) returns (r: Vector3)
    requires v.Valid() && DefinedWithScalar(op, v.Value(), s)
    modifies v.base.slots
    ensures r == v
    ensures v.Value() == WithScalar(op, old(v.Value()), s)
  {
    v.SetX(Apply(op, v.X(), s));
    v.SetY(Apply(op, v.Y(), s));
    v.SetZ(Apply(op, v.Z(), s));
    r := v;
  }

  /** `a op= b`: each component of a combined with the same component of b; b is left alone unless it is a. */
  method OpAssignVector(a: Vector3, op: Op, b: Vector3) returns (r: Vector3)
    requires a.Valid() && b.Valid() && DefinedZip(op, a.Value(), b.Value())
    modifies a.base.slots
    ensures r == a
    ensures a.Value() == Zip(op, old(a.Value()), old(b.Value()))
    ensures b.base.slots != a.base.slots ==> b.Value() == old(b.Value())
  {
    a.SetX(Apply(op, a.X(), b.X()));
    a.SetY(Apply(op, a.Y(), b.Y()));
    a.SetZ(Apply(op, a.Z(), b.Z()));
    r := a;
  }

  /**
   * `a op= {l0, l1, l2, ...}`: list elements 0 to 2 applied to x, y, z;
   * elements past the third are ignored. The source reads the first three
   * without checking that they exist.
   */
  method OpAssignList(a: Vector3, op: Op, list: seq<int>) returns (r: Vector3)
    requires a.Valid() && |list| >= 3 && DefinedZip(op, a.Value(), list[..3])
    modifies a.base.slots
    ensures r == a
    ensures a.Value() == Zip(op, old(a.Value()), list[..3])
  {
    a.SetX(Apply(op, a.X(), list[0]));
    a.SetY(Apply(op, a.Y(), list[1]));
    a.SetZ(Apply(op, a.Z(), list[2]));
    r := a;
  }

  /** `v op s`: a new vector whose component i is `v[i] op s`. */
  method OpScalar(v: Vector3, op: Op, s: int) returns (r: Vector3)
    requires v.Valid() && DefinedWithScalar(op, v.Value(), s)
    ensures r.Valid() && fresh(r) && fresh(r.base.slots)
    ensures r.Value() == WithScalar(op, v.Value(), s)
  {
    r := new Vector3(Apply(op, v.X(), s), Apply(op, v.Y(), s), Apply(op, v.Z(), s));
  }

  /** `a op b`: a new vector whose component i is `a[i] op b[i]`. */
  method OpVector(a: Vector3, op: Op, b: Vector3) returns (r: Vector3)
    requires a.Valid() && b.Valid() && DefinedZip(op, a.Value(), b.Value())
    ensures r.Valid() && fresh(r) && fresh(r.base.slots)
    ensures r.Value() == Zip(op, a.Value(), b.Value())
  {
    r := new Vector3(Apply(op, a.X(), b.X()), Apply(op, a.Y(), b.Y()), Apply(op, a.Z(), b.Z()));
  }

  /** `s op v`: a new vector whose component i is `s op v[i]`, the scalar kept on the left. */
  method ScalarOp(s: int, op: Op, v: Vector3) returns (r: Vector3)
    requires v.Valid() && DefinedScalarWith(op, s, v.Value())
    ensures r.Valid() && fresh(r) && fresh(r.base.slots)
    ensures r.Value() == ScalarWith(op, s, v.Value())
  {
    r := new Vector3(Apply(op, s, v.X()), Apply(op, s, v.Y()), Apply(op, s, v.Z()));
  }

  // -----------------------------------------------------------------------
  // What callers can rely on, derived from the contracts above alone.

  /** `+v` is v and `-(-v)` is v. */
  method UnaryRoundTrips(v: Vector3) returns (p: Vector3, q: Vector3)
    requires v.Valid()
    ensures p.Valid() && p.Value() == v.Value()
    ensures q.Valid() && q.Value() == v.Value()
  {
    UnaryIdentities(v.Value());
    p := v.UnaryPlus();
    var n := v.UnaryMinus();
    q := n.UnaryMinus();
  }

  /** `v op= s` leaves v equal to what `v op s` returns. */
  method CompoundMatchesValueForm(v: Vector3, op: Op, s: int) returns (expected: Vector3)
    requires v.Valid() && DefinedWithScalar(op, v.Value(), s)
    modifies v.base.slots
    ensures expected.Valid() && v.Value() == expected.Value()
    ensures v.Value() == WithScalar(op, old(v.Value()), s)
    ensures expected.Value() == WithScalar(op, old(v.Value()), s)
  {
    expected := OpScalar(v, op, s);
    var r := OpAssignScalar(v, op, s);
  }
}
