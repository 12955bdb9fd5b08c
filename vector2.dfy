/**
 * `Vector2<T>` over `int`: two slots of `VectorBase` whose named fields
 * x, y are slots 0 and 1, the constructors, assignments and unary
 * operators, and the six overloads that `MAKE_OP` generates for each of the
 * ten operators, proved against `Componentwise`.
 */
module Vec2 {
  import opened Scalar
  import opened Componentwise
  import opened Base

  class Vector2 {
    /** The `VectorBase<T, 2>` part of the object. */
    const base: VectorBase

    predicate Valid()
    {
      base.Valid() && base.N == 2
    }

    /** The components in axis order x, y. */
    function Value(): (v: seq<int>)
      reads base.slots
      requires Valid()
      ensures |v| == 2
    {
      base.Elements()
    }

    // The named fields are views of fixed slots, not copies: reading one
    // reads that slot of the buffer.
    function X(): (r: int)
      reads base.slots
      requires Valid()
      ensures r == Value()[0]
    {
      base.slots[0]
    }

    function Y(): (r: int)
      reads base.slots
      requires Valid()
      ensures r == Value()[1]
    {
      base.slots[1]
    }

    /** Assigning to `x` writes slot 0 and no other slot. */
    method SetX(a: int)
      requires Valid()
      modifies base.slots
      ensures Value() == old(Value())[0 := a]
    {
      base.Set(0, a);
    }

    /** Assigning to `y` writes slot 1 and no other slot. */
    method SetY(a: int)
      requires Valid()
      modifies base.slots
      ensures Value() == old(Value())[1 := a]
    {
      base.Set(1, a);
    }

    /** `Vector2(s)`: both components are s. */
    constructor Broadcast(s: int)
      ensures Valid() && fresh(base) && fresh(base.slots)
      ensures Value() == Filled(2, s)
    {
      base := new VectorBase(2, [s, s]);
    }

    /** `Vector2(x, y)`: the components in that order. */
    constructor (x: int, y: int)
      ensures Valid() && fresh(base) && fresh(base.slots)
      ensures Value() == [x, y] && X() == x && Y() == y
    {
      base := new VectorBase(2, [x, y]);
    }

    /** `v = o` with a scalar: both components become o; returns `*this`. */
    method AssignScalar(o: int) returns (r: Vector2)
      requires Valid()
      modifies base.slots
      ensures r == this
      ensures Value() == Filled(2, o)
    {
      SetX(o);
      SetY(o);
      r := this;
    }

    /** `v = o` with a vector: both components copied from o (o may be v itself); returns `*this`. */
    method Assign(o: Vector2) returns (r: Vector2)
      requires Valid() && o.Valid()
      modifies base.slots
      ensures r == this
      ensures Value() == old(o.Value())
    {
      SetX(o.X());
      SetY(o.Y());
      r := this;
    }

    /** `+v`. */
    method UnaryPlus() returns (r: Vector2)
      requires Valid()
      ensures r.Valid() && fresh(r) && fresh(r.base.slots)
      ensures r.Value() == MapUnary(Plus, Value())
    {
      r := new Vector2(ApplyUnary(Plus, X()), ApplyUnary(Plus, Y()));
    }

    /** `-v`. */
    method UnaryMinus() returns (r: Vector2)
      requires Valid()
      ensures r.Valid() && fresh(r) && fresh(r.base.slots)
      ensures r.Value() == MapUnary(Minus, Value())
    {
      r := new Vector2(ApplyUnary(Minus, X()), ApplyUnary(Minus, Y()));
    }

    /** `~v`. */
    method UnaryComplement() returns (r: Vector2)
      requires Valid()
      ensures r.Valid() && fresh(r) && fresh(r.base.slots)
      ensures r.Value() == MapUnary(Complement, Value())
    {
      r := new Vector2(ApplyUnary(Complement, X()), ApplyUnary(Complement, Y()));
    }
  }

  // -----------------------------------------------------------------------
  // The six overloads that MAKE_OP generates for an operator op.

  /** `v op= s`: both components become `old op s`; returns v. */
  method OpAssignScalar(v: Vector2, op: Op, s: int) returns (r: Vector2)
    requires v.Valid() && DefinedWithScalar(op, v.Value(), s)
    modifies v.base.slots
    ensures r == v
    ensures v.Value() == WithScalar(op, old(v.Value()), s)
  {
    v.SetX(Apply(op, v.X(), s));
    v.SetY(Apply(op, v.Y(), s));
    r := v;
  }

  /** `a op= b`: each component of a combined with the same component of b; b is left alone unless it is a. */
  method OpAssignVector(a: Vector2, op: Op, b: Vector2) returns (r: Vector2)
    requires a.Valid() && b.Valid() && DefinedZip(op, a.Value(), b.Value())
    modifies a.base.slots
    ensures r == a
    ensures a.Value() == Zip(op, old(a.Value()), old(b.Value()))
    ensures b.base.slots != a.base.slots ==> b.Value() == old(b.Value())
  {
    a.SetX(Apply(op, a.X(), b.X()));
    a.SetY(Apply(op, a.Y(), b.Y()));
    r := a;
  }

  /**
   * `a op= {l0, l1, ...}`: list elements 0 and 1 applied to x and y;
   * elements past the second are ignored. The source reads the first two
   * without checking that they exist.
   */
  method OpAssignList(a: Vector2, op: Op, list: seq<int>) returns (r: Vector2)
    requires a.Valid() && |list| >= 2 && DefinedZip(op, a.Value(), list[..2])
    modifies a.base.slots
    ensures r == a
    ensures a.Value() == Zip(op, old(a.Value()), list[..2])
  {
    a.SetX(Apply(op, a.X(), list[0]));
    a.SetY(Apply(op, a.Y(), list[1]));
    r := a;
  }

  /** `v op s`: a new vector whose component i is `v[i] op s`. */
  method OpScalar(v: Vector2, op: Op, s: int) returns (r: Vector2)
    requires v.Valid() && DefinedWithScalar(op, v.Value(), s)
    ensures r.Valid() && fresh(r) && fresh(r.base.slots)
    ensures r.Value() == WithScalar(op, v.Value(), s)
  {
    r := new Vector2(Apply(op, v.X(), s), Apply(op, v.Y(), s));
  }

  /** `a op b`: a new vector whose component i is `a[i] op b[i]`. */
  method OpVector(a: Vector2, op: Op, b: Vector2) returns (r: Vector2)
    requires a.Valid() && b.Valid() && DefinedZip(op, a.Value(), b.Value())
    ensures r.Valid() && fresh(r) && fresh(r.base.slots)
    ensures r.Value() == Zip(op, a.Value(), b.Value())
  {
    r := new Vector2(Apply(op, a.X(), b.X()), Apply(op, a.Y(), b.Y()));
  }

  /** `s op v`: a new vector whose component i is `s op v[i]`, the scalar kept on the left. */
  method ScalarOp(s: int, op: Op, v: Vector2) returns (r: Vector2)
    requires v.Valid() && DefinedScalarWith(op, s, v.Value())
    ensures r.Valid() && fresh(r) && fresh(r.base.slots)
    ensures r.Value() == ScalarWith(op, s, v.Value())
  {
    r := new Vector2(Apply(op, s, v.X()), Apply(op, s, v.Y()));
  }

  // -----------------------------------------------------------------------
  // What callers can rely on, derived from the contracts above alone.

  /** `2 - (1, 1)` is `(1, 1)`, and `v + 0` is v. */
  method ScalarLeftAndIdentity(v: Vector2) returns (d: Vector2, e: Vector2)
    requires v.Valid()
    ensures d.Valid() && d.Value() == [1, 1]
    ensures e.Valid() && e.Value() == v.Value()
  {
    var ones := new Vector2(1, 1);
    d := ScalarOp(2, Sub, ones);
    AddZeroIsIdentity(v.Value());
    e := OpScalar(v, Add, 0);
  }

  /** `-(-v)` is v. */
  method NegateTwice(v: Vector2) returns (r: Vector2)
    requires v.Valid()
    ensures r.Valid() && r.Value() == v.Value()
  {
    UnaryIdentities(v.Value());
    var n := v.UnaryMinus();
    r := n.UnaryMinus();
  }
}
