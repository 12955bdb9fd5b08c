/**
 * `Vector4<T>` over `int`: four slots of `VectorBase` whose named fields
 * x, y, z, w are slots 0 to 3, the constructors, assignments and unary
 * operators, the four swizzle forms and the six overloads that `MAKE_OP`
 * generates for each of the ten operators.
 *
 * The compound assignments change the receiver's slots one field at a time,
 * as the source does; every value-returning form builds a new vector. Each is
 * proved against the arity-independent meaning in `Componentwise`.
 */
module Vec4 {
  import opened Scalar
  import opened Componentwise
  import opened Base
  import Vec2
  import Vec3

  class Vector4 {
    /** The `VectorBase<T, 4>` part of the object. */
    const base: VectorBase

    predicate Valid()
    {
      base.Valid() && base.N == 4
    }

    /** The components in axis order x, y, z, w. */
    function Value(): (v: seq<int>)
      reads base.slots
      requires Valid()
      ensures |v| == 4
    {
      base.Elements()
    }

    // The named fields are views of fixed slots, not copies: reading one
    // reads that slot of the buffer.
    function X(): (r: int)
      reads base.slots
      requires Valid()
      ensures r == Value()[0]
    {
      base.slots[0]
    }

    function Y(): (r: int)
      reads base.slots
      requires Valid()
      ensures r == Value()[1]
    {
      base.slots[1]
    }

    function Z(): (r: int)
      reads base.slots
      requires Valid()
      ensures r == Value()[2]
    {
      base.slots[2]
    }

    function W(): (r: int)
      reads base.slots
      requires Valid()
      ensures r == Value()[3]
    {
      base.slots[3]
    }

    /** Assigning to `x` writes slot 0 and no other slot. */
    method SetX(a: int)
      requires Valid()
      modifies base.slots
      ensures Value() == old(Value())[0 := a]
    {
      base.Set(0, a);
    }

    /** Assigning to `y` writes slot 1 and no other slot. */
    method SetY(a: int)
      requires Valid()
      modifies base.slots
      ensures Value() == old(Value())[1 := a]
    {
      base.Set(1, a);
    }

    /** Assigning to `z` writes slot 2 and no other slot. */
    method SetZ(a: int)
      requires Valid()
      modifies base.slots
      ensures Value() == old(Value())[2 := a]
    {
      base.Set(2, a);
    }

    /** Assigning to `w` writes slot 3 and no other slot. */
    method SetW(a: int)
      requires Valid()
      modifies base.slots
      ensures Value() == old(Value())[3 := a]
    {
      base.Set(3, a);
    }

    /** `Vector4(s)`: every component is s. */
    constructor Broadcast(s: int)
      ensures Valid() && fresh(base) && fresh(base.slots)
      ensures Value() == Filled(4, s)
    {
      base := new VectorBase(4, [s, s, s, s]);
    }

    /** `Vector4(x, y, z, w)`: the components in that order. */
    constructor (x: int, y: int, z: int, w: int)
      ensures Valid() && fresh(base) && fresh(base.slots)
      ensures Value() == [x, y, z, w] && X() == x && Y() == y && Z() == z && W() == w
    {
      base := new VectorBase(4, [x, y, z, w]);
    }

    /** `v = o` with a scalar: every component becomes o; returns `*this`. */
    method AssignScalar(o: int) returns (r: Vector4)
      requires Valid()
      modifies base.slots
      ensures r == this
      ensures Value() == Filled(4, o)
    {
      SetX(o);
      SetY(o);
      SetZ(o);
      SetW(o);
      r := this;
    }

    /** `v = o` with a vector: each component copied from o (o may be v itself); returns `*this`. */
    method Assign(o: Vector4) returns (r: Vector4)
      requires Valid() && o.Valid()
      modifies base.slots
      ensures r == this
      ensures Value() == old(o.Value())
    {
      SetX(o.X());
      SetY(o.Y());
      SetZ(o.Z());
      SetW(o.W());
      r := this;
    }

    /** `+v`. */
    method UnaryPlus() returns (r: Vector4)
      requires Valid()
      ensures r.Valid() && fresh(r) && fresh(r.base.slots)
      ensures r.Value() == MapUnary(Plus, Value())
    {
      r := new Vector4(ApplyUnary(Plus, X()), ApplyUnary(Plus, Y()),
                       ApplyUnary(Plus, Z()), ApplyUnary(Plus, W()));
    }

    /** `-v`. */
    method UnaryMinus() returns (r: Vector4)
      requires Valid()
      ensures r.Valid() && fresh(r) && fresh(r.base.slots)
      ensures r.Value() == MapUnary(Minus, Value())
    {
      r := new Vector4(ApplyUnary(Minus, X()), ApplyUnary(Minus, Y()),
                       ApplyUnary(Minus, Z()), ApplyUnary(Minus, W()));
    }

    /** `~v`. */
    method UnaryComplement() returns (r: Vector4)
      requires Valid()
      ensures r.Valid() && fresh(r) && fresh(r.base.slots)
      ensures r.Value() == MapUnary(Complement, Value())
    {
      r := new Vector4(ApplyUnary(Complement, X()), ApplyUnary(Complement, Y()),
                       ApplyUnary(Complement, Z()), ApplyUnary(Complement, W()));
    }

    /** `swizzle<i>()`: the scalar in slot i, read through `cbegin() + i`. */
    method Swizzle1(i: int) returns (r: int)
      requires Valid() && 0 <= i < 4
      ensures r == Value()[i]
    {
      r := base.Get(i);
    }

    /** `swizzle<i, j>()`: a new 2-vector of the slots at i and j, repeats allowed. */
    method Swizzle2(i: int, j: int) returns (r: Vec2.Vector2)
      requires Valid() && 0 <= i < 4 && 0 <= j < 4
      ensures r.Valid() && fresh(r) && fresh(r.base.slots)
      ensures r.Value() == Select(Value(), [i, j])
    {
      var a := base.Get(i);
      var b := base.Get(j);
      r := new Vec2.Vector2(a, b);
    }

    /** `swizzle<i, j, k>()`: a new 3-vector of the slots at i, j and k. */
    method Swizzle3(i: int, j: int, k: int) returns (r: Vec3.Vector3)
      requires Valid() && 0 <= i < 4 && 0 <= j < 4 && 0 <= k < 4
      ensures r.Valid() && fresh(r) && fresh(r.base.slots)
      ensures r.Value() == Select(Value(), [i, j, k])
    {
      var a := base.Get(i);
      var b := base.Get(j);
      var c := base.Get(k);
      r := new Vec3.Vector3(a, b, c);
    }

    /** `swizzle<i, j, k, l>()`: a new 4-vector of the slots at i, j, k and l. */
    method Swizzle4(i: int, j: int, k: int, l: int) returns (r: Vector4)
      requires Valid() && 0 <= i < 4 && 0 <= j < 4 && 0 <= k < 4 && 0 <= l < 4
      ensures r.Valid() && fresh(r) && fresh(r.base.slots)
      ensures r.Value() == Select(Value(), [i, j, k, l])
    {
      var a := base.Get(i);
      var b := base.Get(j);
      var c := base.Get(k);
      var d := base.Get(l);
      r := new Vector4(a, b, c, d);
    }
  }

  // -----------------------------------------------------------------------
  // The six overloads that MAKE_OP generates for an operator op.

  /** `v op= s`: each component becomes `old op s`; returns v. */
  method OpAssignScalar(v: Vector4, op: Op, s: int) returns (r: Vector4)
    requires v.Valid() && DefinedWithScalar(op, v.Value(), s)
    modifies v.base.slots
    ensures r == v
    ensures v.Value() == WithScalar(op, old(v.Value()), s)
  {
    v.SetX(Apply(op, v.X(), s));
    v.SetY(Apply(op, v.Y(), s));
    v.SetZ(Apply(op, v.Z(), s));
    v.SetW(Apply(op, v.W(), s));
    r := v;
  }

  /** `a op= b`: each component of a combined with the same component of b; b is left alone unless it is a. */
  method OpAssignVector(a: Vector4, op: Op, b: Vector4) returns (r: Vector4)
    requires a.Valid() && b.Valid() && DefinedZip(op, a.Value(), b.Value())
    modifies a.base.slots
    ensures r == a
    ensures a.Value() == Zip(op, old(a.Value()), old(b.Value()))
    ensures b.base.slots != a.base.slots ==> b.Value() == old(b.Value())
  {
    a.SetX(Apply(op, a.X(), b.X()));
    a.SetY(Apply(op, a.Y(), b.Y()));
    a.SetZ(Apply(op, a.Z(), b.Z()));
    a.SetW(Apply(op, a.W(), b.W()));
    r := a;
  }

  /**
   * `a op= {l0, l1, l2, l3, ...}`: list elements 0 to 3 applied to x, y, z, w;
   * elements past the fourth are ignored. The source reads the first four
   * without checking that they exist.
   */
  method OpAssignList(a: Vector4, op: Op, list: seq<int>) returns (r: Vector4)
    requires a.Valid() && |list| >= 4 && DefinedZip(op, a.Value(), list[..4])
    modifies a.base.slots
    ensures r == a
    ensures a.Value() == Zip(op, old(a.Value()), list[..4])
  {
    a.SetX(Apply(op, a.X(), list[0]));
    a.SetY(Apply(op, a.Y(), list[1]));
    a.SetZ(Apply(op, a.Z(), list[2]));
    a.SetW(Apply(op, a.W(), list[3]));
    r := a;
  }

  /** `v op s`: a new vector whose component i is `v[i] op s`. */
  method OpScalar(v: Vector4, op: Op, s: int) returns (r: Vector4)
    requires v.Valid() && DefinedWithScalar(op, v.Value(), s)
    ensures r.Valid() && fresh(r) && fresh(r.base.slots)
    ensures r.Value() == WithScalar(op, v.Value(), s)
  {
    r := new Vector4(Apply(op, v.X(), s), Apply(op, v.Y(), s),
                     Apply(op, v.Z(), s), Apply(op, v.W(), s));
  }

  /** `a op b`: a new vector whose component i is `a[i] op b[i]`. */
  method OpVector(a: Vector4, op: Op, b: Vector4) returns (r: Vector4)
    requires a.Valid() && b.Valid() && DefinedZip(op, a.Value(), b.Value())
    ensures r.Valid() && fresh(r) && fresh(r.base.slots)
    ensures r.Value() == Zip(op, a.Value(), b.Value())
  {
    r := new Vector4(Apply(op, a.X(), b.X()), Apply(op, a.Y(), b.Y()),
                     Apply(op, a.Z(), b.Z()), Apply(op, a.W(), b.W()));
  }

  /** `s op v`: a new vector whose component i is `s op v[i]`, the scalar kept on the left. */
  method ScalarOp(s: int, op: Op, v: Vector4) returns (r: Vector4)
    requires v.Valid() && DefinedScalarWith(op, s, v.Value())
    ensures r.Valid() && fresh(r) && fresh(r.base.slots)
    ensures r.Value() == ScalarWith(op, s, v.Value())
  {
    r := new Vector4(Apply(op, s, v.X()), Apply(op, s, v.Y()),
                     Apply(op, s, v.Z()), Apply(op, s, v.W()));
  }

  // -----------------------------------------------------------------------
  // What callers can rely on, derived from the contracts above alone.

  /** Writing a named field is seen by `operator[]`, and writing a slot is seen by the field. */
  method FieldsAliasSlots(v: Vector4, a: int, b: int)
    requires v.Valid()
    modifies v.base.slots
    ensures v.W() == b && v.base.Elements()[3] == b
    ensures v.Value() == old(v.Value())[0 := a][3 := b]
  {
    v.SetX(a);
    var r := v.base.Get(0);
    assert r == a;
    v.base.Set(3, b);
    assert v.W() == b;
  }

  /** Scalar assignment twice is scalar assignment once. */
  method AssignScalarTwice(v: Vector4, o: int)
    requires v.Valid()
    modifies v.base.slots
    ensures v.Value() == Filled(4, o)
  {
    var r := v.AssignScalar(o);
    ghost var once := v.Value();
    r := r.AssignScalar(o);
    assert v.Value() == once;
  }

  /** `(v += 1) *= 2` updates v in place to `(v + 1) * 2`. */
  method ChainedCompound(v: Vector4)
    requires v.Valid()
    modifies v.base.slots
    ensures v.Value() == WithScalar(Mul, WithScalar(Add, old(v.Value()), 1), 2)
  {
    var r := OpAssignScalar(v, Add, 1);
    r := OpAssignScalar(r, Mul, 2);
  }

  /** `v - v` computed by the vector overload is the zero vector, and v is unchanged. */
  method SubtractSelf(v: Vector4) returns (r: Vector4)
    requires v.Valid()
    ensures r.Valid() && r.Value() == Filled(4, 0)
  {
    SubSelfIsZero(v.Value());
    r := OpVector(v, Sub, v);
  }

  /** `2 - (1, 1, 1, 1)` is `(1, 1, 1, 1)`: the scalar stays on the left. */
  method ScalarLeftExample() returns (r: Vector4)
    ensures r.Valid() && r.Value() == [1, 1, 1, 1]
  {
    var v := new Vector4.Broadcast(1);
    r := ScalarOp(2, Sub, v);
  }

  /** On (10, 20, 30, 40): `swizzle<1>()` is 20, `swizzle<2, 0>()` is (30, 10), `swizzle<0, 0, 0, 0>()` is (10, 10, 10, 10). */
  method SwizzleExample() returns (s: int, p: Vec2.Vector2, q: Vector4)
    ensures s == 20
    ensures p.Valid() && p.Value() == [30, 10]
    ensures q.Valid() && q.Value() == [10, 10, 10, 10]
  {
    var v := new Vector4(10, 20, 30, 40);
    s := v.Swizzle1(1);
    p := v.Swizzle2(2, 0);
    q := v.Swizzle4(0, 0, 0, 0);
  }

  /**
   * Two separately constructed vectors own separate buffers: `a += b` on
   * a = (1, 2, 3, 4) and b = (10, 10, 10, 10) changes a and leaves b alone.
   */
  method SeparateStorage() returns (a: Vector4, b: Vector4)
    ensures a.Valid() && a.Value() == [11, 12, 13, 14]
    ensures b.Valid() && b.Value() == [10, 10, 10, 10]
  {
    a := new Vector4(1, 2, 3, 4);
    b := new Vector4.Broadcast(10);
    var r := OpAssignVector(a, Add, b);
  }
}
