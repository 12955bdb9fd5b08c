# gmath vectors in Dafny

A model of the componentwise arithmetic core of gmath, a header-only C++
library of 2-, 3- and 4-component vectors, with proofs of what it promises.

- `Base.VectorBase` is `VectorBase<T, N>`: a class owning a fixed `array<int>`
  of N slots, with unchecked indexed read and write (`operator[]`), iteration
  bounds (`begin`/`end`, `cbegin`/`cend`, as slot offsets) and the whole
  buffer (`data()`).
- `Vec2.Vector2`, `Vec3.Vector3` and `Vec4.Vector4` hold one `VectorBase` of
  2, 3 or 4 slots. Their named fields x, y, z, w are views of slots 0 to 3
  (`X()`/`SetX` and so on), so a field and its index can never disagree.
  Each class has the broadcast and per-component constructors, scalar and
  vector assignment (both return the receiver), and unary `+`, `-`, `~`.
  `Vector4` also has the four `swizzle` forms.
- The `MAKE_OP` family: for each of the ten operators `+ - * / % & | ^ << >>`
  (the `Scalar.Op` datatype) and for each arity, the three compound
  assignments (`v op= s`, `v op= b`, `v op= {list}`) and the three
  value-returning forms (`v op s`, `a op b`, `s op v`). The compound
  assignments are methods that rewrite the receiver's fields one at a time,
  as the source does. The value-returning forms allocate a new vector and
  leave their operands alone.
- `Componentwise` is the arity-independent meaning of that family, over the
  sequence of components (`WithScalar`, `ScalarWith`, `Zip`, `MapUnary`,
  `Filled`, `Select`). Every method above is proved equal to one of these
  functions, and the lemmas there state the family's identities.
- `Scalar` gives the per-component operators the C++ meaning they have on
  `int`. `/` truncates toward zero and `%` takes the sign of the dividend
  (`DivMod`, characterised by its contract). `&`, `|` and `^` act on two's
  complement (`Bitwise`). `<<` multiplies by a power of two and `>>` is the
  arithmetic shift. `Scalar.Defined` is what C++ demands of the operands: a
  non-zero divisor for `/` and `%`, and a shift amount in [0, 32).

The element type is C++ `int`, the element type of the `int2`, `int3` and
`int4` aliases, taken as an unbounded integer.

Several cases the C++ leaves undefined become preconditions: a slot index
of N or more, a swizzle index outside [0, 3], an initializer list shorter
than the arity, a zero divisor and an out-of-range shift. The undefined cases that come from the width of `int`
(overflow, `INT_MIN / -1`, `INT_MIN % -1`) are not modelled; see
"Left out".

Notes on the source as written:
- `VectorBase`'s `std::array` constructor (`include/gmath/VectorBase.hpp`
  line 15) direct-initialises the C array `_data` from a `std::array`. C++
  does not allow that, so the constructor only compiles while it is never
  used. `Base.VectorBase.FromArray` models the evident intent, a copy
  slot for slot.
- The variadic constructor is an aggregate initialisation. Slots past the
  last argument are zero, and more than N arguments does not compile.
  `Base.VectorBase.constructor` states both.
- A compound assignment where the right operand is the receiver itself
  (`v += v`) is well defined. Each slot reads only its own old value, so
  `OpAssignVector` tolerates that aliasing.

## Model

| member | source | states |
|---|---|---|
| `Base.VectorBase.constructor` | include/gmath/VectorBase.hpp:13-14 | slot i holds the i-th argument; slots past the arguments are 0; at most N arguments |
| `Base.VectorBase.FromArray` | include/gmath/VectorBase.hpp:15 | the slots are the source array, slot for slot |
| `Base.VectorBase.Get` | include/gmath/VectorBase.hpp:17-18 | `operator[](i)` reads slot i; requires i < N, which the source does not check |
| `Base.VectorBase.Set` | include/gmath/VectorBase.hpp:17 | a write through `operator[](i)` changes slot i to the value and no other slot |
| `Base.VectorBase.Data` | include/gmath/VectorBase.hpp:23-24 | `data()` is the buffer itself (not a copy), of length `end() - begin()` |
| `Base.VectorBase.Begin` | include/gmath/VectorBase.hpp:19-22 | `begin()`/`cbegin()` is the first slot: the slots from it onward are all N components |
| `Base.VectorBase.End` | include/gmath/VectorBase.hpp:19-22 | `end() - begin() == N`, and the slots from begin to end are the N components in axis order |
| `Base.WriteThroughData` | include/gmath/VectorBase.hpp:17-24 | a write through `data()[i]` is read back by `operator[](i)` and changes only slot i |
| `Scalar.Defined` | include/gmath/Vector4.hpp:154-163 | on unbounded int (no overflow), only `/`, `%`, `<<` and `>>` can be undefined; `/` and `%` are defined exactly when the divisor is non-zero, and shifts exactly when the amount is in [0, 32) |
| `Scalar.Apply` | include/gmath/Vector4.hpp:154-163 | `a op b` on int: `+`/`-` invert each other, `/` is the truncating quotient, `%` the matching remainder with the dividend's sign, `& pipe ^` give the result's sign bit from the operands' sign bits, `<<` is an exact multiple of 2^b with quotient a, `>>` is the floor of a / 2^b |
| `Scalar.Bitwise` | include/gmath/Vector4.hpp:159-161 | the result's sign bit and lowest bit are the bit operation applied to the operands' sign bits and lowest bits |
| `Scalar.BitwiseBits` | include/gmath/Vector4.hpp:159-161 | for every bit position k, bit k of the result is the bit operation applied to bit k of each operand |
| `Scalar.ApplyUnary` | include/gmath/Vector4.hpp:52-60 | `+a == a`, `-a + a == 0`, and `~a` flips the sign bit and the lowest bit, with `~a + a == -1` |
| `Scalar.ShlExact` | include/gmath/Vector4.hpp:162 | `a * 2^n` divides by 2^n exactly, giving a back |
| `Scalar.ShrFloor` | include/gmath/Vector4.hpp:163 | dividing by a positive power of two rounds toward minus infinity, as an arithmetic `>>` does |
| `Scalar.DivMod` | include/gmath/Vector4.hpp:157-158 | C++ `/` and `%` on int: `a == b*q + r`, `Abs(r) < Abs(b)`, r zero or with the sign of a |
| `Scalar.DivModUnique` | include/gmath/Vector4.hpp:157-158 | any truncating quotient and remainder pair is the one `/` and `%` return |
| `Scalar.Pow2` | include/gmath/Vector4.hpp:162-163 | the shift scale 2^n is positive |
| `Scalar.MulDivCancel` | include/gmath/Vector4.hpp:156-158 | `(a * s) / s == a` and `(a * s) % s == 0` for s != 0 |
| `Scalar.ShiftRoundTrip` | include/gmath/Vector4.hpp:162-163 | `(a << n) >> n == a` for 0 <= n < 32, on unbounded int |
| `Scalar.XorSelf` | include/gmath/Vector4.hpp:161 | `a ^ a == 0` |
| `Scalar.AndOrSelf` | include/gmath/Vector4.hpp:159-160 | `a & a == a` and `a pipe a == a` |
| `Scalar.XorAllOnes` | include/gmath/Vector4.hpp:58-60 | `a ^ -1 == ~a` |
| `Scalar.BitwiseCommutes` | include/gmath/Vector4.hpp:159-161 | a symmetric bit operation gives a commutative word operation |
| `Scalar.ApplyCommutes` | include/gmath/Vector4.hpp:154-163 | `+ * & pipe ^` commute |
| `Scalar.OperatorExamples` | include/gmath/Vector4.hpp:154-163 | -7 / 2 == -3, -7 % 2 == -1, 7 % -2 == 1, -7 >> 1 == -4, 12 & 10 == 8, 12 pipe 10 == 14, 12 ^ 10 == 6, ~5 == -6 |
| `Componentwise.WithScalarIsZipBroadcast` | include/gmath/Vector4.hpp:137-144 | `v op s` equals `v op Vector(s)`: the scalar is on the right in every component |
| `Componentwise.ScalarWithIsZipBroadcast` | include/gmath/Vector4.hpp:145-148 | `s op v` equals `Vector(s) op v`: the scalar is on the left in every component |
| `Componentwise.CommutativeSidesAgree` | include/gmath/Vector4.hpp:145-148 | for `+ * & pipe ^`, `s op v == v op s` |
| `Componentwise.ScalarLeftSubtraction` | include/gmath/Vector4.hpp:145-148 | `s - v == -(v - s)`: operand order is kept for `-` |
| `Componentwise.AddZeroIsIdentity` | include/gmath/Vector2.hpp:84-87 | `v + 0 == v` at every arity |
| `Componentwise.SubSelfIsZero` | include/gmath/Vector4.hpp:141-144 | `v - v` is the zero vector |
| `Componentwise.XorSelfIsZero` | include/gmath/Vector4.hpp:141-144 | `v ^ v` is the zero vector |
| `Componentwise.AndOrSelfIsIdentity` | include/gmath/Vector4.hpp:141-144 | `v & v == v` and `v pipe v == v` |
| `Componentwise.MulDivRoundTrip` | include/gmath/Vector4.hpp:137-140 | `(v * s) / s == v` exactly for every s != 0 |
| `Componentwise.ShiftRoundTripAll` | include/gmath/Vector4.hpp:137-140 | `(v << n) >> n == v` for every shift amount in range, on unbounded int |
| `Componentwise.UnaryIdentities` | include/gmath/Vector4.hpp:52-60 | `+v == v`, `-(-v) == v`, `~~v == v` |
| `Componentwise.ComplementIsXorAllOnes` | include/gmath/Vector4.hpp:58-60 | `~v == v ^ -1` |
| `Componentwise.SelectIdentity` | include/gmath/Vector4.hpp:99-108 | swizzling the axes in order gives the vector back |
| `Componentwise.SelectCompose` | include/gmath/Vector4.hpp:99-108 | a swizzle of a swizzle is one swizzle through the composed indices |
| `Vec4.Vector4.X` | include/gmath/Vector4.hpp:17 | reading `x` reads component 0 of the vector |
| `Vec4.Vector4.Y` | include/gmath/Vector4.hpp:18 | reading `y` reads component 1 |
| `Vec4.Vector4.Z` | include/gmath/Vector4.hpp:19 | reading `z` reads component 2 |
| `Vec4.Vector4.W` | include/gmath/Vector4.hpp:20 | reading `w` reads component 3 |
| `Vec4.Vector4.SetX` | include/gmath/Vector4.hpp:17 | writing `x` changes slot 0 and no other slot |
| `Vec4.Vector4.SetY` | include/gmath/Vector4.hpp:18 | writing `y` changes slot 1 and no other slot |
| `Vec4.Vector4.SetZ` | include/gmath/Vector4.hpp:19 | writing `z` changes slot 2 and no other slot |
| `Vec4.Vector4.SetW` | include/gmath/Vector4.hpp:20 | writing `w` changes slot 3 and no other slot |
| `Vec4.Vector4.Broadcast` | include/gmath/Vector4.hpp:22-23 | all four components are s; fresh storage |
| `Vec4.Vector4.constructor` | include/gmath/Vector4.hpp:24-25 | components are x, y, z, w in that order; fresh storage |
| `Vec4.Vector4.AssignScalar` | include/gmath/Vector4.hpp:35-42 | all four components become o; returns the receiver |
| `Vec4.Vector4.Assign` | include/gmath/Vector4.hpp:43-50 | each component is copied from o (o may be the receiver); returns the receiver |
| `Vec4.Vector4.UnaryPlus` | include/gmath/Vector4.hpp:52-54 | a new vector of `+` of each component |
| `Vec4.Vector4.UnaryMinus` | include/gmath/Vector4.hpp:55-57 | a new vector of the negated components |
| `Vec4.Vector4.UnaryComplement` | include/gmath/Vector4.hpp:58-60 | a new vector of the bitwise complements |
| `Vec4.Vector4.Swizzle1` | include/gmath/Vector4.hpp:75-78 | the scalar in slot i, for i in [0, 3] |
| `Vec4.Vector4.Swizzle2` | include/gmath/Vector4.hpp:80-87 | a new 2-vector whose component k is the slot at the k-th index, repeats allowed |
| `Vec4.Vector4.Swizzle3` | include/gmath/Vector4.hpp:89-97 | a new 3-vector whose component k is the slot at the k-th index |
| `Vec4.Vector4.Swizzle4` | include/gmath/Vector4.hpp:99-108 | a new 4-vector whose component k is the slot at the k-th index |
| `Vec4.OpAssignScalar` | include/gmath/Vector4.hpp:112-119 | `v op= s`: each component becomes `old op s`; returns v |
| `Vec4.OpAssignVector` | include/gmath/Vector4.hpp:120-127 | `a op= b`: component i becomes `old a[i] op old b[i]`; returns a; b unchanged unless it shares a's storage |
| `Vec4.OpAssignList` | include/gmath/Vector4.hpp:128-136 | list elements 0 to 3 applied in order; requires at least 4 (not checked by the source), ignores the rest |
| `Vec4.OpScalar` | include/gmath/Vector4.hpp:137-140 | `v op s`: a new vector with component i `v[i] op s`; v unchanged |
| `Vec4.OpVector` | include/gmath/Vector4.hpp:141-144 | `a op b`: a new vector with component i `a[i] op b[i]`; operands unchanged |
| `Vec4.ScalarOp` | include/gmath/Vector4.hpp:145-148 | `s op v`: a new vector with component i `s op v[i]`, scalar on the left |
| `Vec4.FieldsAliasSlots` | include/gmath/Vector4.hpp:17-20 | a write to `x` is read by `[0]` and a write to `[3]` is read by `w` |
| `Vec4.AssignScalarTwice` | include/gmath/Vector4.hpp:35-42 | scalar assignment twice equals once |
| `Vec4.ChainedCompound` | include/gmath/Vector4.hpp:112-119 | `(v += 1) *= 2` leaves v equal to `(v + 1) * 2` |
| `Vec4.SubtractSelf` | include/gmath/Vector4.hpp:141-144 | `v - v` is all zeros |
| `Vec4.ScalarLeftExample` | include/gmath/Vector4.hpp:145-148 | `2 - (1,1,1,1) == (1,1,1,1)` |
| `Vec4.SeparateStorage` | include/gmath/Vector4.hpp:120-127 | two separately built vectors do not share storage: `a += b` on (1,2,3,4) and (10,10,10,10) gives (11,12,13,14) and leaves b unchanged |
| `Vec4.SwizzleExample` | include/gmath/Vector4.hpp:75-108 | on (10,20,30,40): index 1 gives 20, (2,0) gives (30,10), (0,0,0,0) gives (10,10,10,10) |
| `Vec3.Vector3.X` | include/gmath/Vector3.hpp:15 | reading `x` reads component 0 of the vector |
| `Vec3.Vector3.Y` | include/gmath/Vector3.hpp:16 | reading `y` reads component 1 |
| `Vec3.Vector3.Z` | include/gmath/Vector3.hpp:17 | reading `z` reads component 2 |
| `Vec3.Vector3.SetX` | include/gmath/Vector3.hpp:15 | writing `x` changes slot 0 and no other slot |
| `Vec3.Vector3.SetY` | include/gmath/Vector3.hpp:16 | writing `y` changes slot 1 and no other slot |
| `Vec3.Vector3.SetZ` | include/gmath/Vector3.hpp:17 | writing `z` changes slot 2 and no other slot |
| `Vec3.Vector3.Broadcast` | include/gmath/Vector3.hpp:19-20 | the components are (s, s, s) |
| `Vec3.Vector3.constructor` | include/gmath/Vector3.hpp:21-22 | the components are x, y, z in that order |
| `Vec3.Vector3.AssignScalar` | include/gmath/Vector3.hpp:31-36 | all three components become o; returns the receiver |
| `Vec3.Vector3.Assign` | include/gmath/Vector3.hpp:37-42 | each component is copied from o; returns the receiver |
| `Vec3.Vector3.UnaryPlus` | include/gmath/Vector3.hpp:44-46 | a new vector of `+` of each component |
| `Vec3.Vector3.UnaryMinus` | include/gmath/Vector3.hpp:47-49 | a new vector of the negated components |
| `Vec3.Vector3.UnaryComplement` | include/gmath/Vector3.hpp:50-52 | a new vector of the bitwise complements |
| `Vec3.OpAssignScalar` | include/gmath/Vector3.hpp:69-75 | `v op= s` on x, y, z; returns v; nothing else changes |
| `Vec3.OpAssignVector` | include/gmath/Vector3.hpp:76-82 | `a op= b` element-wise; returns a; b unchanged unless it shares a's storage |
| `Vec3.OpAssignList` | include/gmath/Vector3.hpp:83-90 | list elements 0, 1, 2 applied to x, y, z; requires at least 3 |
| `Vec3.OpScalar` | include/gmath/Vector3.hpp:91-94 | `v op s` as a new componentwise vector; v unchanged |
| `Vec3.OpVector` | include/gmath/Vector3.hpp:95-98 | `a op b` as a new componentwise vector; operands unchanged |
| `Vec3.ScalarOp` | include/gmath/Vector3.hpp:99-102 | `(s op x, s op y, s op z)`, scalar on the left |
| `Vec3.UnaryRoundTrips` | include/gmath/Vector3.hpp:44-49 | `+v` equals v, and `-(-v)` equals v |
| `Vec3.CompoundMatchesValueForm` | include/gmath/Vector3.hpp:69-94 | after `v op= s`, v is `WithScalar(op, old v, s)`, which is also what `v op s` on the old v returned |
| `Vec2.Vector2.X` | include/gmath/Vector2.hpp:15 | reading `x` reads component 0 of the vector |
| `Vec2.Vector2.Y` | include/gmath/Vector2.hpp:16 | reading `y` reads component 1 |
| `Vec2.Vector2.SetX` | include/gmath/Vector2.hpp:15 | writing `x` changes slot 0 and no other slot |
| `Vec2.Vector2.SetY` | include/gmath/Vector2.hpp:16 | writing `y` changes slot 1 and no other slot |
| `Vec2.Vector2.Broadcast` | include/gmath/Vector2.hpp:18-19 | both components are s |
| `Vec2.Vector2.constructor` | include/gmath/Vector2.hpp:20-21 | the components are x, y in that order |
| `Vec2.Vector2.AssignScalar` | include/gmath/Vector2.hpp:29-33 | both components become o; returns the receiver |
| `Vec2.Vector2.Assign` | include/gmath/Vector2.hpp:34-38 | both components are copied from o; returns the receiver |
| `Vec2.Vector2.UnaryPlus` | include/gmath/Vector2.hpp:40-42 | a new vector of `+` of each component |
| `Vec2.Vector2.UnaryMinus` | include/gmath/Vector2.hpp:43-45 | a new vector of the negated components |
| `Vec2.Vector2.UnaryComplement` | include/gmath/Vector2.hpp:46-48 | a new vector of the bitwise complements |
| `Vec2.OpAssignScalar` | include/gmath/Vector2.hpp:65-70 | `v op= s` on x and y; returns v |
| `Vec2.OpAssignVector` | include/gmath/Vector2.hpp:71-76 | `a op= b` on x and y; returns a; b unchanged unless it shares a's storage |
| `Vec2.OpAssignList` | include/gmath/Vector2.hpp:77-83 | list elements 0 and 1 applied to x and y; requires at least 2 |
| `Vec2.OpScalar` | include/gmath/Vector2.hpp:84-87 | `v op s` as a new componentwise vector; v unchanged |
| `Vec2.OpVector` | include/gmath/Vector2.hpp:88-91 | `a op b` as a new componentwise vector; operands unchanged |
| `Vec2.ScalarOp` | include/gmath/Vector2.hpp:92-95 | `(s op x, s op y)`, scalar on the left |
| `Vec2.ScalarLeftAndIdentity` | include/gmath/Vector2.hpp:84-95 | `2 - (1,1) == (1,1)` and `v + 0 == v` |
| `Vec2.NegateTwice` | include/gmath/Vector2.hpp:43-45 | `-(-v) == v` |

(`pipe` stands for the operator `|`, which cannot be written inside a table cell.)

## Left out

- `magnitude()`, `magnitude(arg)` and `normalized()` are not modelled. They need `sqrt` and floating-point division.
- Floating-point element types are not modelled. The model has one element type, `int`. Per-component result-type promotion through `decltype` and converting assignment between element types (the `template<class To>` form of `Vector4::operator=`) are left out with them.
- The converting and move constructors are not modelled. Their member initialisers bind the reference fields `x`, `y`, `z`, `w` to the source object's slots instead of copying values. The base part is built by the variadic constructor with no arguments, so the new object's own slots are zero while its named fields alias the source. The move form binds each `T&` field to the xvalue `std::move(o.x)`, so it does not compile once instantiated.
- The overload `s op std::array<Tv, 4>` is not modelled. It reads `v.x` on a `std::array`, so it does not compile if used.
- Same-type `Vector4` copy assignment is modelled as a copy. Because `Vector4` declares a move constructor, its implicit copy assignment is deleted, and as a non-template exact match it takes precedence over the template, so `a = b` between two `Vector4<int>` does not compile.
- The named fields are reference members in C++. Here they are accessors at fixed slot offsets (`X()`, `SetX`). Reading and writing them behaves the same, but the copy hazard of reference members is not reproduced.
- `begin`, `end`, `cbegin` and `cend` return pointers in C++. Here they are slot offsets. Pointer arithmetic beyond the buffer is not modelled.
- `Vec4.Vector4.Valid`, `Vec3.Vector3.Valid`, `Vec2.Vector2.Valid`: do not state that two distinct vectors own distinct buffers, which the C++ by-value `_data` member guarantees. A caller concludes that `a op= ...` leaves b unchanged from `a.base.slots != b.base.slots`, which `fresh` gives for vectors built by separate constructors (`Vec4.SeparateStorage`), but not for two arbitrary valid vectors.
- The compound assignments take the receiver as `const VectorN<Tv>&` and write through its reference members, so they also accept const objects and temporaries, and they return a const reference. The model takes a plain object and returns it. Const-correctness and temporary lifetime are not modelled.
- 32-bit `int` arithmetic is not modelled: the elements here are unbounded, so no operator wraps. In C++ an overflowing `+`, `-` or `*` is undefined behaviour, and so are `INT_MIN / -1` and `INT_MIN % -1`; none of these is a precondition here. `<<` is different: it is defined and wraps into the sign bit (from C++14 when the result fits in `unsigned int`, for every amount in [0, 32) from C++20), so `1 << 31` is `INT_MIN`. The model gives `a << n` as `a * 2^n` instead.
- `Scalar.ShiftRoundTrip`, `Componentwise.ShiftRoundTripAll`: hold on unbounded int only. For 32-bit `int` the round trip fails once `a << n` leaves the range of `int`, for example `(1 << 31) >> 31` is -1 under C++20.
- Shifts of negative values: `<<` of a negative value is undefined before C++20 and is modelled as multiplication by 2^n. `>>` of a negative value was implementation-defined before C++20 and is modelled as the arithmetic shift.
- Swizzle indices are compile-time template arguments in C++. Here they are run-time arguments with a precondition that each lies in [0, 3].
- `include/gmath/aliases.hpp` holds only type names, and `include/gmath/constants.hpp` only the axis constants 0 to 3. Neither is part of this model.
