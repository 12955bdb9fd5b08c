/**
 * `VectorBase<T, N>`: the storage every vector arity is built on, a fixed
 * buffer of N slots in axis order, with indexed read and write, iteration
 * bounds and access to the whole buffer. Nothing here checks an index: a
 * slot index of N or more is undefined behaviour in C++, so it is a
 * precondition here. Pointers into the buffer are modelled as slot offsets.
 */
module Base {

  class VectorBase {
    /** The template parameter N: the number of slots. */
    const N: nat
    /** The buffer `_data[N]`. */
    const slots: array<int>

    predicate Valid()
    {
      slots.Length == N
    }

    /** The slots in axis order. */
    function Elements(): (e: seq<int>)
      reads slots
      requires Valid()
      ensures |e| == N
    {
      slots[..]
    }

    /**
     * The variadic constructor `VectorBase(args...)`: slot i holds the i-th
     * argument. Like any aggregate initialisation it value-initialises (to 0)
     * the slots past the last argument; more than N arguments do not compile.
     */
    constructor (n: nat, args: seq<int>)
      requires |args| <= n
      ensures Valid() && N == n && fresh(slots)
      ensures Elements() == args + seq(n - |args|, _ => 0)
    {
      N := n;
      slots := new int[n](i => if 0 <= i < |args| then args[i] else 0);
    }

    /** The constructor from a `std::array<T, N>`: a slot-for-slot copy. */
    constructor FromArray(n: nat, source: seq<int>)
      requires |source| == n
      ensures Valid() && N == n && fresh(slots)
      ensures Elements() == source
    {
      N := n;
      slots := new int[n](i requires 0 <= i < n => source[i]);
    }

    /** `operator[](i)` read (both the const and non-const overload). */
    method Get(i: nat) returns (r: int)
      requires Valid() && i < N
      ensures r == Elements()[i]
    {
      r := slots[i];
    }

    /** A write through the reference `operator[](i)` returns: slot i changes, no other. */
    method Set(i: nat, value: int)
      requires Valid() && i < N
      modifies slots
      ensures Elements() == old(Elements())[i := value]
    {
      slots[i] := value;
    }

    /** `begin()` and `cbegin()`, as the offset of the first slot: iteration from it sees every slot. */
    function Begin(): (p: nat)
      reads slots
      ensures Valid() ==> p <= N && slots[p..] == Elements()
    {
      0
    }

    /**
     * `end()` and `cend()`, as the offset one past the last slot: the range
     * from `begin()` to `end()` is exactly the N slots in axis order.
     */
    function End(): (e: nat)
      reads slots
      ensures e - Begin() == N
      ensures Valid() ==> e <= slots.Length && slots[Begin()..e] == Elements()
    {
      N
    }

    /** `data()`: the buffer itself, not a copy, so a write through it is seen by `operator[]`. */
    method Data() returns (p: array<int>)
      requires Valid()
      ensures p == slots && p.Length == End() - Begin()
    {
      p := slots;
    }
  }

  /** A write through `data()[i]` is what `operator[](i)` then reads, and no other slot moves. */
  method WriteThroughData(b: VectorBase, i: nat, value: int) returns (r: int)
    requires b.Valid() && i < b.N
    modifies b.slots
    ensures r == value
    ensures b.Elements() == old(b.Elements())[i := value]
  {
    var p := b.Data();
    p[i] := value;
    r := b.Get(i);
  }
}
