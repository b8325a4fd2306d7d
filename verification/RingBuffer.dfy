/**
The masked ring buffer inside the channel (channel.hpp): `head` and `tail` are 64-bit
counters that only grow and wrap at 2^64, and index the storage through a mask. A slot
holds raw storage: `None` is unconstructed, `Some` holds a live object.
 */
module RingBuffer {
  import opened Bits
  import opened Common

  /** 64-bit subtraction. */
  function Sub64(a: nat, b: nat): nat
    requires a < U64 && b < U64
  {
    if a >= b then a - b else a + U64 - b
  }

  /** Distance of slot j from slot h, going up and wrapping at cap. */
  function Offset(j: nat, h: nat, cap: nat): nat
    requires j < cap && h < cap
  {
    if j >= h then j - h else j + cap - h
  }

  /** The slot n above slot h. */
  function Advance(h: nat, n: nat, cap: nat): nat
    requires h < cap && n <= cap
  {
    if h + n < cap then h + n else h + n - cap
  }

  /** 64-bit increment. */
  function Inc64(x: nat): nat
    requires x < U64
  {
    if x + 1 == U64 then 0 else x + 1
  }

  /** Incrementing a 64-bit counter moves its masked slot up by one, also across the wrap. */
  lemma MaskedSucc(x: nat, cap: nat)
    requires IsPow2(cap) && cap <= U64 && x < U64
    ensures x % cap < cap
    ensures Inc64(x) % cap == Advance(x % cap, 1, cap)
  {
    Pow16And64();
    WrapThenMask(x + 1, 64, cap);
    ModSucc(x, cap);
    if x + 1 < U64 { DivModUnique(x + 1, U64, 0, x + 1); }
  }

  lemma TailStep(head: nat, tail: nat, n: nat, cap: nat)
    requires IsPow2(cap) && head < U64 && tail < U64 && n < cap < U64 && Sub64(tail, head) == n
    requires tail % cap == Advance(head % cap, n, cap)
    ensures Sub64(Inc64(tail), head) == n + 1 && Inc64(tail) % cap == Advance(head % cap, n + 1, cap)
  {
    MaskedSucc(tail, cap);
  }

  lemma HeadStep(head: nat, tail: nat, n: nat, cap: nat)
    requires IsPow2(cap) && head < U64 && tail < U64 && 0 < n <= cap < U64 && Sub64(tail, head) == n
    requires tail % cap == Advance(head % cap, n, cap)
    ensures Sub64(tail, Inc64(head)) == n - 1
    ensures Inc64(head) % cap == Advance(head % cap, 1, cap) && tail % cap == Advance(Inc64(head) % cap, n - 1, cap)
  {
    MaskedSucc(head, cap);
  }

  /** A slot is constructed iff it is one of the |contents| slots from h on, and then holds that item. */
  ghost predicate Holds<T>(slots: seq<Option<T>>, h: nat, contents: seq<T>)
    requires h < |slots|
  {
    forall j :: 0 <= j < |slots| ==>
      var k := Offset(j, h, |slots|);
      slots[j] == if k < |contents| then Some(contents[k]) else None
  }

  lemma HoldsPush<T>(slots: seq<Option<T>>, h: nat, contents: seq<T>, item: T)
    requires h < |slots| && |contents| < |slots| && Holds(slots, h, contents)
    ensures var at := Advance(h, |contents|, |slots|);
            slots[at] == None && Holds(slots[at := Some(item)], h, contents + [item])
  {
  }

  lemma HoldsPop<T>(slots: seq<Option<T>>, h: nat, contents: seq<T>)
    requires h < |slots| && 0 < |contents| <= |slots| && Holds(slots, h, contents)
    ensures slots[h] == Some(contents[0]) && Holds(slots[h := None], Advance(h, 1, |slots|), contents[1..])
  {
  }

  class Ring<T> {
    const cap: nat
    const slots: array<Option<T>>
    var head: nat
    var tail: nat
    ghost var contents: seq<T>

    ghost predicate Valid()
      reads this, slots
    {
      && (cap == 0 || IsPow2(cap)) && cap < U64
      && slots.Length == cap && head < U64 && tail < U64
      && |contents| <= cap && Sub64(tail, head) == |contents|
      && (cap > 0 ==> tail % cap == Advance(head % cap, |contents|, cap) && Holds(slots[..], head % cap, contents))
    }

    constructor (capacity: nat)
      requires capacity <= U64 / 2
      ensures Valid() && fresh(slots) && contents == []
      ensures cap == if capacity == 0 then 0 else BitCeil(capacity)
    {
      BitCeilIsLeast(capacity);
      Half64();
      var c := if capacity == 0 then 0 else BitCeil(capacity);
      cap := c;
      slots := new Option<T>[c](_ => None);
      head, tail, contents := 0, 0, [];
      new;
      assert c > 0 ==> 0 % c == 0;
    }

    method Size() returns (n: nat)
      requires Valid()
      ensures n == |contents|
    {
      n := Sub64(tail, head);
    }

    /** push_inner_: constructs the slot at tail, which is unconstructed. */
    method Push(item: T)
      requires Valid() && |contents| < cap
      modifies this`tail, this`contents, slots
      ensures Valid() && contents == old(contents) + [item]
    {
      AndMaskPow2(tail, cap);
      TailStep(head, tail, |contents|, cap);
      HoldsPush(slots[..], head % cap, contents, item);
      var at := And(tail, cap - 1);
      assert slots[..][at] == None;
      slots[at] := Some(item);
      assert slots[..] == old(slots[..])[at := Some(item)];
      tail := Inc64(tail);
      contents := contents + [item];
    }

    /** pop_inner_: moves the item out of the slot at head and destroys that live slot. */
    method Pop() returns (item: T)
      requires Valid() && contents != []
      modifies this`head, this`contents, slots
      ensures Valid() && item == old(contents)[0] && contents == old(contents)[1..]
    {
      AndMaskPow2(head, cap);
      HeadStep(head, tail, |contents|, cap);
      HoldsPop(slots[..], head % cap, contents);
      var at := And(head, cap - 1);
      assert slots[..][at] == Some(contents[0]);
      item := slots[at].value;
      slots[at] := None;
      assert slots[..] == old(slots[..])[at := None];
      head := Inc64(head);
      contents := contents[1..];
    }

    /** destruct_all_: destroys what is left; afterwards nothing is constructed. */
    method DestructAll()
      requires Valid()
      modifies this`head, this`contents, slots
      ensures Valid() && contents == [] && head == tail
      ensures forall j :: 0 <= j < cap ==> slots[j] == None
    {
      var n := Size();
      while n != 0
        invariant Valid() && n == |contents|
        decreases n
      {
        var _ := Pop();
        n := Size();
      }
    }
  }

  lemma Half64()
    ensures IsPow2(U64 / 2)
  {
    Pow16And64();
    assert Pow2(64) == 2 * Pow2(63);
    assert U64 / 2 == Pow2(63);
  }
}
