/** The producer/consumer buffer of com.condition.BondLink.
 *
 *  The Java class keeps an `int[]` and a counter under one lock with two
 *  conditions. Its bookkeeping is a stack: `addItem` bumps the counter and
 *  writes at the new index (so slot 0 is never written), `removeItem` zeroes
 *  the slot at the counter and decrements it. The lock and the conditions are
 *  not modelled: each blocking `await` becomes a precondition, each
 *  `signalAll` a returned boolean.
 *
 *  Two defects of the Java code are not modelled, only noted here:
 *  - both guards are a single `if` around `await`, not a `while`. After a
 *    spurious wake-up `addItem` runs on a full buffer: the count is raised
 *    to `items.length` and the write at that index throws
 *    ArrayIndexOutOfBoundsException, so nothing is written and the count is
 *    left out of range. `removeItem` runs on an empty buffer: slot 0 is
 *    zeroed and the count drops to -1;
 *  - `unlock` is not in a `finally`, so the exception thrown by an
 *    interrupted `await` or an out-of-bounds write leaves the lock held.
 */
module BondLinkModel {

  /** Java's 32-bit `int`, the element type of `items`. */
  newtype i32 = x: int | -0x8000_0000 <= x < 0x8000_0000

  /** The lock-protected state: the `items` array and `currentCount`. */
  datatype Store = Store(slots: seq<i32>, count: int)

  /** The state `new BondLink(size)` starts in: a zero-filled array, count 0. */
  function Init(size: nat): (s: Store)
    ensures |s.slots| == size && s.count == 0
    ensures forall i :: 0 <= i < size ==> s.slots[i] == 0
  {
    Store(seq(size, _ => 0), 0)
  }

  /** What the bookkeeping keeps true between calls: the count lies in
   *  [0, size-1] (just 0 for a zero-length array), slot 0 is never used and
   *  every slot above the count holds 0. */
  predicate Inv(s: Store) {
    && 0 <= s.count
    && (s.count == 0 || s.count < |s.slots|)
    && (|s.slots| > 0 ==> s.slots[0] == 0)
    && (forall i :: s.count < i < |s.slots| ==> s.slots[i] == 0)
  }

  /** The items logically held, oldest first: slots 1..count. */
  function Contents(s: Store): (c: seq<i32>)
    requires Inv(s)
  {
    if |s.slots| == 0 then [] else s.slots[1..s.count + 1]
  }

  /** The guard of `addItem`: it waits once if the count is `items.length-1`,
   *  which under the invariant means the buffer is full. */
  predicate AddBlocks(s: Store)
    ensures Inv(s) ==> (AddBlocks(s) <==> |s.slots| > 0 && |Contents(s)| == |s.slots| - 1)
  {
    s.count == |s.slots| - 1
  }

  /** The guard of `removeItem`: it waits once if the count is 0, which under
   *  the invariant means the buffer is empty. */
  predicate RemoveBlocks(s: Store)
    ensures Inv(s) ==> (RemoveBlocks(s) <==> Contents(s) == [])
  {
    s.count == 0
  }

  /** `addItem` can complete: the guard lets it through and the write at the
   *  incremented count is inside the array. */
  predicate CanAdd(s: Store) {
    0 <= s.count && s.count + 1 < |s.slots|
  }

  /** `removeItem` can complete: the guard lets it through and the slot at
   *  the count is inside the array. */
  predicate CanRemove(s: Store) {
    0 < s.count < |s.slots|
  }

  /** The state change of `addItem(x)`: increment, then write at the new
   *  count. The count goes up by one, the new top slot holds `x` and no
   *  other slot changes. */
  function Add(s: Store, x: i32): (r: Store)
    requires CanAdd(s)
    ensures |r.slots| == |s.slots|
    ensures r.count == s.count + 1 && r.slots[r.count] == x
    ensures forall i :: 0 <= i < |s.slots| && i != r.count ==> r.slots[i] == s.slots[i]
  {
    Store(s.slots[s.count + 1 := x], s.count + 1)
  }

  /** The state change of `removeItem()`: zero the slot at the count, then
   *  decrement. The count goes down by one, the old top slot becomes 0 and
   *  no other slot changes; the removed value is not returned. */
  function Remove(s: Store): (r: Store)
    requires CanRemove(s)
    ensures |r.slots| == |s.slots|
    ensures r.count == s.count - 1 && r.slots[s.count] == 0
    ensures forall i :: 0 <= i < |s.slots| && i != s.count ==> r.slots[i] == s.slots[i]
  {
    Store(s.slots[s.count := 0], s.count - 1)
  }

  // ---------------------------------------------------------------------
  // Properties of the bookkeeping

  lemma InitInv(size: nat)
    ensures Inv(Init(size)) && Contents(Init(size)) == []
  {
  }

  /** Under the invariant the add guard lets a call through exactly when the
   *  write is in bounds, except for a zero-length array: there the guard
   *  (count == -1) never blocks and the write at index 1 is out of bounds. */
  lemma AddGuardVersusBounds(s: Store)
    requires Inv(s)
    ensures CanAdd(s) <==> !AddBlocks(s) && |s.slots| != 0
    ensures |s.slots| == 0 ==> !AddBlocks(s) && !CanAdd(s)
  {
  }

  /** Under the invariant the remove guard lets a call through exactly when
   *  removal is possible. */
  lemma RemoveGuardExact(s: Store)
    requires Inv(s)
    ensures CanRemove(s) <==> !RemoveBlocks(s)
  {
  }

  /** With a one-slot array the add guard holds at count 0 forever: no item
   *  can ever be added. */
  lemma SizeOneNeverAdds(s: Store)
    requires Inv(s) && |s.slots| == 1
    ensures AddBlocks(s) && !CanAdd(s) && Contents(s) == []
  {
  }

  /** The buffer holds at most size-1 items. */
  lemma CapacityBound(s: Store)
    requires Inv(s)
    ensures |Contents(s)| == s.count
    ensures |s.slots| > 0 ==> |Contents(s)| <= |s.slots| - 1
  {
  }

  lemma AddPreservesInv(s: Store, x: i32)
    requires Inv(s) && CanAdd(s)
    ensures Inv(Add(s, x))
  {
  }

  lemma RemovePreservesInv(s: Store)
    requires Inv(s) && CanRemove(s)
    ensures Inv(Remove(s))
  {
  }

  /** Adding pushes onto the top of the stack. */
  lemma AddPushes(s: Store, x: i32)
    requires Inv(s) && CanAdd(s)
    ensures Inv(Add(s, x)) && Contents(Add(s, x)) == Contents(s) + [x]
  {
  }

  /** Removing pops the most recently added item. */
  lemma RemovePops(s: Store)
    requires Inv(s) && CanRemove(s)
    ensures Inv(Remove(s))
    ensures Contents(s) == Contents(Remove(s)) + [s.slots[s.count]]
  {
  }

  /** LIFO round trip: an add followed at once by a remove restores exactly
   *  the prior array and count (the freed slot was already 0). */
  lemma AddRemoveRoundTrip(s: Store, x: i32)
    requires Inv(s) && CanAdd(s)
    ensures CanRemove(Add(s, x)) && Remove(Add(s, x)) == s
  {
  }

  // ---------------------------------------------------------------------
  // Runs of several calls

  /** `addItem` called once for each element of `xs`, in order. */
  function AddAll(s: Store, xs: seq<i32>): (r: Store)
    requires 0 <= s.count && s.count + |xs| < |s.slots|
    decreases |xs|
  {
    if xs == [] then s else AddAll(Add(s, xs[0]), xs[1..])
  }

  /** `removeItem` called `n` times. */
  function RemoveN(s: Store, n: nat): (r: Store)
    requires n <= s.count < |s.slots|
    decreases n
  {
    if n == 0 then s else RemoveN(Remove(s), n - 1)
  }

  /** A run of adds keeps the invariant, raises the count by the number of
   *  items and pushes them in order. */
  lemma {:induction false} AddAllPushes(s: Store, xs: seq<i32>)
    requires Inv(s) && s.count + |xs| < |s.slots|
    ensures Inv(AddAll(s, xs))
    ensures AddAll(s, xs).count == s.count + |xs| && |AddAll(s, xs).slots| == |s.slots|
    ensures Contents(AddAll(s, xs)) == Contents(s) + xs
    decreases |xs|
  {
    if xs != [] {
      AddPushes(s, xs[0]);
      AddAllPushes(Add(s, xs[0]), xs[1..]);
      assert Contents(s) + [xs[0]] + xs[1..] == Contents(s) + xs;
    }
  }

  /** Generalised LIFO round trip: as many removes as there were adds bring
   *  back exactly the state before the adds. */
  lemma {:induction false} AddAllRemoveNRoundTrip(s: Store, xs: seq<i32>)
    requires Inv(s) && s.count + |xs| < |s.slots|
    ensures AddAll(s, xs).count == s.count + |xs| && |AddAll(s, xs).slots| == |s.slots|
    ensures RemoveN(AddAll(s, xs), |xs|) == s
    decreases |xs|
  {
    AddAllPushes(s, xs);
    if xs != [] {
      var t := Add(s, xs[0]);
      AddPreservesInv(s, xs[0]);
      AddAllRemoveNRoundTrip(t, xs[1..]);
      assert AddAll(s, xs) == AddAll(t, xs[1..]);
      // RemoveN peels the last remove off the end
      RemoveNLast(AddAll(t, xs[1..]), |xs[1..]|);
      AddRemoveRoundTrip(s, xs[0]);
    }
  }

  /** Removing `n + 1` times is removing `n` times and then once more. */
  lemma {:induction false} RemoveNLast(s: Store, n: nat)
    requires n + 1 <= s.count < |s.slots|
    ensures RemoveN(s, n).count == s.count - n && |RemoveN(s, n).slots| == |s.slots|
    ensures RemoveN(s, n + 1) == Remove(RemoveN(s, n))
    decreases n
  {
    if n > 0 {
      RemoveNLast(Remove(s), n - 1);
    }
  }

  /** The capacity-4 scenario: three adds succeed, a fourth would block, and
   *  the next remove discards the LAST item added (3), not the first: the
   *  buffer is a stack, not the FIFO queue its use suggests. */
  lemma CapacityFourIsLifo()
    ensures var s3 := Add(Add(Add(Init(4), 1), 2), 3);
      && Inv(s3) && Contents(s3) == [1, 2, 3]
      && AddBlocks(s3) && !CanAdd(s3)
      && CanRemove(s3) && Contents(Remove(s3)) == [1, 2]
  {
  }

  // ---------------------------------------------------------------------
  // The class

  class BondLink {
    var items: array<i32>
    var currentCount: int

    /** The abstract state of this object. */
    ghost function State(): (s: Store)
      reads this, items
    {
      Store(items[..], currentCount)
    }

    ghost predicate Valid()
      reads this, items
    {
      Inv(State())
    }

    /** `new BondLink(size)`: a zero-filled array of `size` slots, count 0. */
    constructor (size: nat)
      ensures Valid() && fresh(items)
      ensures State() == Init(size)
    {
      items := new i32[size](_ => 0);
      currentCount := 0;
      new;
      assert items[..] == Init(size).slots;
    }

    /** `addItem(item)` once the "not full" guard is past. The guard itself
     *  (`currentCount == items.length-1` makes the caller wait) is the first
     *  precondition; the second excludes the zero-length array, where the
     *  guard does not block and the write throws. `signalledNotEmpty` is the
     *  `removeCondition.signalAll()` call. */
    method AddItem(item: i32) returns (signalledNotEmpty: bool)
      requires Valid()
      requires currentCount != items.Length - 1
      requires items.Length != 0
      modifies this`currentCount, items
      ensures Valid()
      ensures CanAdd(old(State())) && State() == Add(old(State()), item)
      ensures Contents(State()) == Contents(old(State())) + [item]
      ensures signalledNotEmpty <==> currentCount == 1
    {
      ghost var s := State();
      AddGuardVersusBounds(s);
      currentCount := currentCount + 1;
      items[currentCount] := item;
      signalledNotEmpty := currentCount == 1;
      assert State() == Add(s, item);
      AddPushes(s, item);
    }

    /** `removeItem()` once the "not empty" guard is past (`currentCount == 0`
     *  makes the caller wait). Nothing is returned; `signalledNotFull` is the
     *  `addCondition.signalAll()` call. */
    method RemoveItem() returns (signalledNotFull: bool)
      requires Valid()
      requires currentCount != 0
      modifies this`currentCount, items
      ensures Valid()
      ensures CanRemove(old(State())) && State() == Remove(old(State()))
      ensures Contents(old(State())) == Contents(State()) + [old(items[currentCount])]
      ensures signalledNotFull <==> currentCount == items.Length - 2
    {
      ghost var s := State();
      RemoveGuardExact(s);
      items[currentCount] := 0;
      currentCount := currentCount - 1;
      signalledNotFull := currentCount == items.Length - 2;
      assert State() == Remove(s);
      RemovePops(s);
    }
  }
}
