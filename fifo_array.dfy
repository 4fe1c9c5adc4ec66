/** Fifo_array<T, N>: a fixed-capacity FIFO over an N-slot array.

    Two cursors index the array: `pop_offset_` counts the consumed slots and
    `push_offset_` the produced ones. Popping never erases a slot and `clear()`
    only resets the cursors. `State` is the value of one object and its member
    functions give the meaning of every operation; the class `FifoArray` has the
    object's three fields and its methods are proved to behave as those functions.

    `pop_front()` clamps the consumed cursor against N rather than against the
    produced cursor, so `pop_offset_ <= push_offset_` is the INTENDED invariant
    (`Ordered`) but not a preserved one; the lemmas below say exactly when it
    breaks and what `size()` then reports. */
module FifoArray {
  import opened SizeType
  import opened FifoOps
  import opened SeqFacts

  /** The value of a Fifo_array: `slots` is `data_` (so N is `|slots|`),
      `popOffset` is `pop_offset_` and `pushOffset` is `push_offset_`. */
  datatype State<T> = State(slots: seq<T>, popOffset: nat, pushOffset: nat) {

    /** What every reachable object satisfies: N and N + 1 are `size_type`
        values, and neither cursor passes N. */
    predicate Valid() {
      IsSize(|slots| + 1) && popOffset <= |slots| && pushOffset <= |slots|
    }

    /** The intended invariant: nothing is consumed that was not produced. */
    predicate Ordered() {
      popOffset <= pushOffset
    }

    /** The unconsumed elements, when the cursors are ordered. */
    function Contents(): (s: seq<T>)
      requires Valid() && Ordered()
      ensures |s| == pushOffset - popOffset
    {
      slots[popOffset..pushOffset]
    }

    /** `size()`: `push_offset_ - pop_offset_` in `size_type`; the number of
        unconsumed elements when ordered, a wrapped-around value near 2^64 when not. */
    function Size(): (n: nat)
      requires Valid()
      ensures IsSize(n)
      ensures Ordered() ==> n == |Contents()|
      ensures !Ordered() ==> n == Modulus - (popOffset - pushOffset)
    {
      Sub(pushOffset, popOffset)
    }

    /** `empty()`: true exactly when the cursors meet, so an over-consumed
        queue is not empty. */
    function Empty(): (e: bool)
      requires Valid()
      ensures e <==> popOffset == pushOffset
      ensures Ordered() ==> (e <==> Contents() == [])
    {
      Size() == 0
    }

    /** `data()`, as the index of the first unconsumed slot. */
    function Data(): (i: nat)
      requires Valid()
      ensures i <= |slots|
      ensures Ordered() ==> i + Size() == pushOffset
    {
      popOffset
    }

    /** `front()`: reads slot `pop_offset_`, which must exist (it is in bounds
        whenever the queue is ordered and not empty). */
    function Front(): (x: T)
      requires Valid() && popOffset < |slots|
      ensures Ordered() && !Empty() ==> x == Contents()[0]
    {
      slots[popOffset]
    }

    /** `back()`: reads slot `push_offset_ - 1`, which must exist. */
    function Back(): (x: T)
      requires Valid() && pushOffset > 0
      ensures Ordered() && !Empty() ==> x == Contents()[Size() - 1]
    {
      slots[pushOffset - 1]
    }

    /** `push_back(value)`: `data_[push_offset_++] = value`; the slot must exist. */
    function PushBack(v: T): (r: State<T>)
      requires Valid() && pushOffset < |slots|
      ensures r.Valid() && |r.slots| == |slots|
      ensures r.popOffset == popOffset && r.pushOffset == pushOffset + 1
      ensures r.slots[pushOffset] == v && r.Back() == v
      ensures forall i :: 0 <= i < |slots| && i != pushOffset ==> r.slots[i] == slots[i]
      ensures Ordered() ==> r.Ordered() && r.Contents() == Contents() + [v] && r.Size() == Size() + 1
    {
      State(slots[pushOffset := v], popOffset, pushOffset + 1)
    }

    /** `pop_front()`: `pop_offset_ = min(pop_offset_ + 1, N)`. */
    function PopFront(): (r: State<T>)
      requires Valid()
      ensures r.Valid() && r.slots == slots && r.pushOffset == pushOffset
      ensures popOffset < |slots| ==> r.popOffset == popOffset + 1
      ensures popOffset == |slots| ==> r == this
      ensures Ordered() && !Empty() ==> r.Ordered() && r.Contents() == Contents()[1..] && r.Size() == Size() - 1
    {
      State(slots, Min(popOffset + 1, |slots|), pushOffset)
    }

    /** `unpop_front()`: steps the consumed cursor back unless it is 0. */
    function UnpopFront(): (r: State<T>)
      requires Valid()
      ensures r.Valid() && r.slots == slots && r.pushOffset == pushOffset
      ensures popOffset == 0 ==> r == this
      ensures popOffset > 0 ==> r.popOffset == popOffset - 1
      ensures Ordered() ==> r.Ordered()
      ensures Ordered() && popOffset > 0 ==>
                r.Contents() == [slots[popOffset - 1]] + Contents() && r.Size() == Size() + 1
    {
      if popOffset > 0 then State(slots, popOffset - 1, pushOffset) else this
    }

    /** `unpop_all()`: re-exposes every slot produced since the last `clear()`. */
    function UnpopAll(): (r: State<T>)
      requires Valid()
      ensures r.Valid() && r.slots == slots && r.pushOffset == pushOffset
      ensures r.Ordered() && r.Contents() == slots[..pushOffset]
    {
      State(slots, 0, pushOffset)
    }

    /** `clear()`: resets both cursors and leaves every slot as it was. */
    function Clear(): (r: State<T>)
      requires Valid()
      ensures r.Valid() && r.Ordered() && r.Empty()
      ensures r.slots == slots && r.Contents() == []
      ensures r.popOffset == 0 && r.pushOffset == 0
    {
      State(slots, 0, 0)
    }
  }

  /** Popping and then unpopping gives back the same state exactly when the
      consumed cursor had not reached N (or N is 0); in particular it does so
      whenever the queue is ordered and not empty. */
  lemma PopThenUnpop<T>(q: State<T>)
    requires q.Valid()
    ensures q.PopFront().UnpopFront() == q <==> q.popOffset < |q.slots| || |q.slots| == 0
    ensures q.Ordered() && !q.Empty() ==> q.PopFront().UnpopFront() == q
  {
  }

  /** Unpopping and then popping gives back the same state exactly when
      something had been consumed (or N is 0). */
  lemma UnpopThenPop<T>(q: State<T>)
    requires q.Valid()
    ensures q.UnpopFront().PopFront() == q <==> q.popOffset > 0 || |q.slots| == 0
  {
  }

  /** `pop_front()` keeps the cursors ordered exactly when the queue was not
      empty or the consumed cursor already sat at N. */
  lemma PopFrontKeepsOrder<T>(q: State<T>)
    requires q.Valid() && q.Ordered()
    ensures q.PopFront().Ordered() <==> q.popOffset < q.pushOffset || q.popOffset == |q.slots|
  {
  }

  /** Over-consumption: popping an empty queue whose cursors are below N
      pushes the consumed cursor past the produced one, and `size()` wraps
      around to 2^64 - 1, so the queue no longer reads as empty. */
  lemma PopEmptyOverConsumes<T>(q: State<T>)
    requires q.Valid() && q.Empty() && q.pushOffset < |q.slots|
    ensures var r := q.PopFront();
            !r.Ordered() && r.popOffset == q.pushOffset + 1 &&
            r.Size() == Modulus - 1 && !r.Empty()
  {
  }

  /** Push one element after `clear()` and pop twice.
      With N >= 2 the second pop over-consumes and `size()` becomes 2^64 - 1;
      with N == 1 the clamp at N happens to keep the queue empty. */
  lemma PushOncePopTwice<T>(q: State<T>, v: T)
    requires q.Valid() && |q.slots| >= 1
    ensures var r := q.Clear().PushBack(v).PopFront().PopFront();
            r.pushOffset == 1 &&
            (|q.slots| >= 2 ==> r.popOffset == 2 && r.Size() == Modulus - 1) &&
            (|q.slots| == 1 ==> r.popOffset == 1 && r.Empty())
  {
    var c := q.Clear().PushBack(v);
    assert c.popOffset == 0 && c.pushOffset == 1;
  }

  /** One step of a client; a push needs a free slot. */
  function Step<T>(q: State<T>, op: Op<T>): (r: State<T>)
    requires q.Valid() && (op.Push? ==> q.pushOffset < |q.slots|)
    ensures r.Valid() && |r.slots| == |q.slots|
  {
    match op
    case Push(v) => q.PushBack(v)
    case Pop => q.PopFront()
  }

  /** The state after performing `ops` in order on `q`, when there is room for
      all its pushes. Each push advances the produced cursor by one, and the
      consumed cursor ends at `min(pop_offset_ + pops, N)` whatever the order. */
  function Run<T>(q: State<T>, ops: seq<Op<T>>): (r: State<T>)
    requires q.Valid() && q.pushOffset + |Pushed(ops)| <= |q.slots|
    ensures r.Valid() && |r.slots| == |q.slots|
    ensures r.pushOffset == q.pushOffset + |Pushed(ops)|
    ensures r.popOffset == Min(q.popOffset + Pops(ops), |q.slots|)
    decreases |ops|
  {
    if ops == [] then q
    else
      StepCounts(ops);
      Run(Step(q, ops[0]), ops[1..])
  }

  /** How the counts of `ops` split over its first step. */
  lemma {:induction false} StepCounts<T>(ops: seq<Op<T>>)
    requires ops != []
    ensures |Pushed(ops)| == (if ops[0].Push? then 1 else 0) + |Pushed(ops[1..])|
    ensures Pops(ops) == (if ops[0].Pop? then 1 else 0) + Pops(ops[1..])
  {
  }

  /** Where the pushes of Run land: the slots below the old produced cursor are
      untouched and the pushed values fill the slots from there on, in order. */
  lemma {:induction false} RunWrites<T>(q: State<T>, ops: seq<Op<T>>)
    requires q.Valid() && q.pushOffset + |Pushed(ops)| <= |q.slots|
    ensures var r := Run(q, ops);
            r.slots[..q.pushOffset] == q.slots[..q.pushOffset] &&
            r.slots[q.pushOffset..r.pushOffset] == Pushed(ops)
    decreases |ops|
  {
    if ops != [] {
      StepCounts(ops);
      var q' := Step(q, ops[0]);
      assert Run(q, ops) == Run(q', ops[1..]);
      RunWrites(q', ops[1..]);
      if ops[0].Push? {
        PushWrites(q, ops[0].value, ops[1..], Run(q', ops[1..]));
      } else {
        assert Pushed(ops) == Pushed(ops[1..]);
      }
    }
  }

  /** The inductive step of RunWrites for a push. */
  lemma PushWrites<T>(q: State<T>, v: T, rest: seq<Op<T>>, r: State<T>)
    requires q.Valid() && q.pushOffset < |q.slots| && |r.slots| == |q.slots|
    requires q.pushOffset + 1 + |Pushed(rest)| <= |r.slots|
    requires r.slots[..q.pushOffset + 1] == q.PushBack(v).slots[..q.pushOffset + 1]
    requires r.slots[q.pushOffset + 1..q.pushOffset + 1 + |Pushed(rest)|] == Pushed(rest)
    ensures r.slots[..q.pushOffset] == q.slots[..q.pushOffset]
    ensures r.slots[q.pushOffset..q.pushOffset + 1 + |Pushed(rest)|] == Pushed([Push(v)] + rest)
  {
    var ops := [Push(v)] + rest;
    assert ops[1..] == rest;
    var p := q.pushOffset;
    assert r.slots[p] == r.slots[..p + 1][p] == v;
    assert r.slots[p..p + 1 + |Pushed(rest)|] == [v] + r.slots[p + 1..p + 1 + |Pushed(rest)|];
  }

  /** The size law, for ANY interleaving that fits the capacity: with `k`
      pushes and `j` pops, and no more pops than elements present plus pushed,
      the queue ends ordered with `size()` grown by `k - j`. The clamp at N
      never engages here, so unlike the growable FIFO a pop on an empty queue
      is not lost: it consumes the next element pushed. */
  lemma RunSize<T>(q: State<T>, ops: seq<Op<T>>)
    requires q.Valid() && q.Ordered() && q.pushOffset + |Pushed(ops)| <= |q.slots|
    requires Pops(ops) <= q.Size() + |Pushed(ops)|
    ensures Run(q, ops).Ordered()
    ensures Run(q, ops).Size() == q.Size() + |Pushed(ops)| - Pops(ops)
  {
  }

  /** FIFO order under the same conditions: the unconsumed elements are the
      old ones followed by the pushed ones, less as many from the front as
      there were pops. */
  lemma RunContents<T>(q: State<T>, ops: seq<Op<T>>)
    requires q.Valid() && q.Ordered() && q.pushOffset + |Pushed(ops)| <= |q.slots|
    requires Pops(ops) <= q.Size() + |Pushed(ops)|
    ensures Run(q, ops).Ordered()
    ensures Run(q, ops).Contents() == (q.Contents() + Pushed(ops))[Pops(ops)..]
  {
    RunWrites(q, ops);
    ContentsAfterWrites(q, Run(q, ops), Pushed(ops), Pops(ops));
  }

  /** The step of RunContents that is about slices only: `r` keeps the slots
      of `q` below its produced cursor, holds `w` from there on, and has
      consumed `j` more. */
  lemma ContentsAfterWrites<T>(q: State<T>, r: State<T>, w: seq<T>, j: nat)
    requires q.Valid() && q.Ordered() && r.Valid() && |r.slots| == |q.slots|
    requires r.pushOffset == q.pushOffset + |w| && r.popOffset == q.popOffset + j
    requires j <= q.Size() + |w|
    requires r.slots[..q.pushOffset] == q.slots[..q.pushOffset]
    requires r.slots[q.pushOffset..r.pushOffset] == w
    ensures r.Ordered() && r.Contents() == (q.Contents() + w)[j..]
  {
    SliceAcross(r.slots, q.slots, q.popOffset, q.pushOffset, r.pushOffset);
    DropOfSlice(r.slots, q.popOffset, r.pushOffset, j);
  }

  /** Once the consumed cursor has passed the produced one, `pop_front()` can
      never bring them back together: the queue stays over-consumed and never
      reads as empty, so a client popping until `empty()` does not stop. */
  lemma OverConsumedStaysNonEmpty<T>(q: State<T>)
    requires q.Valid() && !q.Ordered()
    ensures !q.PopFront().Ordered() && !q.PopFront().Empty()
  {
  }

  /** What a client observes by calling `front()` and `pop_front()` until the
      queue is empty: exactly the unconsumed elements, in order. */
  function Drain<T>(q: State<T>): (r: seq<T>)
    requires q.Valid() && q.Ordered()
    ensures r == q.Contents()
    decreases q.Size()
  {
    if q.Empty() then [] else [q.Front()] + Drain(q.PopFront())
  }

  /** `unpop_all()` after any pushes and pops since a `clear()` re-exposes
      every element pushed since then, in push order. */
  lemma UnpopAllReplaysHistory<T>(q: State<T>, ops: seq<Op<T>>)
    requires q.Valid() && |Pushed(ops)| <= |q.slots|
    ensures Drain(Run(q.Clear(), ops).UnpopAll()) == Pushed(ops)
  {
    RunWrites(q.Clear(), ops);
    var r := Run(q.Clear(), ops);
    assert Drain(r.UnpopAll()) == r.slots[..r.pushOffset] == r.slots[0..r.pushOffset];
  }

  /** The fixed-capacity example with N = 4, from whatever the slots hold. */
  lemma FixedCapacityExample(q: State<int>)
    requires q.Valid() && |q.slots| == 4 && q.popOffset == 0 && q.pushOffset == 0
    ensures var q1 := q.PushBack(10).PushBack(20).PushBack(30);
            var q2 := q1.PopFront();
            var q3 := q2.UnpopFront();
            q1.Size() == 3 && q1.Front() == 10 && q1.Back() == 30 &&
            q2.Size() == 2 && q2.Front() == 20 &&
            q3.Size() == 3 && q3.Front() == 10 &&
            q3.Clear().Size() == 0
  {
    var q1 := q.PushBack(10).PushBack(20).PushBack(30);
    assert q1.Contents() == [10, 20, 30];
  }

  /** The object: the array `data_` and the cursors `pop_offset_` and `push_offset_`. */
  class FifoArray<T(0)> {
    var data: array<T>
    var popOffset: nat
    var pushOffset: nat

    ghost function Model(): State<T>
      reads this, data
    {
      State(data[..], popOffset, pushOffset)
    }

    ghost predicate Valid()
      reads this, data
    {
      Model().Valid()
    }

    /** `Fifo_array()`: both cursors at 0; the slots hold whatever the
        element type's default initialisation gives them. */
    constructor (n: nat)
      requires IsSize(n + 1)
      ensures Valid() && fresh(data) && data.Length == n
      ensures popOffset == 0 && pushOffset == 0
    {
      data := new T[n];
      popOffset, pushOffset := 0, 0;
    }

    method Data() returns (i: nat)
      requires Valid()
      ensures i == Model().Data()
    {
      i := popOffset;
    }

    method Front() returns (x: T)
      requires Valid() && popOffset < data.Length
      ensures x == Model().Front()
    {
      x := data[popOffset];
    }

    method Back() returns (x: T)
      requires Valid() && pushOffset > 0
      ensures x == Model().Back()
    {
      x := data[pushOffset - 1];
    }

    method Size() returns (n: nat)
      requires Valid()
      ensures n == Model().Size()
    {
      n := Sub(pushOffset, popOffset);
    }

    method Empty() returns (e: bool)
      requires Valid()
      ensures e == Model().Empty()
    {
      var n := Size();
      e := n == 0;
    }

    method PushBack(v: T)
      requires Valid() && pushOffset < data.Length
      modifies this, data
      ensures data == old(data)
      ensures Valid() && Model() == old(Model()).PushBack(v)
    {
      data[pushOffset] := v;
      pushOffset := pushOffset + 1;
    }

    method EmplaceBack(v: T)
      requires Valid() && pushOffset < data.Length
      modifies this, data
      ensures data == old(data)
      ensures Valid() && Model() == old(Model()).PushBack(v)
    {
      PushBack(v);
    }

    method PopFront()
      requires Valid()
      modifies this
      ensures data == old(data)
      ensures Valid() && Model() == old(Model()).PopFront()
    {
      popOffset := Min(popOffset + 1, data.Length);
    }

    method UnpopFront()
      requires Valid()
      modifies this
      ensures data == old(data)
      ensures Valid() && Model() == old(Model()).UnpopFront()
    {
      if popOffset > 0 {
        popOffset := popOffset - 1;
      }
    }

    method UnpopAll()
      requires Valid()
      modifies this
      ensures data == old(data)
      ensures Valid() && Model() == old(Model()).UnpopAll()
    {
      popOffset := 0;
    }

    method Clear()
      requires Valid()
      modifies this
      ensures data == old(data)
      ensures Valid() && Model() == old(Model()).Clear()
    {
      popOffset, pushOffset := 0, 0;
    }

    /** Member `swap`: exchanges the storage and both cursors (also when
        `other` is this very object). The capacities agree, as both objects
        have the type Fifo_array<T, N>. */
    method Swap(other: FifoArray<T>)
      requires data.Length == other.data.Length
      modifies this, other
      ensures data == old(other.data) && other.data == old(data)
      ensures Model() == old(other.Model()) && other.Model() == old(Model())
    {
      var d, p, q := data, popOffset, pushOffset;
      data, popOffset, pushOffset := other.data, other.popOffset, other.pushOffset;
      other.data, other.popOffset, other.pushOffset := d, p, q;
    }
  }

  /** The free function `swap(lhs, rhs)`. */
  method Swap<T(0)>(lhs: FifoArray<T>, rhs: FifoArray<T>)
    requires lhs.data.Length == rhs.data.Length
    modifies lhs, rhs
    ensures lhs.data == old(rhs.data) && rhs.data == old(lhs.data)
    ensures lhs.Model() == old(rhs.Model()) && rhs.Model() == old(lhs.Model())
  {
    lhs.Swap(rhs);
  }

  /** Swapping twice restores both queues. */
  method SwapTwice<T(0)>(a: FifoArray<T>, b: FifoArray<T>)
    requires a.data.Length == b.data.Length
    modifies a, b
    ensures a.data == old(a.data) && b.data == old(b.data)
    ensures a.Model() == old(a.Model()) && b.Model() == old(b.Model())
  {
    Swap(a, b);
    a.Swap(b);
  }

  /** When the queue is ordered and not empty, `pop_front()` then
      `unpop_front()` restores the object, and with it `size()` and `front()`. */
  method PopUnpopRestores<T(0)>(q: FifoArray<T>)
    requires q.Valid() && q.popOffset < q.pushOffset
    modifies q
    ensures q.data == old(q.data) && q.Model() == old(q.Model())
  {
    PopThenUnpop(q.Model());
    q.PopFront();
    q.UnpopFront();
  }
}
