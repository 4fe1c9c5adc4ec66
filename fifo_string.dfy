/** Basic_fifo_string: a growable FIFO over an append-only string.

    Popping never erases anything: the string `data_` keeps every element pushed
    since the last `clear()`, and the cursor `offset_` counts how many of them have
    been consumed. `State` is the value of one such object and its member functions
    give the meaning of every operation; the class `BasicFifoString` has the
    object's two fields and its methods are proved to behave as those functions. */
module FifoString {
  import opened SizeType
  import opened FifoOps

  /** The value of a Basic_fifo_string: `data` is `data_`, `offset` is `offset_`. */
  datatype State<T> = State(data: seq<T>, offset: nat) {

    /** The object invariant: the cursor never passes the end of the string. */
    predicate Valid() {
      offset <= |data|
    }

    /** `size()`: the number of unconsumed elements; it cannot underflow. */
    function Size(): (n: nat)
      requires Valid()
      ensures n <= |data|
      ensures n == 0 <==> offset == |data|
    {
      |data| - offset
    }

    /** `empty()`. */
    function Empty(): (e: bool)
      requires Valid()
      ensures e <==> offset == |data|
      ensures e <==> View() == []
    {
      Size() == 0
    }

    /** `data()`, as the index into `data_` of the first unconsumed element. */
    function Data(): (i: nat)
      requires Valid()
      ensures i + Size() == |data|
    {
      offset
    }

    /** `view()`: the window `{data(), size()}` over the unconsumed elements. */
    function View(): (r: seq<T>)
      requires Valid()
      ensures |r| == Size()
      ensures data == data[..offset] + r
    {
      data[offset..]
    }

    /** `front()`: undefined on an empty queue, hence the precondition. */
    function Front(): (x: T)
      requires Valid() && !Empty()
      ensures x == View()[0]
    {
      data[offset]
    }

    /** `back()`: the last element of `data_`, which needs only a non-empty
        string; once everything is consumed it is the last consumed element. */
    function Back(): (x: T)
      requires |data| > 0
      ensures x in data
      ensures Valid() && !Empty() ==> x == View()[Size() - 1]
      ensures Valid() && Empty() ==> x == data[offset - 1]
    {
      data[|data| - 1]
    }

    /** `push_back(value)`: appends to the string; the cursor stays. */
    function PushBack(v: T): (r: State<T>)
      requires Valid()
      ensures r.Valid() && r.offset == offset
      ensures r.data == data + [v] && r.Back() == v
      ensures r.Size() == Size() + 1
      ensures r.View() == View() + [v]
    {
      State(data + [v], offset)
    }

    /** `pop_front()`: `offset_ = min(offset_ + 1, size)`, a no-op when empty. */
    function PopFront(): (r: State<T>)
      requires Valid()
      ensures r.Valid() && r.data == data
      ensures !Empty() ==> r.Size() == Size() - 1 && r.View() == View()[1..]
      ensures Empty() ==> r == this
    {
      State(data, Min(offset + 1, |data|))
    }

    /** `unpop_front()`: steps the cursor back unless it is already at 0, which
        makes the most recently consumed element the front again. */
    function UnpopFront(): (r: State<T>)
      requires Valid()
      ensures r.Valid() && r.data == data
      ensures offset > 0 ==> r.Size() == Size() + 1 && r.View() == [data[offset - 1]] + View()
      ensures offset == 0 ==> r == this
    {
      if offset > 0 then State(data, offset - 1) else this
    }

    /** `unpop_all()`: every element still held becomes unconsumed again. */
    function UnpopAll(): (r: State<T>)
      requires Valid()
      ensures r.Valid() && r.data == data
      ensures r.View() == data && r.Size() == |data|
    {
      State(data, 0)
    }

    /** `clear()`: empties the string and resets the cursor, whatever the state. */
    function Clear(): (r: State<T>)
      ensures r.Valid() && r.Empty()
      ensures r.data == [] && r.View() == []
    {
      State([], 0)
    }
  }

  /** Popping and then unpopping gives back the same state exactly when the
      queue was not empty (or the string holds nothing at all). */
  lemma PopThenUnpop<T>(q: State<T>)
    requires q.Valid()
    ensures q.PopFront().UnpopFront() == q <==> !q.Empty() || q.data == []
  {
  }

  /** Unpopping and then popping gives back the same state exactly when
      something had been consumed (or the string holds nothing at all). */
  lemma UnpopThenPop<T>(q: State<T>)
    requires q.Valid()
    ensures q.UnpopFront().PopFront() == q <==> q.offset > 0 || q.data == []
  {
  }

  /** One step of a client. */
  function Step<T>(q: State<T>, op: Op<T>): (r: State<T>)
    requires q.Valid()
    ensures r.Valid()
  {
    match op
    case Push(v) => q.PushBack(v)
    case Pop => q.PopFront()
  }

  /** The state after performing `ops` in order on `q`. Nothing but a push
      changes the string, so it ends as the old string followed by the pushed values. */
  function Run<T>(q: State<T>, ops: seq<Op<T>>): (r: State<T>)
    requires q.Valid()
    ensures r.Valid()
    ensures r.data == q.data + Pushed(ops)
    decreases |ops|
  {
    if ops == [] then q
    else
      StepData(q, ops);
      Run(Step(q, ops[0]), ops[1..])
  }

  /** One step of Run appends what the step pushes. */
  lemma {:induction false} StepData<T>(q: State<T>, ops: seq<Op<T>>)
    requires q.Valid() && ops != []
    ensures Step(q, ops[0]).data + Pushed(ops[1..]) == q.data + Pushed(ops)
  {
    var rest := Pushed(ops[1..]);
    if ops[0].Push? {
      var v := ops[0].value;
      assert Pushed(ops) == [v] + rest;
      assert Step(q, ops[0]).data == q.data + [v];
      assert (q.data + [v]) + rest == q.data + ([v] + rest);
    } else {
      assert Pushed(ops) == rest;
      assert Step(q, ops[0]).data == q.data;
    }
  }

  /** Every pop of `ops` finds the queue non-empty, when it starts with `size` elements. */
  predicate PopsOnlyNonEmpty<T>(size: nat, ops: seq<Op<T>>)
    decreases |ops|
  {
    ops == [] ||
    match ops[0]
    case Push(_) => PopsOnlyNonEmpty(size + 1, ops[1..])
    case Pop => size > 0 && PopsOnlyNonEmpty(size - 1, ops[1..])
  }

  /** FIFO order: when no pop meets an empty queue, the unconsumed elements after
      `ops` are the old ones followed by the pushed ones, less as many from the
      front as there were pops. */
  lemma {:induction false} RunView<T>(q: State<T>, ops: seq<Op<T>>)
    requires q.Valid() && PopsOnlyNonEmpty(q.Size(), ops)
    ensures Pops(ops) <= q.Size() + |Pushed(ops)|
    ensures Run(q, ops).View() == (q.View() + Pushed(ops))[Pops(ops)..]
    decreases |ops|
  {
    if ops != [] {
      var rest := ops[1..];
      var q' := Step(q, ops[0]);
      RunView(q', rest);
      if ops[0].Push? {
        PushView(q, ops[0].value, rest);
      } else {
        PopView(q, rest);
      }
    }
  }

  /** The inductive step of RunView for a push. */
  lemma {:induction false} PushView<T>(q: State<T>, v: T, rest: seq<Op<T>>)
    requires q.Valid()
    ensures var ops := [Push(v)] + rest;
            Pushed(ops) == [v] + Pushed(rest) && Pops(ops) == Pops(rest) &&
            q.PushBack(v).View() + Pushed(rest) == q.View() + Pushed(ops)
  {
    var ops := [Push(v)] + rest;
    assert ops[1..] == rest;
  }

  /** The inductive step of RunView for a pop on a non-empty queue. */
  lemma {:induction false} PopView<T>(q: State<T>, rest: seq<Op<T>>)
    requires q.Valid() && !q.Empty()
    ensures var ops := [Pop] + rest;
            Pushed(ops) == Pushed(rest) && Pops(ops) == Pops(rest) + 1 &&
            forall k :: 0 <= k <= q.PopFront().Size() + |Pushed(rest)| ==>
              (q.PopFront().View() + Pushed(rest))[k..] == (q.View() + Pushed(ops))[k + 1..]
  {
    var ops: seq<Op<T>> := [Pop] + rest;
    assert ops[1..] == rest;
  }

  /** Size after pushes and pops: when no pop meets an empty queue, `size()`
      grows by one per push and shrinks by one per pop. */
  lemma {:induction false} RunSize<T>(q: State<T>, ops: seq<Op<T>>)
    requires q.Valid() && PopsOnlyNonEmpty(q.Size(), ops)
    ensures Run(q, ops).Size() == q.Size() + |Pushed(ops)| - Pops(ops)
  {
    RunView(q, ops);
  }

  /** Without the side condition the size law fails: a pop on an empty queue
      consumes nothing and is not remembered, so pop-then-push leaves one
      element although there was one push and one pop. */
  lemma PopOnEmptyIsLost<T>(v: T)
    ensures var ops := [Pop, Push(v)];
            Run(State([], 0), ops).Size() != |Pushed(ops)| - Pops(ops)
  {
    var ops := [Pop, Push(v)];
    assert Pushed(ops) == [v] by {
      assert Pushed(ops[1..]) == [v] + Pushed(ops[2..]);
    }
    assert Pops(ops) == 1 by {
      assert Pops(ops[1..]) == 0 + Pops(ops[2..]);
    }
    var r1 := Step(State([], 0), Pop);
    var r2 := Step(r1, Push(v));
    assert Run(State([], 0), ops) == Run(r1, ops[1..]);
    assert Run(r1, ops[1..]) == Run(r2, ops[2..]);
  }

  /** What a client observes by calling `front()` and `pop_front()` until the
      queue is empty: exactly the unconsumed elements, in order. */
  function Drain<T>(q: State<T>): (r: seq<T>)
    requires q.Valid()
    ensures r == q.View()
    decreases q.Size()
  {
    if q.Empty() then [] else [q.Front()] + Drain(q.PopFront())
  }

  /** `unpop_all()` after any pushes and pops re-exposes every element held
      since construction (or the last `clear()`), in the order they were pushed. */
  lemma {:induction false} UnpopAllReplaysHistory<T>(q: State<T>, ops: seq<Op<T>>)
    requires q.Valid()
    ensures Drain(Run(q, ops).UnpopAll()) == q.data + Pushed(ops)
    ensures Drain(Run(q.Clear(), ops).UnpopAll()) == Pushed(ops)
  {
    var r := Run(q, ops).UnpopAll();
    assert Drain(r) == r.View() == r.data;
    var c := Run(q.Clear(), ops).UnpopAll();
    assert Drain(c) == c.View() == c.data;
    assert c.data == [] + Pushed(ops);
  }

  /** The object: the string `data_` and the cursor `offset_`. */
  class BasicFifoString<T> {
    var data: seq<T>
    var offset: nat

    ghost function Model(): State<T>
      reads this
    {
      State(data, offset)
    }

    ghost predicate Valid()
      reads this
    {
      Model().Valid()
    }

    /** The forwarding constructor, given the initial contents of the string. */
    constructor (init: seq<T>)
      ensures Valid() && data == init && offset == 0
    {
      data := init;
      offset := 0;
    }

    method Data() returns (i: nat)
      requires Valid()
      ensures i == Model().Data()
    {
      i := offset;
    }

    method View() returns (s: seq<T>)
      requires Valid()
      ensures s == Model().View()
    {
      var n := Size();
      s := data[offset..offset + n];
    }

    method Front() returns (x: T)
      requires Valid() && offset < |data|
      ensures x == Model().Front()
    {
      x := data[offset];
    }

    method Back() returns (x: T)
      requires Valid() && |data| > 0
      ensures x == Model().Back()
    {
      x := data[|data| - 1];
    }

    method Size() returns (n: nat)
      requires Valid()
      ensures n == Model().Size()
    {
      n := |data| - offset;
    }

    method Empty() returns (e: bool)
      requires Valid()
      ensures e == Model().Empty()
    {
      var n := Size();
      e := n == 0;
    }

    method PushBack(v: T)
      requires Valid()
      modifies this
      ensures Valid() && Model() == old(Model()).PushBack(v)
    {
      data := data + [v];
    }

    method EmplaceBack(v: T)
      requires Valid()
      modifies this
      ensures Valid() && Model() == old(Model()).PushBack(v)
    {
      PushBack(v);
    }

    method PopFront()
      requires Valid()
      modifies this
      ensures Valid() && Model() == old(Model()).PopFront()
    {
      offset := Min(offset + 1, |data|);
    }

    method UnpopFront()
      requires Valid()
      modifies this
      ensures Valid() && Model() == old(Model()).UnpopFront()
    {
      if offset > 0 {
        offset := offset - 1;
      }
    }

    method UnpopAll()
      requires Valid()
      modifies this
      ensures Valid() && Model() == old(Model()).UnpopAll()
    {
      offset := 0;
    }

    method Clear()
      modifies this
      ensures Valid() && Model() == old(Model()).Clear()
    {
      data := [];
      offset := 0;
    }

    /** Member `swap`: exchanges the strings and the cursors (also when
        `other` is this very object). */
    method Swap(other: BasicFifoString<T>)
      modifies this, other
      ensures Model() == old(other.Model()) && other.Model() == old(Model())
    {
      var d, o := data, offset;
      data, offset := other.data, other.offset;
      other.data, other.offset := d, o;
    }
  }

  /** The free function `swap(lhs, rhs)`. */
  method Swap<T>(lhs: BasicFifoString<T>, rhs: BasicFifoString<T>)
    modifies lhs, rhs
    ensures lhs.Model() == old(rhs.Model()) && rhs.Model() == old(lhs.Model())
  {
    lhs.Swap(rhs);
  }

  /** Swapping twice restores both queues. */
  method SwapTwice<T>(a: BasicFifoString<T>, b: BasicFifoString<T>)
    modifies a, b
    ensures a.Model() == old(a.Model()) && b.Model() == old(b.Model())
  {
    Swap(a, b);
    a.Swap(b);
  }

  /** When the queue is not empty, `pop_front()` then `unpop_front()` restores
      the object, and with it `size()`, `front()` and `view()`. */
  method PopUnpopRestores<T>(q: BasicFifoString<T>)
    requires q.Valid() && q.offset < |q.data|
    modifies q
    ensures q.Model() == old(q.Model())
  {
    PopThenUnpop(q.Model());
    q.PopFront();
    q.UnpopFront();
  }

  /** The growable example: push 'a', 'b'; pop; push 'c'; unpop everything. */
  lemma GrowableExample()
    ensures var q1 := State("", 0).PushBack('a').PushBack('b');
            var q2 := q1.PopFront();
            var q3 := q2.PushBack('c');
            q1.View() == "ab" && q2.View() == "b" && q3.View() == "bc" &&
            q3.UnpopAll().View() == "abc"
  {
    assert State("", 0).PushBack('a').PushBack('b') == State("ab", 0);
    assert State("ab", 0).PopFront() == State("ab", 1);
    assert State("ab", 1).PushBack('c') == State("abc", 1);
  }
}
