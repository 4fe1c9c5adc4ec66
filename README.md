# FIFO adapters of dmitigr que, in Dafny

This project models the two container adapters of the `dmitigr::que` library.
Both give a FIFO interface (`push_back`, `front`, `back`, `pop_front`, `size`,
`empty`) over a buffer. Neither ever erases a consumed element: popping moves an
integer cursor forward, and `unpop_front` / `unpop_all` move it back.

- `Basic_fifo_string<CharT>` (`fifo_string.hpp`) is the growable variant. Its
  state is the string `data_`, which only grows until `clear()`, and the cursor
  `offset_`. Module `FifoString`, file `fifo_string.dfy`.
- `Fifo_array<T, N>` (`fifo_array.hpp`) is the fixed-capacity variant. Its state
  is the `N`-slot array `data_` and two cursors: `pop_offset_` (consumed) and
  `push_offset_` (produced). Module `FifoArray`, file `fifo_array.dfy`.

Each module has the same three layers:

1. A datatype `State` holds the value of one object. Its member functions define
   every operation on values, each with a contract about the result. Examples:
   `pop_front` on an empty growable queue is a no-op; `push_back` appends to the
   unconsumed elements (`View` / `Contents`); `clear()` leaves the queue empty.
2. A class (`BasicFifoString`, `FifoArray`) holds the source's fields. For the
   fixed-capacity variant the slots are an `array`. Every class method changes
   the fields in place and is proved to produce exactly the state the matching
   `State` function gives.
3. Lemmas relate several calls. They cover pop/unpop inverse laws (both
   directions of the if-and-only-if), size and FIFO-order laws for whole
   push/pop traces (`Run`, by induction), and `Drain`. `Drain` is what a client
   sees by calling `front()`/`pop_front()` until the queue is empty, and it is
   proved equal to the unconsumed elements. Further lemmas show that
   `unpop_all()` replays the history and that swapping twice restores both
   objects.

`size_type` is taken to be 64 bits wide (module `SizeType`). `Sub` models
`size()`'s unsigned subtraction, which wraps modulo 2^64. `FifoOps` is a client
trace of pushes and pops. `SeqFacts` holds two slice facts used by the proofs.

### The clamp in `Fifo_array::pop_front`

`Fifo_array::pop_front` sets `pop_offset_ = min(pop_offset_ + 1, N)`. It clamps
against the capacity `N`, not against `push_offset_`, and the model reproduces
this exactly. So `pop_offset_ <= push_offset_` (called `Ordered` here) is the
intended invariant, but operations do not preserve it.

- `PopFrontKeepsOrder`: a pop keeps `Ordered` exactly when the queue was not
  empty, or the consumed cursor was already at `N`.
- `PopEmptyOverConsumes`: popping an empty queue below capacity breaks
  `Ordered`. `size()` then wraps to 2^64 − 1 and `empty()` becomes false.
- `PushOncePopTwice`: push one element and pop twice. With N ≥ 2, `size()` ends
  at 2^64 − 1. With N = 1, the clamp keeps the queue empty.
- `OverConsumedStaysNonEmpty`: once `pop_offset_` has passed `push_offset_`,
  `pop_front()` keeps it past and `empty()` stays false, so a client popping
  until `empty()` never stops; `Drain` is therefore stated for ordered cursors.

A consequence: in the fixed variant a pop on an empty queue is not lost. It
consumes the next element pushed. So the law "k pushes and j ≤ k pops give
`size() == k − j`" holds for every interleaving that fits the capacity
(`FifoArray.RunSize`). The growable variant clamps against the string length,
so a pop on an empty queue does nothing. There, the same law holds only when no
pop meets an empty queue (`FifoString.RunSize`). `FifoString.PopOnEmptyIsLost`
shows that pop-then-push leaves size 1, not 0, so in the growable variant the
law does not hold for every interleaving.

## Model

| member | source | states |
|---|---|---|
| SizeType.Sub | fifo_array.hpp:98-101 | `size_type` subtraction: `a - b` when `b <= a`, `2^64 - (b - a)` otherwise; zero exactly when `a == b` |
| SizeType.Min | fifo_string.hpp:96 | `std::min`: a lower bound of both arguments and equal to one of them |
| FifoString.State.Size | fifo_string.hpp:109-112 | `size()` is a natural number at most the string length (it cannot underflow) and is 0 exactly when `offset_` is at the end |
| FifoString.State.Empty | fifo_string.hpp:114-117 | `empty()` holds iff `offset_ == |data_|`, iff the view is empty |
| FifoString.State.Data | fifo_string.hpp:51-54 | `data()` is the index `offset_`; from there `size()` elements reach the end of the string |
| FifoString.State.View | fifo_string.hpp:46-49 | `view()` has `size()` elements and is the suffix of `data_` after the consumed prefix |
| FifoString.State.Front | fifo_string.hpp:73-76 | `front()` on a non-empty queue is the first element of the view |
| FifoString.State.Back | fifo_string.hpp:62-65 | `back()` needs only a non-empty string; it is an element of the string; when the queue is not empty it is the last element of the view, and when everything is consumed it is the last consumed element |
| FifoString.State.PushBack | fifo_string.hpp:84-87 | appends `v` to `data_`, keeps `offset_`, makes `back() == v`, raises `size()` by 1 and appends `v` to the view |
| FifoString.State.PopFront | fifo_string.hpp:94-97 | keeps `offset_ <= |data_|` and `data_`; on a non-empty queue drops the first element of the view and lowers `size()` by 1; on an empty queue changes nothing |
| FifoString.State.UnpopFront | fifo_string.hpp:99-102 | keeps `data_` and the invariant; when something was consumed the last consumed element becomes the front again and `size()` grows by 1; otherwise nothing changes |
| FifoString.State.UnpopAll | fifo_string.hpp:104-107 | keeps `data_`; the view becomes the whole string |
| FifoString.State.Clear | fifo_string.hpp:119-123 | whatever the prior state: the string is empty, the queue is empty, the view is empty |
| FifoString.PopThenUnpop | fifo_string.hpp:94-102 | `unpop_front()` after `pop_front()` restores the state iff the queue was not empty or the string is empty |
| FifoString.UnpopThenPop | fifo_string.hpp:94-102 | `pop_front()` after `unpop_front()` restores the state iff `offset_ > 0` or the string is empty |
| FifoString.Run | fifo_string.hpp:84-97 | after any pushes and pops the invariant holds and the string is the old string followed by the pushed values |
| FifoString.RunView | fifo_string.hpp:84-97 | when no pop meets an empty queue, the view after a trace is (old view + pushed values) less as many front elements as there were pops |
| FifoString.RunSize | fifo_string.hpp:84-97 | when no pop meets an empty queue, `size()` after k pushes and j pops is the old size + k − j |
| FifoString.PopOnEmptyIsLost | fifo_string.hpp:94-97 | pop-then-push on an empty queue leaves `size() == 1`, not pushes − pops |
| FifoString.Drain | fifo_string.hpp:73-97 | calling `front()` and `pop_front()` until `empty()` yields exactly the view, in order |
| FifoString.UnpopAllReplaysHistory | fifo_string.hpp:104-107 | after any trace, `unpop_all()` then draining yields every element held since construction plus the pushed ones; after a `clear()`, exactly the pushed ones |
| FifoString.GrowableExample | fifo_string.hpp:84-107 | push 'a','b' gives view "ab"; pop gives "b"; push 'c' gives "bc"; `unpop_all()` gives "abc" |
| FifoString.BasicFifoString.constructor | fifo_string.hpp:41-44 | the string starts as the given contents and `offset_` as 0 |
| FifoString.BasicFifoString.Data | fifo_string.hpp:51-54 | returns the value-level `data()` index |
| FifoString.BasicFifoString.View | fifo_string.hpp:46-49 | returns the value-level view of the object |
| FifoString.BasicFifoString.Front | fifo_string.hpp:73-76 | returns the value-level `front()` |
| FifoString.BasicFifoString.Back | fifo_string.hpp:62-65 | returns the value-level `back()` |
| FifoString.BasicFifoString.Size | fifo_string.hpp:109-112 | returns the value-level `size()` |
| FifoString.BasicFifoString.Empty | fifo_string.hpp:114-117 | returns the value-level `empty()` |
| FifoString.BasicFifoString.PushBack | fifo_string.hpp:84-87 | the new fields are those of `State.PushBack` of the old ones |
| FifoString.BasicFifoString.EmplaceBack | fifo_string.hpp:89-92 | same new state as `push_back` |
| FifoString.BasicFifoString.PopFront | fifo_string.hpp:94-97 | the new fields are those of `State.PopFront` of the old ones |
| FifoString.BasicFifoString.UnpopFront | fifo_string.hpp:99-102 | the new fields are those of `State.UnpopFront` of the old ones |
| FifoString.BasicFifoString.UnpopAll | fifo_string.hpp:104-107 | the new fields are those of `State.UnpopAll` of the old ones |
| FifoString.BasicFifoString.Clear | fifo_string.hpp:119-123 | the new fields are those of `State.Clear` |
| FifoString.BasicFifoString.Swap | fifo_string.hpp:125-130 | exchanges string and cursor between the two objects, also for a self-swap |
| FifoString.Swap | fifo_string.hpp:137-144 | the free `swap` exchanges the two objects' states |
| FifoString.SwapTwice | fifo_string.hpp:125-144 | swapping twice restores both objects |
| FifoString.PopUnpopRestores | fifo_string.hpp:94-102 | on a non-empty object, `pop_front()` then `unpop_front()` restores every field |
| FifoArray.State.Contents | fifo_array.hpp:63-66 | under the intended invariant, the unconsumed elements number `push_offset_ − pop_offset_` |
| FifoArray.State.Size | fifo_array.hpp:98-101 | `size()` is a `size_type`; with ordered cursors it is the number of unconsumed elements, otherwise the wrapped value `2^64 − (pop_offset_ − push_offset_)` |
| FifoArray.State.Empty | fifo_array.hpp:103-106 | `empty()` holds iff the cursors are equal (an over-consumed queue is not empty); with ordered cursors iff nothing is unconsumed |
| FifoArray.State.Data | fifo_array.hpp:43-46 | `data()` is an index at most N; with ordered cursors, `size()` elements from it reach `push_offset_` |
| FifoArray.State.Front | fifo_array.hpp:63-66 | reads the slot at `pop_offset_`; on an ordered non-empty queue it is the first unconsumed element |
| FifoArray.State.Back | fifo_array.hpp:53-56 | reads the slot at `push_offset_ − 1`; on an ordered non-empty queue it is the last unconsumed element |
| FifoArray.State.PushBack | fifo_array.hpp:73-76 | needs `push_offset_ < N`; writes `v` into slot `push_offset_` (so `back() == v`), advances only `push_offset_`, changes no other slot; with ordered cursors appends `v` and raises `size()` by 1 |
| FifoArray.State.PopFront | fifo_array.hpp:83-86 | keeps both cursors at most N, the slots and `push_offset_`; advances `pop_offset_` below N, is a no-op at N; on an ordered non-empty queue drops the front element |
| FifoArray.State.UnpopFront | fifo_array.hpp:88-91 | keeps slots and `push_offset_` and the intended invariant; whenever `pop_offset_ > 0` it decrements `pop_offset_` (ordered or not), which on ordered cursors re-exposes the last consumed slot; at 0 it changes nothing |
| FifoArray.State.UnpopAll | fifo_array.hpp:93-96 | changes only `pop_offset_`; the unconsumed elements become every slot below `push_offset_` |
| FifoArray.State.Clear | fifo_array.hpp:108-111 | zeroes both cursors, so the queue is ordered and empty, and leaves every slot unchanged |
| FifoArray.PopThenUnpop | fifo_array.hpp:83-91 | `unpop_front()` after `pop_front()` restores the state iff `pop_offset_ < N` or N = 0; in particular on every ordered non-empty queue |
| FifoArray.UnpopThenPop | fifo_array.hpp:83-91 | `pop_front()` after `unpop_front()` restores the state iff `pop_offset_ > 0` or N = 0 |
| FifoArray.PopFrontKeepsOrder | fifo_array.hpp:83-86 | from ordered cursors, `pop_front()` keeps them ordered iff `pop_offset_ < push_offset_` or `pop_offset_ == N` |
| FifoArray.PopEmptyOverConsumes | fifo_array.hpp:83-101 | popping an empty queue below capacity puts `pop_offset_` past `push_offset_`; `size()` wraps to 2^64 − 1 and `empty()` is false |
| FifoArray.PushOncePopTwice | fifo_array.hpp:73-111 | after `clear()`, one push and two pops give `size() == 2^64 − 1` when N ≥ 2 and an empty queue when N = 1 |
| FifoArray.OverConsumedStaysNonEmpty | fifo_array.hpp:83-106 | when `pop_offset_ > push_offset_`, `pop_front()` keeps the cursors out of order and `empty()` false |
| FifoArray.Run | fifo_array.hpp:73-86 | a trace that fits the capacity advances `push_offset_` by the pushes and leaves `pop_offset_` at `min(pop_offset_ + pops, N)`, whatever the interleaving |
| FifoArray.RunWrites | fifo_array.hpp:73-76 | a trace leaves the slots below the old `push_offset_` untouched and fills the following slots with the pushed values, in order |
| FifoArray.RunSize | fifo_array.hpp:73-101 | for any interleaving that fits the capacity with no more pops than elements available, the cursors stay ordered and `size()` is the old size + k − j |
| FifoArray.RunContents | fifo_array.hpp:73-101 | under the same conditions the unconsumed elements are (old ones + pushed ones) less as many front elements as there were pops |
| FifoArray.Drain | fifo_array.hpp:63-106 | calling `front()` and `pop_front()` until `empty()` on an ordered queue yields exactly the unconsumed elements, in order |
| FifoArray.UnpopAllReplaysHistory | fifo_array.hpp:93-111 | after `clear()` and a trace that fits, `unpop_all()` then draining yields exactly the pushed values, in order |
| FifoArray.FixedCapacityExample | fifo_array.hpp:53-111 | N = 4: push 10, 20, 30 gives size 3, front 10, back 30; pop gives size 2, front 20; unpop gives size 3, front 10; clear gives size 0 |
| FifoArray.FifoArray.constructor | fifo_array.hpp:40-41 | a fresh N-slot array with both cursors at 0 |
| FifoArray.FifoArray.Data | fifo_array.hpp:43-46 | returns the value-level `data()` index |
| FifoArray.FifoArray.Front | fifo_array.hpp:63-66 | returns the value-level `front()` |
| FifoArray.FifoArray.Back | fifo_array.hpp:53-56 | returns the value-level `back()` |
| FifoArray.FifoArray.Size | fifo_array.hpp:98-101 | computes `push_offset_ − pop_offset_` in `size_type`, equal to the value-level `size()` |
| FifoArray.FifoArray.Empty | fifo_array.hpp:103-106 | returns the value-level `empty()` |
| FifoArray.FifoArray.PushBack | fifo_array.hpp:73-76 | writes the slot in place; the new array contents and cursors are those of `State.PushBack` |
| FifoArray.FifoArray.EmplaceBack | fifo_array.hpp:78-81 | same new state as `push_back` |
| FifoArray.FifoArray.PopFront | fifo_array.hpp:83-86 | the new cursors are those of `State.PopFront`; the array is untouched |
| FifoArray.FifoArray.UnpopFront | fifo_array.hpp:88-91 | the new cursors are those of `State.UnpopFront` |
| FifoArray.FifoArray.UnpopAll | fifo_array.hpp:93-96 | the new cursors are those of `State.UnpopAll` |
| FifoArray.FifoArray.Clear | fifo_array.hpp:108-111 | both cursors 0 as in `State.Clear`; the array is untouched |
| FifoArray.FifoArray.Swap | fifo_array.hpp:113-119 | exchanges storage and both cursors between the two objects, also for a self-swap |
| FifoArray.Swap | fifo_array.hpp:128-132 | the free `swap` exchanges the two objects' states |
| FifoArray.SwapTwice | fifo_array.hpp:113-132 | swapping twice restores both objects |
| FifoArray.PopUnpopRestores | fifo_array.hpp:83-91 | on an ordered non-empty object, `pop_front()` then `unpop_front()` restores every field |

## Left out

- The `Traits` and `Allocator` template parameters of `Basic_fifo_string` are
  not modelled. The forwarding constructor takes the initial contents of the
  string instead of arbitrary constructor arguments.
- The const and non-const overloads of `data()`, `front()` and `back()`, and
  their `const_cast` plumbing, are not modelled. `data()` is modelled as the
  index of the first unconsumed element. References are modelled as the values
  they refer to, so writing through them is not modelled.
- The `string_view` returned by `view()` is modelled as a sequence value. Its
  lifetime and its invalidation by reallocation are memory-safety matters,
  outside a value model.
- Allocation failure and `length_error` in `std::basic_string::push_back` are
  not modelled. Neither is the `max_size()` bound on the string, so the string's
  cursor and length are unbounded naturals. Under the proved invariant
  `offset_ <= size`, `size()` never underflows, so the width of `size_type`
  does not matter there.
- `FifoArray.State.Valid` requires N + 1 to fit in `size_type`. With N equal to
  2^64 − 1, `pop_offset_ + 1` would wrap. No such array fits in a 64-bit
  address space.
- `FifoArray.FifoArray.Swap` exchanges the two array references, not the slot
  contents element by element. The resulting object values are the same. The
  model does not describe two objects sharing one array, which the source's
  value semantics rules out.
- The default constructor of `Fifo_array` leaves the slots with the element
  type's default initialisation. The constructor's contract says nothing about
  their values, and the lemmas hold for any slot contents.
- Copying and moving the objects, `constexpr` and `noexcept`, the
  `Fifo_string` alias (in this model it is `BasicFifoString<char>`), and use as
  the container of `std::queue` are not modelled.
- The two worked examples (`GrowableExample`, `FixedCapacityExample`) are
  stated on `State` values, not through object calls.
