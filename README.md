# fenz value types in Dafny

This project models four header-only value types of the fenz library and proves what their documentation promises.

- **`Queue<T, Capacity>`** (`queue.dfy`, module `CircularQueue`) is a bounded circular queue. It is a class over a fixed `array<Option<T>>` of slots with the source's three unsigned indices, `front`, `rear` and `count`. `Valid()` is the index invariant: `count <= Capacity`, `front, rear < Capacity`, `rear == (front + count) % Capacity`, and every live slot holds a value. `Contents()` reads the `count` live slots circularly from `front`, so it is the queue's abstract value, oldest element first. `enqueue`, `forceEnqueue` and `dequeue` are methods that update the fields and slots as the source does. Each method's contract gives the new fields and slots, and also the new `Contents()` as a plain sequence operation on the old one: append, evict-and-append, or drop the head. The lemmas `LiveAppend` and `LiveDrop` carry the modular-index reasoning. Three client methods walk through example scenarios (refusal when full, wrap-around, eviction), and their `ensures` state the outcomes.
- **`Option<T>`** (`option.dfy`, module `Optional`) is a datatype `None | Some(value)`. `hasValue`, `operator bool` and `valueOr` are functions on it. The members that assign the option in place are methods of `OptionCell<T>`, an object holding one `Option`: the copy constructor, `operator=` and `valueOrAssign`.
- **`Duration` / `Moment`** (`time.dfy`, module `Time`) are datatypes over a 64-bit `int64` newtype. Signed overflow is undefined behaviour in the source, so every arithmetic operator requires its exact result to fit in 64 bits. The compound assignments are methods of `DurationCell` and `MomentCell`, objects holding one variable. Each one is proved to leave the variable equal to the matching binary operator's result.
- **`Array` / `Iterable` / `ConstIterable`** (`array.dfy`, module `Arrays`) work as follows. A view is the datatype `(data, offset, len)` over a shared `array<T>`: the source's base pointer is `data + offset`, and its template size `N` is `len`. Every view requires `N > 0`, and the `static_assert` bounds checks become preconditions. A view shares storage with its base, so `WriteThroughView` proves that writing through `view<Start,End>().at<j>()` changes base element `Start + j` and nothing else. `enumerate` and `zip` are loops. Each returns the sequence of arguments its callback receives, in call order.

Where the documentation and the code differ, the model follows the code. `ConstIterable::zip` is documented as taking a two-argument callback (fenz/array.hpp:49). The code passes the index as a third argument (fenz/array.hpp:211), so `Arrays.ConstIterable.Zip` records triples. `Iterable::zip` records pairs.

## Model

| member | source | states |
|---|---|---|
| `Optional.Option.ToBool` | fenz/option.hpp:84-87 | `operator bool` equals `hasValue()`, and is false exactly for the empty Option |
| `Optional.ObservationalEquality` | fenz/option.hpp:76-110 | two Options are equal iff they agree on `hasValue()` and on `valueOr(f)` for every fallback `f`, so a copy cannot be told apart from its source |
| `Optional.ValueOrFallback` | fenz/option.hpp:104-110 | `valueOr` returns the held value whatever the fallback; on an empty Option it returns the fallback |
| `Optional.OptionCell.Empty` | fenz/option.hpp:22 | a default-constructed Option has no value |
| `Optional.OptionCell.Of` | fenz/option.hpp:26 | `Option(v)` has a value, equal to `v` |
| `Optional.OptionCell.Copy` | fenz/option.hpp:30-41 | the copy has the same presence as the source, and the same value when present |
| `Optional.OptionCell.Assign` | fenz/option.hpp:57-74 | after `a = b`, `a` has `b`'s presence, and `b`'s value when present; the result is `a` itself |
| `Optional.OptionCell.ValueOrAssign` | fenz/option.hpp:92-99 | afterwards the option holds the returned value; when empty it becomes `ifNone` and returns it; when present it is unchanged and returns its value |
| `CircularQueue.LiveAppend` | fenz/queue.hpp:33-35 | writing `item` at slot `(front + count) % Capacity` and advancing `rear` turns the live sequence into `old + [item]`, keeps `rear == (front + count) % Capacity`, and keeps every live slot present |
| `CircularQueue.LiveDrop` | fenz/queue.hpp:59-61 | slot `front` holds the oldest element; advancing `front` mod `Capacity` with one fewer element drops exactly the head and leaves `rear` consistent |
| `CircularQueue.Queue.constructor` | fenz/queue.hpp:22 | a new queue has `front = rear = count = 0`, all slots empty, and no elements |
| `CircularQueue.Queue.Size` | fenz/queue.hpp:67-70 | `size()` is the number of queued elements and never exceeds the capacity |
| `CircularQueue.Queue.Capacity` | fenz/queue.hpp:74-77 | `capacity()` is positive, fits an `unsigned int`, and bounds the contents |
| `CircularQueue.Queue.IsFull` | fenz/queue.hpp:81-84 | `isFull()` iff the number of elements equals the capacity |
| `CircularQueue.Queue.IsEmpty` | fenz/queue.hpp:88-91 | `isEmpty()` iff there are no elements |
| `CircularQueue.Queue.Enqueue` | fenz/queue.hpp:27-37 | keeps the invariant; on a full queue returns false and changes no field or slot; otherwise returns true, writes `item` at old `rear`, advances `rear` mod `Capacity`, increments `count`, and the contents become `old + [item]` |
| `CircularQueue.Queue.ForceEnqueue` | fenz/queue.hpp:41-49 | keeps the invariant and never fails; on a full queue the contents go from `[x0..xN-1]` to `[x1..xN-1, item]` with `count` still `Capacity`; otherwise it acts as `enqueue` |
| `CircularQueue.Queue.Dequeue` | fenz/queue.hpp:53-63 | keeps the invariant and writes no slot; on an empty queue returns an empty Option and changes nothing; otherwise returns the Option at old `front`, which holds the oldest element, advances `front` and drops the head of the contents |
| `CircularQueue.RefusesWhenFull` | fenz/queue.hpp:27-63 | capacity 2: `enqueue(10)`, `enqueue(20)` succeed with sizes 1, 2 and full; `enqueue(30)` is refused with size 2; dequeues give 10, 20, then empty |
| `CircularQueue.WrapsAround` | fenz/queue.hpp:27-63 | capacity 3: after `1,2,3`, a dequeue (1) and `enqueue(4)`, the rest come out as `2, 3, 4` (FIFO across the wrap) |
| `CircularQueue.EvictsOldest` | fenz/queue.hpp:41-63 | capacity 3: force-enqueuing `1,2,3,4` evicts 1, size stays 3, and dequeues give `2, 3, 4` |
| `Time.Duration.FromMillis` | fenz/time.hpp:41-44 | `fromMillis(ms).millis() == ms` |
| `Time.MillisRoundTrip` | fenz/time.hpp:20-44 | `millis` and `fromMillis` are inverse to each other, both ways round |
| `Time.DurationArithmetic` | fenz/time.hpp:166-187 | Duration `+`, `-`, `*` give the integer sum, difference and product of the millisecond counts, when that result is in 64-bit range |
| `Time.DurationTimesLaws` | fenz/time.hpp:184-187 | Duration `*` by 1 is the identity, by 0 gives the zero Duration, and distributes over `+` when every intermediate result is in 64-bit range |
| `Time.DurationPlusMinus` | fenz/time.hpp:166-178 | Duration `+` is commutative and undone by `-` |
| `Time.MomentRoundTrip` | fenz/time.hpp:139-160 | `(m + d) - m == d` and `(m + d) - d == m` |
| `Time.MomentMinusPlus` | fenz/time.hpp:139-160 | `(m - d) + d == m` and `m - (m - d) == d` |
| `Time.SinceSign` | fenz/time.hpp:134-142 | `lhs - rhs` of two Moments is negative iff `lhs < rhs` and zero iff they are equal, and `rhs + (lhs - rhs) == lhs` |
| `Time.MomentOrder` | fenz/time.hpp:193-228 | the Moment comparisons agree with comparison of `value`; `==` is equality; `<=` is `!(>)`, `>=` is `!(<)`, `>` is the converse of `<`; `<=` is a total order |
| `Time.DurationOrder` | fenz/time.hpp:234-269 | the same laws for the Duration comparisons |
| `Time.DurationCell.AddAssign` | fenz/time.hpp:57-61 | `d += e` leaves `d` equal to `old(d) + e` and returns `d` itself |
| `Time.DurationCell.SubAssign` | fenz/time.hpp:66-70 | `d -= e` leaves `d` equal to `old(d) - e` and returns `d` itself |
| `Time.DurationCell.MulAssign` | fenz/time.hpp:75-79 | `d *= k` leaves `d` equal to `old(d) * k` and returns `d` itself |
| `Time.MomentCell.AddAssign` | fenz/time.hpp:118-122 | `m += d` leaves `m` equal to `old(m) + d` and returns `m` itself |
| `Time.MomentCell.SubAssign` | fenz/time.hpp:127-131 | `m -= d` leaves `m` equal to `old(m) - d` and returns `m` itself |
| `Arrays.Iterable.At` | fenz/array.hpp:230-244 | `at<i>()` with `0 <= i < N` is element `i` of the view |
| `Arrays.Iterable.AtAssign` | fenz/array.hpp:230-236 | assigning through the reference from `at<i>()` changes element `offset + i` of the underlying array and nothing else |
| `Arrays.Iterable.View` | fenz/array.hpp:286-294 | for `0 <= Start`, `End <= N`, `End > Start`, the view has length `End - Start`, shares the base's array, and its element `j` is base element `Start + j` |
| `Arrays.Iterable.ConstView` | fenz/array.hpp:296-304 | the same window as `view`, read-only |
| `Arrays.Iterable.Enumerate` | fenz/array.hpp:246-264 | the callback is called exactly `N` times, the `i`-th time with `(element i, i)` |
| `Arrays.Iterable.Zip` | fenz/array.hpp:266-284 | the callback is called exactly `N` times, the `i`-th time with `(this[i], other[i])` |
| `Arrays.ConstIterable.FromIterable` | fenz/array.hpp:182-185 | the converted view has the same array, length and element at every index |
| `Arrays.ConstIterable.At` | fenz/array.hpp:187-193 | `at<i>()` with `0 <= i < N` is element `i` of the view |
| `Arrays.ConstIterable.ConstView` | fenz/array.hpp:215-223 | the sub-view has length `End - Start`, shares storage, and shows base elements `Start .. End-1` |
| `Arrays.ConstIterable.Enumerate` | fenz/array.hpp:195-203 | the callback is called exactly `N` times, the `i`-th time with `(element i, i)` |
| `Arrays.ConstIterable.Zip` | fenz/array.hpp:205-213 | the callback is called exactly `N` times, the `i`-th time with `(this[i], other[i], i)` |
| `Arrays.Array.constructor` | fenz/array.hpp:306-314 | all `N` elements of the new array equal `defaultValue`, and its storage is new |
| `Arrays.Array.AsIterable` | fenz/array.hpp:306-309 | the Array's Iterable base is a view of all of its own storage |
| `Arrays.WriteThroughView` | fenz/array.hpp:286-294 | a view is not a copy: writing `x` through `view<Start,End>().at<j>()` sets base element `Start + j` to `x` and leaves every other cell of the underlying array unchanged, inside the base view and outside it |

## Left out

- `Moment::now()` and `fenzTimeSource()` (fenz/time.hpp:6, 97-100) read a clock that the embedding application supplies. The model has no clock; Moments are built from their millisecond value, as the private `Moment::fromMillis` does.
- `Duration::seconds()` and `Duration::fromSeconds()` (fenz/time.hpp:27-30, 48-51) convert through floating point, which is not modelled.
- Object lifetimes in `Option` are not modelled: the anonymous union, the destructor and the explicit `value_.~T()` calls. The held value is a plain value. So the model cannot show the source copying into a union member that is not constructed, or already destroyed. It also cannot show self-assignment `a = a` on a present Option, where the source destroys the value before it copies it. For a trivially destructible `T` none of these is observable.
- `Optional.OptionCell.ValueOrAssign` returns the held value, not a reference into the option, so writes through that reference are not modelled. `Option::valueOr` and the queue's `dequeue` likewise return values.
- `begin()` / `end()` range-for support (fenz/array.hpp:55-56, 130-133) is covered by the `(data, offset, len)` view and is not modelled separately.
- The deleted copy constructor and copy assignment of `Array` (fenz/array.hpp:169-170) are a compile-time restriction with no behaviour.
- What `enumerate` and `zip` callbacks do is not modelled, including writes through the references they receive; only the calls and their arguments are. The const and non-const overloads of `Iterable::enumerate` and `Iterable::zip` behave the same and are modelled once.
- The `Iterable(T*)` and `ConstIterable(const T*)` pointer constructors are the datatype constructors. Their "at least N elements" assumption is each view's `Valid()`.
- `Capacity == 0` would divide by zero at fenz/queue.hpp:34; the queue constructor requires `0 < capacity`. The template parameter `Capacity` becomes a constructor argument and the length of the slot array.
- `unsigned int` arithmetic on the queue indices never wraps, because each index stays below `Capacity <= 2^32 - 1`. The model therefore uses unbounded naturals, bounded by `Valid()`.
- Concurrency: none; the source provides no synchronisation.
