# iter_accumulate in Dafny

A model of the `iter_accumulate` crate. The crate's only component is the
`Accumulate` iterator adaptor: a running fold, or prefix scan. It wraps a base
iterator, an accumulator and a combining closure `f`. Each `next` pulls one
element from the base, overwrites the accumulator with `f(acc, item)` and
yields the new accumulator. `size_hint` and `count` delegate to the base, and
the extension trait `IterAccumulate` provides the `accumulate(init, f)`
constructor.

Files:

- `wrappers.dfy` (module `Wrappers`): the `Option` type `next` returns.
- `fold.dfy` (module `Fold`): the pure specification. `FoldLeft` is what
  `Iterator::fold` returns, applying `f` strictly left to right. `Scan` is the
  sequence of running folds. The lemmas relate the two.
- `accumulate.dfy` (module `IterAccumulate`): the adaptor itself.
  - The base iterator is `SeqIter`, a value holding the elements it has not
    yielded yet, like a slice iterator. The adaptor stores it in a field that
    `Next` overwrites.
  - `Accumulate` is a class with the fields `iter`, `acc` and `f`. Its ghost
    fields `init`, `source` and `consumed` record what it was built from and
    what it has pulled since.
  - `Valid()` is the class invariant. It says the stored accumulator is the
    left fold of `init` over every element pulled so far.
  - `Pending()` is the sequence of values the adaptor will still yield, and
    `Yielded()` the values it has yielded.
  - `Collect`, `DocExample`, `EmptyExample` and `AppendExample` are clients.
    They state the crate's documented behaviour on whole runs.

The closure is a pure Dafny function of type `(B, T) -> B`.

## Model

| member | source | states |
|---|---|---|
| `Fold.FoldLeftSnoc` | src/lib.rs:80-82 | Combining one more pulled element into the fold of the earlier ones gives the fold of the longer prefix. This is why overwriting `acc` with `f(acc, item)` keeps `acc` equal to the fold of everything pulled. |
| `Fold.ScanLength` | src/lib.rs:78-86 | A running fold yields exactly one value per element of the base. |
| `Fold.ScanAt` | src/lib.rs:7-10 | The k-th value yielded is the left fold of `init` over the first k+1 elements. |
| `Fold.ScanLastIsFold` | src/lib.rs:7-10 | Over a non-empty base, the last value yielded equals what `fold` with the same initial value and closure returns. |
| `Fold.ScanAppend` | src/lib.rs:78-86 | The running fold of a concatenation is the running fold of the first part, followed by the running fold of the second part started from the first part's fold. So the adaptor can stop and resume between elements. |
| `IterAccumulate.SeqIter.Accumulate` | src/lib.rs:107-114 | `accumulate(init, f)` returns a fresh adaptor holding the base unchanged, `acc == init` and the closure `f`. Nothing has been pulled or yielded, and the values to come are the running fold of the whole base. |
| `IterAccumulate.Accumulate.constructor` | src/lib.rs:51-53 | `new` stores the base, the initial accumulator and the closure as given, without pulling from the base or calling `f`. |
| `IterAccumulate.Accumulate.Outputs` | src/lib.rs:7-10 | At any point, the values yielded so far followed by the values still to come are exactly the running fold of the base as it stood at construction. |
| `IterAccumulate.Accumulate.Next` | src/lib.rs:78-86 | Pulls the base exactly once. If the base yields an item, `acc` becomes `f(old acc, item)` and the result is `Some` of that same new `acc`, which is the fold of `init` over everything pulled. If the base is exhausted, the result is `None` and `acc` is unchanged. The result is `None` exactly when no values were pending, and otherwise it is the head of the pending values. The invariant is kept. |
| `IterAccumulate.Accumulate.SizeHint` | src/lib.rs:89-91 | The result is the base's own size hint. It is exact: both bounds equal the number of values still to be yielded. |
| `IterAccumulate.Accumulate.Count` | src/lib.rs:94-96 | The result is the base's own count, obtained without calling `f`. It equals the number of values still to be yielded. |
| `IterAccumulate.Collect` | src/lib.rs:7-10 | Calling `next` on a fresh adaptor until it returns `None` yields the running fold of the base: one value per element, the last being the `fold` of the base. |
| `IterAccumulate.DocExample` | src/lib.rs:21-29 | Base `[1, 2, 3, 4, 5]`, initial value `1` and multiplication yield `1, 2, 6, 24, 120`, then `None`. |
| `IterAccumulate.EmptyExample` | src/lib.rs:51-53 | Over an empty base, the first `next` returns `None`. The initial value is never yielded and the accumulator stays `init`. |
| `IterAccumulate.AppendExample` | src/lib.rs:78-86 | A non-commutative closure, string append, is applied in pull order: base `["a", "b", "c"]` from `""` yields `"a", "ab", "abc"`, then `None`. |

## Left out

- The `fmt::Debug` implementation (src/lib.rs:56-67) is formatting plumbing with no behaviour to prove.
- The crate attributes `no_std`, `warn(missing_docs)`, `must_use`, `inline` and `derive(Clone)` have no behaviour.
- The `B: Copy` bound and ownership have no counterpart, because Dafny values are freely copied. `count` consumes the adaptor in Rust; here `Count` leaves it unchanged, and nothing may use it afterwards in Rust anyway.
- The closure is a pure function. A Rust `FnMut` may carry internal state that changes on every call; the model does not capture that. It also cannot say literally that `f` is "not called" by `size_hint`, `count` or an exhausted `next`. Instead it states that the accumulator is unchanged.
- Arbitrary base iterators are not modelled, only one whose size hint is exact and whose count is the number of elements left, as for a slice iterator. An inexact `size_hint` or an optimised `count` of another base would be passed through unchanged in the same way.
- Behaviour after the base first returns `None` is unspecified by the crate and the adaptor is not fused. The modelled base keeps returning `None`, but no fusing property is claimed for the adaptor.
- `usize` width is not modelled: size hints and counts are unbounded naturals. A slice iterator never has more than `usize::MAX` elements.
