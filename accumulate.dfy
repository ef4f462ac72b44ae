/**
  The `Accumulate` iterator adaptor of the iter_accumulate crate: a running
  fold over a base iterator. Every successful `Next` pulls one element from the
  base, overwrites the stored accumulator with `f(acc, item)` and yields the new
  accumulator, so the values yielded are the prefix scan of the base and the
  last of them is what `Iterator::fold` would have returned.
 */
module IterAccumulate {

  import opened Wrappers
  import opened Fold

  /**
    The base iterator, taken to be a slice iterator: a value holding the
    elements it has not yet yielded. Its size hint is exact and its count is
    the number of elements left.
   */
  datatype SeqIter<T> = SeqIter(rest: seq<T>) {

    /** Pulls one element: the first one left, or None once none is left. */
    function Next(): (r: (Option<T>, SeqIter<T>))
      ensures r.0 == None <==> rest == []
      ensures r.0.Some? ==> [r.0.value] + r.1.rest == rest
      ensures r.0 == None ==> r.1 == this
    {
      if rest == [] then (None, this) else (Some(rest[0]), SeqIter(rest[1..]))
    }

    function SizeHint(): (nat, Option<nat>)
    {
      (|rest|, Some(|rest|))
    }

    function Count(): nat
    {
      |rest|
    }

    /** The extension method `IterAccumulate::accumulate`: wraps this base
        iterator, without pulling from it and without calling `f`. */
    method Accumulate<B>(init: B, f: (B, T) -> B) returns (a: Accumulate<T, B>)
      ensures fresh(a) && a.Valid()
      ensures a.iter == this && a.acc == init && a.f == f
      ensures a.init == init && a.source == rest && a.consumed == []
      ensures a.Yielded() == [] && a.Pending() == Scan(f, init, rest)
    {
      a := new Accumulate(this, init, f);
    }
  }

  /**
    The adaptor. `iter` and `acc` are overwritten by `Next`; `f` never changes.
    The ghost fields record what the adaptor was built from (`init`, and
    `source`, the elements the base still held then) and which elements it has
    pulled since (`consumed`).
   */
  class Accumulate<T, B> {
    var iter: SeqIter<T>
    var acc: B
    const f: (B, T) -> B

    ghost const init: B
    ghost const source: seq<T>
    ghost var consumed: seq<T>

    /** The stored accumulator is the left fold of `init` over every element
        pulled from the base so far, and those elements are a prefix of what
        the base held at construction. */
    ghost predicate Valid()
      reads this
    {
      consumed + iter.rest == source &&
      acc == FoldLeft(f, init, consumed)
    }

    /** The values yielded so far, in order. */
    ghost function Yielded(): seq<B>
      reads this
    {
      Scan(f, init, consumed)
    }

    /** The values still to be yielded, in order. */
    ghost function Pending(): seq<B>
      reads this
    {
      Scan(f, acc, iter.rest)
    }

    /** `Accumulate::new`: stores the base, the initial value and the closure
        as they are. */
    constructor (iter: SeqIter<T>, init: B, f: (B, T) -> B)
      ensures Valid()
      ensures this.iter == iter && acc == init && this.f == f
      ensures this.init == init && source == iter.rest && consumed == []
      ensures Yielded() == [] && Pending() == Scan(f, init, iter.rest)
    {
      this.iter := iter;
      acc := init;
      this.f := f;
      this.init := init;
      source := iter.rest;
      consumed := [];
    }

    /** Whatever has been pulled, the values yielded so far followed by the
        values still to come are the running fold of the whole base. */
    lemma Outputs()
      requires Valid()
      ensures Yielded() + Pending() == Scan(f, init, source)
    {
      ScanAppend(f, init, consumed, iter.rest);
    }

    method Next() returns (r: Option<B>)
      requires Valid()
      modifies this
      ensures Valid()
      ensures iter == old(iter).Next().1
      ensures r == None <==> old(iter.rest) == []
      ensures r == None ==> acc == old(acc) && consumed == old(consumed)
      ensures r.Some? ==> acc == f(old(acc), old(iter.rest)[0]) && r == Some(acc)
      ensures r.Some? ==> consumed == old(consumed) + [old(iter.rest)[0]]
      ensures r.Some? ==> r.value == FoldLeft(f, init, consumed)
      ensures r == None <==> old(Pending()) == []
      ensures r.Some? ==> old(Pending()) == [r.value] + Pending()
      ensures Yielded() == old(Yielded()) + (if r.Some? then [r.value] else [])
      ensures Yielded() + Pending() == Scan(f, init, source)
    {
      var (item, rest) := iter.Next();
      iter := rest;
      match item {
        case Some(x) =>
          FoldLeftSnoc(f, init, consumed, x);
          ScanAppend(f, init, consumed, [x]);
          acc := f(acc, x);
          consumed := consumed + [x];
          r := Some(acc);
        case None =>
          r := None;
      }
      Outputs();
    }

    /** The size hint is the base's, and it is exact: as many values remain
        to be yielded as the base has elements left. */
    function SizeHint(): (r: (nat, Option<nat>))
      reads this
      ensures r == iter.SizeHint()
      ensures r.0 == |Pending()| && r.1 == Some(|Pending()|)
    {
      ScanLength(f, acc, iter.rest);
      iter.SizeHint()
    }

    /** The count is the base's, obtained without calling `f`: the number of
        values still to be yielded. */
    method Count() returns (n: nat)
      ensures n == iter.Count()
      ensures n == |Pending()|
    {
      n := iter.Count();
      ScanLength(f, acc, iter.rest);
    }
  }

  /** Drains a fresh adaptor over `xs`: the values yielded are the running
      fold of `xs`, one per element, and the last is the fold of `xs`. */
  method Collect<T, B>(xs: seq<T>, init: B, f: (B, T) -> B) returns (ys: seq<B>)
    ensures ys == Scan(f, init, xs)
    ensures |ys| == |xs|
    ensures xs != [] ==> ys[|ys| - 1] == FoldLeft(f, init, xs)
  {
    var it := SeqIter(xs).Accumulate(init, f);
    ys := [];
    while true
      invariant it.Valid() && it.f == f && it.init == init && it.source == xs
      invariant ys == it.Yielded()
      invariant it.Yielded() + it.Pending() == Scan(f, init, xs)
      decreases |it.iter.rest|
    {
      var r := it.Next();
      match r {
        case None =>
          break;
        case Some(v) =>
          ys := ys + [v];
      }
    }
    ScanLength(f, init, xs);
    if xs != [] {
      ScanLastIsFold(f, init, xs);
    }
  }

  /** The crate's documented example: a running product of 1..5 from 1. */
  method DocExample() returns (ys: seq<Option<int>>)
    ensures ys == [Some(1), Some(2), Some(6), Some(24), Some(120), None]
  {
    var it := SeqIter([1, 2, 3, 4, 5]).Accumulate(1, (acc: int, i: int) => acc * i);
    var a := it.Next();
    var b := it.Next();
    var c := it.Next();
    var d := it.Next();
    var e := it.Next();
    var g := it.Next();
    ys := [a, b, c, d, e, g];
  }

  /** Over an empty base the first pull yields None: the initial value is
      never yielded and `f` is never called. */
  method EmptyExample<T, B>(init: B, f: (B, T) -> B) returns (r: Option<B>, acc: B)
    ensures r == None && acc == init
  {
    var it := SeqIter([]).Accumulate(init, f);
    r := it.Next();
    acc := it.acc;
  }

  /** A non-commutative closure is applied left to right, in pull order. */
  method AppendExample() returns (ys: seq<Option<string>>)
    ensures ys == [Some("a"), Some("ab"), Some("abc"), None]
  {
    var it := SeqIter(["a", "b", "c"]).Accumulate("", (acc: string, s: string) => acc + s);
    var a := it.Next();
    assert "" + "a" == "a";
    var b := it.Next();
    assert "a" + "b" == "ab";
    var c := it.Next();
    assert "ab" + "c" == "abc";
    var d := it.Next();
    ys := [a, b, c, d];
  }
}
