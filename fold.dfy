/**
  The pure specification of a running fold: `FoldLeft` is what Rust's
  `Iterator::fold` returns, `Scan` is the sequence of values an `Accumulate`
  adaptor yields. Both apply the combining function strictly left to right.
 */
module Fold {

  /** The left fold of `s` from `a`: f(...f(f(a, s[0]), s[1])..., s[|s|-1]). */
  function FoldLeft<T, B>(f: (B, T) -> B, a: B, s: seq<T>): B
    decreases |s|
  {
    if s == [] then a else FoldLeft(f, f(a, s[0]), s[1..])
  }

  /** The running fold of `s` from `a`: one value per element, each the
      accumulator just after that element was combined in. */
  function Scan<T, B>(f: (B, T) -> B, a: B, s: seq<T>): seq<B>
    decreases |s|
  {
    if s == [] then [] else [f(a, s[0])] + Scan(f, f(a, s[0]), s[1..])
  }

  /** Folding one more element combines it with the fold of what came before. */
  lemma {:induction false} FoldLeftSnoc<T, B>(f: (B, T) -> B, a: B, s: seq<T>, x: T)
    ensures FoldLeft(f, a, s + [x]) == f(FoldLeft(f, a, s), x)
    decreases |s|
  {
    if s == [] {
      assert [x][1..] == [];
    } else {
      assert (s + [x])[1..] == s[1..] + [x];
      FoldLeftSnoc(f, f(a, s[0]), s[1..], x);
    }
  }

  /** One output per input element. */
  lemma {:induction false} ScanLength<T, B>(f: (B, T) -> B, a: B, s: seq<T>)
    ensures |Scan(f, a, s)| == |s|
    decreases |s|
  {
    if s != [] {
      ScanLength(f, f(a, s[0]), s[1..]);
    }
  }

  /** The k-th output is the fold of the first k + 1 elements. */
  lemma {:induction false} ScanAt<T, B>(f: (B, T) -> B, a: B, s: seq<T>, k: nat)
    requires k < |s|
    ensures |Scan(f, a, s)| == |s|
    ensures Scan(f, a, s)[k] == FoldLeft(f, a, s[..k + 1])
    decreases |s|
  {
    ScanLength(f, a, s);
    if k == 0 {
      assert s[..1][1..] == [];
    } else {
      ScanAt(f, f(a, s[0]), s[1..], k - 1);
      assert s[..k + 1][1..] == s[1..][..k];
    }
  }

  /** The last output of a non-empty scan is the fold of the whole sequence. */
  lemma ScanLastIsFold<T, B>(f: (B, T) -> B, a: B, s: seq<T>)
    requires s != []
    ensures |Scan(f, a, s)| == |s|
    ensures Scan(f, a, s)[|s| - 1] == FoldLeft(f, a, s)
  {
    ScanAt(f, a, s, |s| - 1);
    assert s[..|s|] == s;
  }

  /** Scanning a concatenation: the outputs for the first part, then the
      outputs for the second part started from the fold of the first. */
  lemma {:induction false} ScanAppend<T, B>(f: (B, T) -> B, a: B, s: seq<T>, t: seq<T>)
    ensures Scan(f, a, s + t) == Scan(f, a, s) + Scan(f, FoldLeft(f, a, s), t)
    decreases |s|
  {
    if s == [] {
      assert s + t == t;
    } else {
      assert (s + t)[1..] == s[1..] + t;
      ScanAppend(f, f(a, s[0]), s[1..], t);
    }
  }
}
