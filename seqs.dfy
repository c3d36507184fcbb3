/** Order-preserving filtering of a sequence, the shape shared by
    `Array.prototype.filter` and by a `forEach` that keeps some elements. */
module Seqs {

  /** The elements of `s` that satisfy `p`, in their order in `s`. Defined
      from the end so that one more element is one more step. */
  function Filter<T>(p: T -> bool, s: seq<T>): (r: seq<T>)
    ensures |r| <= |s|
  {
    if s == [] then []
    else Filter(p, s[..|s| - 1]) + (if p(s[|s| - 1]) then [s[|s| - 1]] else [])
  }

  /** Filtering one element more appends it exactly when it is kept. */
  lemma FilterSnoc<T>(p: T -> bool, s: seq<T>, x: T)
    ensures Filter(p, s + [x]) == Filter(p, s) + (if p(x) then [x] else [])
  {
    assert (s + [x])[..|s|] == s;
  }

  /** An element is kept exactly when it occurs in the input and satisfies
      the predicate. */
  lemma {:induction false} FilterMembers<T>(p: T -> bool, s: seq<T>)
    ensures forall x :: x in Filter(p, s) <==> x in s && p(x)
  {
    if s != [] {
      var init := s[..|s| - 1];
      FilterMembers(p, init);
      assert s == init + [s[|s| - 1]];
    }
  }

  /** When every element satisfies the predicate nothing is dropped. */
  lemma {:induction false} FilterKeepsAll<T>(p: T -> bool, s: seq<T>)
    requires forall i :: 0 <= i < |s| ==> p(s[i])
    ensures Filter(p, s) == s
  {
    if s != [] {
      FilterKeepsAll(p, s[..|s| - 1]);
      assert s == s[..|s| - 1] + [s[|s| - 1]];
    }
  }

  /** Filtering a concatenation filters each part. */
  lemma {:induction false} FilterAppend<T>(p: T -> bool, a: seq<T>, b: seq<T>)
    ensures Filter(p, a + b) == Filter(p, a) + Filter(p, b)
  {
    if b != [] {
      var init := b[..|b| - 1];
      FilterAppend(p, a, init);
      assert a + b == (a + init) + [b[|b| - 1]];
      FilterSnoc(p, a + init, b[|b| - 1]);
      assert b == init + [b[|b| - 1]];
      FilterSnoc(p, init, b[|b| - 1]);
    } else {
      assert a + b == a;
    }
  }

  /** When the element at `i` is kept, it follows, in the filtered
      sequence, exactly the kept elements before it. */
  lemma FilterNextKept<T>(p: T -> bool, s: seq<T>, i: int)
    requires 0 <= i < |s| && p(s[i])
    ensures var before := Filter(p, s[..i]);
      && |before| < |Filter(p, s)|
      && Filter(p, s)[..|before|] == before
      && Filter(p, s)[|before|] == s[i]
  {
    assert s == s[..i + 1] + s[i + 1..];
    FilterAppend(p, s[..i + 1], s[i + 1..]);
    FilterSnoc(p, s[..i], s[i]);
    assert s[..i + 1] == s[..i] + [s[i]];
  }
}
