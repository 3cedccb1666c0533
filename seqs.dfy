/** Generic list building blocks the model's specifications are written in:
    mapping an index range with a possibly-throwing step, filtering, and the
    indices of a range that pass a test. */
module Seqs {
  import opened Wrappers

  /** `[f(0), …, f(n-1)]`, stopping at the first step that throws. */
  function Collect<T>(n: nat, f: nat -> Result<T>): (r: Result<seq<T>>)
    ensures r.Ok? ==> |r.value| == n
  {
    if n == 0 then Ok([])
    else
      var earlier :- Collect(n - 1, f);
      var x :- f(n - 1);
      Ok(earlier + [x])
  }

  /** One more step: the list grows by the step's value, or the step's error ends it. */
  lemma CollectNext<T>(n: nat, f: nat -> Result<T>)
    requires Collect(n, f).Ok?
    ensures f(n).Err? ==> Collect(n + 1, f) == Err(f(n).message)
    ensures f(n).Ok? ==> Collect(n + 1, f) == Ok(Collect(n, f).value + [f(n).value])
  {
  }

  /** Once a prefix throws, every longer one does. */
  lemma {:induction false} CollectErrStays<T>(i: nat, n: nat, f: nat -> Result<T>)
    requires i <= n && Collect(i, f).Err?
    ensures Collect(n, f) == Collect(i, f)
    decreases n - i
  {
    if i < n {
      CollectErrStays(i, n - 1, f);
    }
  }

  /** A successful collection holds the step's value at every index. */
  lemma {:induction false} CollectAt<T>(n: nat, f: nat -> Result<T>, k: nat)
    requires Collect(n, f).Ok? && k < n
    ensures f(k).Ok? && Collect(n, f).value[k] == f(k).value
    decreases n
  {
    if k < n - 1 {
      CollectAt(n - 1, f, k);
    }
  }

  /** `s.filter(p)`. */
  function Filter<T>(s: seq<T>, p: T -> bool): (r: seq<T>)
    ensures |r| <= |s|
  {
    if s == [] then []
    else
      var rest := Filter(s[..|s| - 1], p);
      if p(s[|s| - 1]) then rest + [s[|s| - 1]] else rest
  }

  /** Membership in a list split before its last element. */
  lemma InInitOrLast<T>(s: seq<T>, x: T)
    requires s != []
    ensures x in s <==> x in s[..|s| - 1] || x == s[|s| - 1]
  {
    assert s == s[..|s| - 1] + [s[|s| - 1]];
  }

  lemma FilterSnoc<T>(s: seq<T>, x: T, p: T -> bool)
    ensures Filter(s + [x], p) == Filter(s, p) + (if p(x) then [x] else [])
  {
    assert (s + [x])[..|s|] == s;
  }

  /** Membership in a filtered list, both directions. */
  lemma {:induction false} FilterMembers<T>(s: seq<T>, p: T -> bool, x: T)
    ensures x in Filter(s, p) <==> x in s && p(x)
    decreases |s|
  {
    if s != [] {
      var init, last := s[..|s| - 1], s[|s| - 1];
      FilterMembers(init, p, x);
      assert s == init + [last];
      assert x in s <==> x in init || x == last;
      assert Filter(s, p) == Filter(init, p) + (if p(last) then [last] else []);
    }
  }

  /** The indices below `n` that pass `p`, ascending. */
  function IndicesBelow(n: nat, p: nat -> bool): seq<nat> {
    if n == 0 then [] else IndicesBelow(n - 1, p) + (if p(n - 1) then [n - 1] else [])
  }

  /** Exactly the passing indices below `n`, strictly ascending. */
  lemma {:induction false} IndicesBelowExact(n: nat, p: nat -> bool)
    ensures forall k: nat :: k in IndicesBelow(n, p) <==> k < n && p(k)
    ensures forall a, b :: 0 <= a < b < |IndicesBelow(n, p)| ==> IndicesBelow(n, p)[a] < IndicesBelow(n, p)[b]
    decreases n
  {
    if n > 0 {
      IndicesBelowExact(n - 1, p);
      var prev := IndicesBelow(n - 1, p);
      assert forall a :: 0 <= a < |prev| ==> prev[a] in prev && prev[a] < n - 1;
    }
  }
}
