/** Sequence operations the screens rely on: `Array.prototype.filter`,
    `Array.prototype.find` and `Array.from(new Set(xs))`. */
module Seqs {
  import opened Wrappers

  /** `a` can be obtained from `b` by deleting elements, keeping the order of the rest. */
  predicate IsSubsequence<T(==)>(a: seq<T>, b: seq<T>)
    decreases |b|
  {
    if |a| == 0 then true
    else if |b| == 0 then false
    else if a[0] == b[0] then IsSubsequence(a[1..], b[1..])
    else IsSubsequence(a, b[1..])
  }

  /** `xs.filter(keep)`: the elements satisfying `keep`, in their original order. */
  function Filter<T(==,!new)>(xs: seq<T>, keep: T -> bool): (r: seq<T>)
    ensures |r| <= |xs|
    ensures forall x :: x in r <==> x in xs && keep(x)
    ensures IsSubsequence(r, xs)
    ensures (forall i :: 0 <= i < |xs| ==> keep(xs[i])) ==> r == xs
    ensures forall x :: multiset(r)[x] == if keep(x) then multiset(xs)[x] else 0
    decreases |xs|
  {
    if |xs| == 0 then []
    else
      var rest := Filter(xs[1..], keep);
      assert forall x :: x in xs <==> x == xs[0] || x in xs[1..];
      assert xs == [xs[0]] + xs[1..];
      assert multiset(xs) == multiset{xs[0]} + multiset(xs[1..]);
      if keep(xs[0]) then
        assert ([xs[0]] + rest)[1..] == rest;
        [xs[0]] + rest
      else
        rest
  }

  /** No element occurs twice. */
  predicate NoDuplicates<T(==)>(xs: seq<T>)
  {
    forall i, j :: 0 <= i < j < |xs| ==> xs[i] != xs[j]
  }

  /** The elements of `xs` not in `seen`, each at its first occurrence. */
  function DistinctFrom<T(==,!new)>(xs: seq<T>, seen: set<T>): (r: seq<T>)
    ensures NoDuplicates(r)
    ensures forall x :: x in r <==> x in xs && x !in seen
    ensures |r| <= |xs|
    decreases |xs|
  {
    if |xs| == 0 then []
    else if xs[0] in seen then DistinctFrom(xs[1..], seen)
    else
      var rest := DistinctFrom(xs[1..], seen + {xs[0]});
      assert forall x :: x in rest ==> x != xs[0];
      [xs[0]] + rest
  }

  /** `Array.from(new Set(xs))`: a set iterates in insertion order, so this keeps
      every value once, at the position of its first occurrence. */
  function Distinct<T(==,!new)>(xs: seq<T>): (r: seq<T>)
    ensures NoDuplicates(r)
    ensures forall x :: x in r <==> x in xs
    ensures |r| == 0 <==> |xs| == 0
  {
    var r := DistinctFrom(xs, {});
    assert |xs| > 0 ==> xs[0] in r;
    r
  }

  /** Two inputs with the same values, in whatever order and with whatever
      repetitions, give the same distinct values. */
  lemma DistinctSameValues<T(!new)>(xs: seq<T>, ys: seq<T>)
    requires forall x :: x in xs <==> x in ys
    ensures forall x :: x in Distinct(xs) <==> x in Distinct(ys)
    ensures |Distinct(xs)| == |Distinct(ys)|
  {
    var a, b := Distinct(xs), Distinct(ys);
    DistinctCardinality(a);
    DistinctCardinality(b);
    assert (set x | x in a) == (set x | x in b);
  }

  /** A duplicate-free sequence has as many elements as its set of values. */
  lemma {:induction false} DistinctCardinality<T>(xs: seq<T>)
    requires NoDuplicates(xs)
    ensures |set x | x in xs| == |xs|
    decreases |xs|
  {
    if |xs| > 0 {
      var tail := xs[1..];
      assert NoDuplicates(tail);
      DistinctCardinality(tail);
      assert xs[0] !in tail;
      assert (set x | x in xs) == (set x | x in tail) + {xs[0]};
    }
  }

  /** `xs.findIndex(p)`, as an option: the index of the first element satisfying `p`. */
  function FindFirst<T>(xs: seq<T>, p: T -> bool): (r: Option<nat>)
    ensures r.Some? ==> r.value < |xs| && p(xs[r.value])
    ensures r.Some? ==> forall j :: 0 <= j < r.value ==> !p(xs[j])
    ensures r.None? <==> forall j :: 0 <= j < |xs| ==> !p(xs[j])
    decreases |xs|
  {
    if |xs| == 0 then None
    else if p(xs[0]) then Some(0)
    else
      match FindFirst(xs[1..], p)
      case None => None
      case Some(i) => Some(i + 1)
  }
}
