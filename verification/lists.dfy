/**
 The array operations the components apply to their lists: `filter`,
 `slice(0, n)` and the id-keyed `map` that swaps in an edited entry.
 */
module Lists {

  /** `sub` can be obtained from `xs` by deleting elements, order kept. */
  ghost predicate IsSubsequence<T>(sub: seq<T>, xs: seq<T>)
    decreases |xs|
  {
    sub == [] || (xs != [] && ((sub[0] == xs[0] && IsSubsequence(sub[1..], xs[1..])) || IsSubsequence(sub, xs[1..])))
  }

  /** A prefix of a subsequence is a subsequence. */
  lemma {:induction false} PrefixOfSubsequence<T>(r: seq<T>, a: seq<T>, b: seq<T>)
    requires r <= a && IsSubsequence(a, b)
    ensures IsSubsequence(r, b)
    decreases |b|
  {
    if r != [] {
      if a[0] == b[0] && IsSubsequence(a[1..], b[1..]) {
        PrefixOfSubsequence(r[1..], a[1..], b[1..]);
      } else {
        PrefixOfSubsequence(r, a, b[1..]);
      }
    }
  }

  /** How many elements of `xs` satisfy `p`. */
  function CountIf<T>(xs: seq<T>, p: T -> bool): nat
    ensures CountIf(xs, p) <= |xs|
  {
    if xs == [] then 0 else (if p(xs[0]) then 1 else 0) + CountIf(xs[1..], p)
  }

  /** `xs.filter(p)`: the order-preserving subsequence of exactly the elements
      satisfying `p` (the length fixes which positions are kept). */
  function Filter<T(!new)>(xs: seq<T>, p: T -> bool): (r: seq<T>)
    ensures IsSubsequence(r, xs)
    ensures forall i :: 0 <= i < |r| ==> p(r[i])
    ensures |r| == CountIf(xs, p)
    ensures forall x :: x in r <==> x in xs && p(x)
  {
    if xs == [] then []
    else if p(xs[0]) then [xs[0]] + Filter(xs[1..], p)
    else Filter(xs[1..], p)
  }

  /** A filter whose predicate holds everywhere keeps the list as it is. */
  lemma {:induction false} FilterAll<T(!new)>(xs: seq<T>, p: T -> bool)
    requires forall i :: 0 <= i < |xs| ==> p(xs[i])
    ensures Filter(xs, p) == xs
  {
    if xs != [] {
      FilterAll(xs[1..], p);
    }
  }

  /** A filter whose predicate fails on every element of the list empties it. */
  lemma {:induction false} FilterNone<T(!new)>(xs: seq<T>, p: T -> bool)
    requires forall i :: 0 <= i < |xs| ==> !p(xs[i])
    ensures Filter(xs, p) == []
  {
    if xs != [] {
      FilterNone(xs[1..], p);
    }
  }

  /** One step of `filter`: the head is kept or dropped, then the tail is filtered. */
  lemma FilterCons<T(!new)>(x: T, xs: seq<T>, p: T -> bool)
    ensures Filter([x] + xs, p) == (if p(x) then [x] else []) + Filter(xs, p)
  {
    assert ([x] + xs)[1..] == xs;
  }

  /** Filtering three elements keeps each one that passes. */
  lemma FilterTriple<T(!new)>(x: T, y: T, z: T, p: T -> bool)
    ensures Filter([x, y, z], p) == (if p(x) then [x] else []) + Filter([y, z], p)
  {
    FilterCons(x, [y, z], p);
    assert [x, y, z] == [x] + [y, z];
  }

  /** Filters with predicates that agree on the list give the same result. */
  lemma {:induction false} FilterCongruent<T(!new)>(xs: seq<T>, p: T -> bool, q: T -> bool)
    requires forall i :: 0 <= i < |xs| ==> p(xs[i]) == q(xs[i])
    ensures Filter(xs, p) == Filter(xs, q)
  {
    if xs != [] {
      FilterCongruent(xs[1..], p, q);
    }
  }

  /** `xs.slice(0, n)`. */
  function Take<T>(xs: seq<T>, n: nat): (r: seq<T>)
    ensures |r| == if |xs| < n then |xs| else n
    ensures r <= xs
  {
    if |xs| <= n then xs else xs[..n]
  }

  /** `xs.map(x => key(x) === id ? replacement : x)`. */
  function ReplaceWhere<T>(xs: seq<T>, key: T -> string, id: string, replacement: T): (r: seq<T>)
    ensures |r| == |xs|
    ensures forall i :: 0 <= i < |xs| && key(xs[i]) == id ==> r[i] == replacement
    ensures forall i :: 0 <= i < |xs| && key(xs[i]) != id ==> r[i] == xs[i]
  {
    if xs == [] then []
    else [if key(xs[0]) == id then replacement else xs[0]] + ReplaceWhere(xs[1..], key, id, replacement)
  }

  /** The ids of the list, in order: `Map` with the id field. */
  function Keys<T>(xs: seq<T>, key: T -> string): seq<string> {
    Map(xs, key)
  }

  /** Replacing by an entry carrying the same id leaves the id sequence, hence
      the list's shape and order, unchanged. */
  lemma ReplaceKeepsKeys<T>(xs: seq<T>, key: T -> string, id: string, replacement: T)
    requires key(replacement) == id
    ensures Keys(ReplaceWhere(xs, key, id, replacement), key) == Keys(xs, key)
  {
  }

  /** When no entry carries the id, the replacement is a no-op. */
  lemma {:induction false} ReplaceAbsent<T>(xs: seq<T>, key: T -> string, id: string, replacement: T)
    requires forall i :: 0 <= i < |xs| ==> key(xs[i]) != id
    ensures ReplaceWhere(xs, key, id, replacement) == xs
  {
    if xs != [] {
      ReplaceAbsent(xs[1..], key, id, replacement);
    }
  }

  /** `xs.map(f)`. */
  function Map<A, B>(xs: seq<A>, f: A -> B): (r: seq<B>)
    ensures |r| == |xs| && forall i :: 0 <= i < |xs| ==> r[i] == f(xs[i])
  {
    seq(|xs|, i requires 0 <= i < |xs| => f(xs[i]))
  }

  /** Every element of a deduplicated, truncated filter came from the input
      and passed the filter. */
  lemma TakeDedupeFilter<T(!new)>(xs: seq<T>, p: T -> bool, n: nat)
    ensures forall t :: t in Take(Dedupe(Filter(xs, p)), n) ==> t in xs && p(t)
  {
    var d := Dedupe(Filter(xs, p));
    var r := Take(d, n);
    forall t | t in r ensures t in xs && p(t) {
      var i :| 0 <= i < |r| && r[i] == t;
      assert d[i] == t;
    }
  }

  predicate NoDuplicates<T(==)>(xs: seq<T>) {
    forall i, j :: 0 <= i < j < |xs| ==> xs[i] != xs[j]
  }

  /** Position of the first occurrence of `x` in `xs`. */
  function FirstIndex<T(==)>(xs: seq<T>, x: T): (k: nat)
    requires x in xs
    ensures k < |xs| && xs[k] == x && x !in xs[..k]
  {
    if xs[0] == x then 0 else 1 + FirstIndex(xs[1..], x)
  }

  /** The first occurrence of an element does not move when the list grows at the end. */
  lemma {:induction false} FirstIndexPrefix<T>(xs: seq<T>, n: nat, x: T)
    requires n <= |xs| && x in xs[..n]
    ensures FirstIndex(xs, x) == FirstIndex(xs[..n], x)
  {
    if xs[0] != x {
      assert xs[1..][..n - 1] == xs[..n][1..];
      FirstIndexPrefix(xs[1..], n - 1, x);
    }
  }

  /** Dropping the last element keeps the first occurrences of the rest. */
  lemma FirstIndexInit<T>(xs: seq<T>)
    requires |xs| > 0
    ensures forall y :: y in xs[..|xs| - 1] ==> FirstIndex(xs, y) == FirstIndex(xs[..|xs| - 1], y)
  {
    forall y | y in xs[..|xs| - 1] ensures FirstIndex(xs, y) == FirstIndex(xs[..|xs| - 1], y) {
      FirstIndexPrefix(xs, |xs| - 1, y);
    }
  }

  /** `[...new Set(xs)]`: each distinct element once, at the place of its
      first occurrence. */
  function Dedupe<T(==,!new)>(xs: seq<T>): (r: seq<T>)
    ensures NoDuplicates(r)
    ensures forall x :: x in r <==> x in xs
    ensures forall i, j :: 0 <= i < j < |r| ==> FirstIndex(xs, r[i]) < FirstIndex(xs, r[j])
  {
    if xs == [] then []
    else
      var init := xs[..|xs| - 1];
      var x := xs[|xs| - 1];
      var d := Dedupe(init);
      FirstIndexInit(xs);
      assert forall y :: y in xs <==> y in init || y == x;
      if x in d then d
      else
        var r := d + [x];
        assert x !in init;
        assert FirstIndex(xs, x) == |xs| - 1;
        assert forall i :: 0 <= i < |d| ==> FirstIndex(xs, r[i]) < |xs| - 1;
        r
  }

  /** Filtering two elements keeps each one that passes. */
  lemma FilterPair<T(!new)>(x: T, y: T, p: T -> bool)
    ensures Filter([x, y], p) == (if p(x) then [x] else []) + (if p(y) then [y] else [])
  {
    assert [x, y][1..] == [y];
    assert Filter([y], p) == if p(y) then [y] else [];
  }

  lemma DedupeSingle<T(!new)>(x: T)
    ensures Dedupe([x]) == [x]
  {
    assert [x][..0] == [];
  }

  /** Two equal elements collapse to one; two different ones both stay, in order. */
  lemma DedupePair<T(!new)>(x: T, y: T)
    ensures Dedupe([x, y]) == if x == y then [x] else [x, y]
  {
    assert [x, y][..1] == [x];
    DedupeSingle(x);
  }
}
