/** Sequence operators that the source uses on arrays and streams. */
module Seqs {

  function ConcatMap<A, B>(f: A -> seq<B>, xs: seq<A>): seq<B> {
    if xs == [] then [] else f(xs[0]) + ConcatMap(f, xs[1..])
  }

  function Filter<A>(keep: A -> bool, xs: seq<A>): seq<A> {
    if xs == [] then [] else (if keep(xs[0]) then [xs[0]] else []) + Filter(keep, xs[1..])
  }

  function Map<A, B>(f: A -> B, xs: seq<A>): seq<B> {
    if xs == [] then [] else [f(xs[0])] + Map(f, xs[1..])
  }

  function Skip<A>(n: nat, xs: seq<A>): seq<A> {
    if n <= |xs| then xs[n..] else []
  }

  function SkipWhile<A>(drop: A -> bool, xs: seq<A>): seq<A> {
    if xs == [] || !drop(xs[0]) then xs else SkipWhile(drop, xs[1..])
  }

  function Zip<A, B>(xs: seq<A>, ys: seq<B>): seq<(A, B)> {
    if xs == [] || ys == [] then [] else [(xs[0], ys[0])] + Zip(xs[1..], ys[1..])
  }

  lemma {:induction false} ConcatMapConcat<A, B>(f: A -> seq<B>, xs: seq<A>, ys: seq<A>)
    ensures ConcatMap(f, xs + ys) == ConcatMap(f, xs) + ConcatMap(f, ys)
  {
    if xs == [] {
      assert xs + ys == ys;
    } else {
      ConcatMapConcat(f, xs[1..], ys);
      assert (xs + ys)[0] == xs[0] && (xs + ys)[1..] == xs[1..] + ys;
      assert f(xs[0]) + (ConcatMap(f, xs[1..]) + ConcatMap(f, ys)) == f(xs[0]) + ConcatMap(f, xs[1..]) + ConcatMap(f, ys);
    }
  }

  lemma {:induction false} FilterConcat<A>(keep: A -> bool, xs: seq<A>, ys: seq<A>)
    ensures Filter(keep, xs + ys) == Filter(keep, xs) + Filter(keep, ys)
  {
    if xs == [] {
      assert xs + ys == ys;
    } else {
      var first := if keep(xs[0]) then [xs[0]] else [];
      FilterConcat(keep, xs[1..], ys);
      assert (xs + ys)[0] == xs[0] && (xs + ys)[1..] == xs[1..] + ys;
      assert first + (Filter(keep, xs[1..]) + Filter(keep, ys)) == first + Filter(keep, xs[1..]) + Filter(keep, ys);
    }
  }

  lemma {:induction false} MapConcat<A, B>(f: A -> B, xs: seq<A>, ys: seq<A>)
    ensures Map(f, xs + ys) == Map(f, xs) + Map(f, ys)
  {
    if xs == [] {
      assert xs + ys == ys;
    } else {
      var front := [f(xs[0])];
      MapConcat(f, xs[1..], ys);
      assert (xs + ys)[1..] == xs[1..] + ys && (xs + ys)[0] == xs[0];
      assert Map(f, xs + ys) == front + (Map(f, xs[1..]) + Map(f, ys));
      assert front + (Map(f, xs[1..]) + Map(f, ys)) == (front + Map(f, xs[1..])) + Map(f, ys);
    }
  }

  lemma {:induction false} FilterMembers<A>(keep: A -> bool, xs: seq<A>)
    ensures forall x :: x in Filter(keep, xs) <==> x in xs && keep(x)
    ensures |Filter(keep, xs)| <= |xs|
  {
    if xs != [] {
      FilterMembers(keep, xs[1..]);
      assert forall x :: x in xs <==> x == xs[0] || x in xs[1..];
    }
  }

  lemma {:induction false} FilterAll<A>(keep: A -> bool, s: seq<A>)
    requires forall x :: x in s ==> keep(x)
    ensures Filter(keep, s) == s
  {
    if s != [] {
      FilterAll(keep, s[1..]);
    }
  }

  lemma ConcatMapSplit<A, B>(f: A -> seq<B>, xs: seq<A>, k: nat)
    requires k <= |xs|
    ensures ConcatMap(f, xs) == ConcatMap(f, xs[..k]) + ConcatMap(f, xs[k..])
  {
    ConcatMapConcat(f, xs[..k], xs[k..]);
    assert xs[..k] + xs[k..] == xs;
  }

  // Repetition

  predicate NoRepeats<T(==)>(s: seq<T>) {
    forall i, j :: 0 <= i < j < |s| ==> s[i] != s[j]
  }

  /** No element occurs twice: the form of distinctness that a permutation visibly keeps. */
  lemma {:induction false} CountedOnce<T>(s: seq<T>, x: T)
    requires NoRepeats(s)
    ensures multiset(s)[x] <= 1
  {
    if s != [] {
      var n := |s| - 1;
      CountedOnce(s[..n], x);
      assert s == s[..n] + [s[n]] && s[n] !in s[..n];
    }
  }
}
