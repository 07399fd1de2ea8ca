/** Sums over a list do not depend on its order. */
module Sums {

  function SumBy<T>(s: seq<T>, f: T -> int): int {
    if s == [] then 0 else SumBy(s[..|s| - 1], f) + f(s[|s| - 1])
  }

  lemma {:induction false} SumByConcat<T>(s: seq<T>, t: seq<T>, f: T -> int)
    ensures SumBy(s + t, f) == SumBy(s, f) + SumBy(t, f)
  {
    if t == [] {
      assert s + t == s;
    } else {
      SumByConcat(s, t[..|t| - 1], f);
      assert (s + t)[..|s + t| - 1] == s + t[..|t| - 1];
    }
  }

  lemma SumBySnoc<T>(s: seq<T>, x: T, f: T -> int)
    ensures SumBy(s + [x], f) == SumBy(s, f) + f(x)
  {
    assert (s + [x])[..|s|] == s;
  }

  lemma SumByMiddle<T>(front: seq<T>, x: T, back: seq<T>, f: T -> int)
    ensures SumBy(front + [x] + back, f) == SumBy(front + back, f) + f(x)
    ensures multiset(front + back) == multiset(front + [x] + back) - multiset{x}
  {
    SumByConcat(front, back, f);
    SumByConcat(front + [x], back, f);
    SumBySnoc(front, x, f);
  }

  lemma AroundIndex<T>(s: seq<T>, i: nat)
    requires i < |s|
    ensures s[..i] + [s[i]] + s[i + 1..] == s
  {
  }

  lemma SumByRemove<T>(s: seq<T>, i: nat, f: T -> int)
    requires i < |s|
    ensures SumBy(s, f) == SumBy(s[..i] + s[i + 1..], f) + f(s[i])
    ensures multiset(s[..i] + s[i + 1..]) == multiset(s) - multiset{s[i]}
  {
    AroundIndex(s, i);
    SumByMiddle(s[..i], s[i], s[i + 1..], f);
  }

  lemma {:induction false} SumByPermutation<T>(s: seq<T>, t: seq<T>, f: T -> int)
    requires multiset(s) == multiset(t)
    ensures SumBy(s, f) == SumBy(t, f)
  {
    if s == [] {
      assert |multiset(t)| == |t|;
    } else {
      var n := |s| - 1;
      assert s[n] in multiset(t);
      var i :| 0 <= i < |t| && t[i] == s[n];
      SumByRemove(t, i, f);
      SumByRemove(s, n, f);
      assert s[..n] + s[n + 1..] == s[..n];
      SumByPermutation(s[..n], t[..i] + t[i + 1..], f);
    }
  }
}
