/** Stable sorting by a comparator, as `Array.prototype.sort` does it. */
module StableSort {
  import opened Seqs

  type Comparator = (string, string) -> int

  /** What a comparator owes to `sort`: opposite signs for swapped arguments, and transitivity. */
  ghost predicate Lawful(cmp: Comparator) {
    && (forall a, b :: cmp(a, b) < 0 <==> cmp(b, a) > 0)
    && (forall a, b, c :: cmp(a, b) <= 0 && cmp(b, c) <= 0 ==> cmp(a, c) <= 0)
  }

  /** The place where insertion puts a new element: before the first that does not come before it. */
  function Place(cmp: Comparator, x: string, s: seq<string>): (k: nat)
    ensures k <= |s| && (forall i :: 0 <= i < k ==> cmp(x, s[i]) > 0) && (k < |s| ==> cmp(x, s[k]) <= 0)
  {
    if s == [] || cmp(x, s[0]) <= 0 then 0 else 1 + Place(cmp, x, s[1..])
  }

  function Insert(cmp: Comparator, x: string, s: seq<string>): seq<string> {
    var k := Place(cmp, x, s);
    s[..k] + [x] + s[k..]
  }

  function Sort(cmp: Comparator, xs: seq<string>): seq<string> {
    if xs == [] then [] else Insert(cmp, xs[0], Sort(cmp, xs[1..]))
  }

  predicate Ordered(cmp: Comparator, s: seq<string>) {
    forall i, j :: 0 <= i < j < |s| ==> cmp(s[i], s[j]) <= 0
  }

  lemma AtMost(cmp: Comparator, a: string, b: string, c: string)
    requires Lawful(cmp)
    ensures cmp(a, b) <= 0 && cmp(b, c) <= 0 ==> cmp(a, c) <= 0
    ensures cmp(a, b) > 0 ==> cmp(b, a) <= 0
  {
  }

  lemma SplitAt(s: seq<string>, k: nat)
    requires k <= |s|
    ensures s[..k] + s[k..] == s
  {
  }

  lemma BetweenPermutes(before: seq<string>, x: string, after: seq<string>)
    ensures multiset(before + [x] + after) == multiset{x} + multiset(before + after)
  {
  }

  lemma InsertPermutes(cmp: Comparator, x: string, s: seq<string>)
    ensures multiset(Insert(cmp, x, s)) == multiset{x} + multiset(s)
  {
    var k := Place(cmp, x, s);
    SplitAt(s, k);
    BetweenPermutes(s[..k], x, s[k..]);
  }

  lemma PlaceFits(cmp: Comparator, x: string, s: seq<string>, k: nat, i: nat)
    requires Lawful(cmp) && i < |s| && k <= |s| && Ordered(cmp, s)
    requires (i < k ==> cmp(x, s[i]) > 0) && (k < |s| ==> cmp(x, s[k]) <= 0)
    ensures if i < k then cmp(s[i], x) <= 0 else cmp(x, s[i]) <= 0
  {
    if i < k {
      AtMost(cmp, x, s[i], x);
    } else if i > k {
      AtMost(cmp, x, s[k], s[i]);
    }
  }

  /** The new element comes after everything before its place and before everything after it. */
  predicate Fits(cmp: Comparator, x: string, s: seq<string>, k: nat) {
    && k <= |s| && (forall i :: 0 <= i < k ==> cmp(s[i], x) <= 0) && (forall i :: k <= i < |s| ==> cmp(x, s[i]) <= 0)
  }

  lemma PlaceFitsAll(cmp: Comparator, x: string, s: seq<string>)
    requires Lawful(cmp) && Ordered(cmp, s)
    ensures Fits(cmp, x, s, Place(cmp, x, s))
  {
    var k := Place(cmp, x, s);
    forall i | 0 <= i < |s| ensures if i < k then cmp(s[i], x) <= 0 else cmp(x, s[i]) <= 0 {
      PlaceFits(cmp, x, s, k, i);
    }
  }

  lemma FittedOrdered(cmp: Comparator, x: string, s: seq<string>, k: nat)
    requires Fits(cmp, x, s, k) && Ordered(cmp, s)
    ensures Ordered(cmp, s[..k] + [x] + s[k..])
  {
  }

  lemma InsertOrders(cmp: Comparator, x: string, s: seq<string>)
    requires Lawful(cmp) && Ordered(cmp, s)
    ensures Ordered(cmp, Insert(cmp, x, s))
  {
    PlaceFitsAll(cmp, x, s);
    FittedOrdered(cmp, x, s, Place(cmp, x, s));
  }

  /** The result is an ordered permutation. */
  lemma {:induction false} SortOrders(cmp: Comparator, xs: seq<string>)
    requires Lawful(cmp)
    ensures Ordered(cmp, Sort(cmp, xs))
    ensures multiset(Sort(cmp, xs)) == multiset(xs)
  {
    if xs != [] {
      SortOrders(cmp, xs[1..]);
      InsertOrders(cmp, xs[0], Sort(cmp, xs[1..]));
      InsertPermutes(cmp, xs[0], Sort(cmp, xs[1..]));
      assert xs == [xs[0]] + xs[1..];
    }
  }

  /** Insertion into a list that splits around the new element. */
  lemma InsertBetween(cmp: Comparator, x: string, before: seq<string>, after: seq<string>)
    requires forall y :: y in before ==> cmp(x, y) > 0
    requires forall y :: y in after ==> cmp(x, y) <= 0
    ensures Insert(cmp, x, before + after) == before + [x] + after
  {
    var s := before + after;
    assert forall i :: 0 <= i < |before| ==> s[i] == before[i] && before[i] in before;
    if after != [] {
      assert s[|before|] == after[0] && after[0] in after;
    }
    assert Place(cmp, x, s) == |before|;
    assert s[..|before|] == before && s[|before|..] == after;
  }

  lemma FilterAround(cmp: Comparator, keep: string -> bool, x: string, before: seq<string>, after: seq<string>)
    requires forall y :: y in before ==> cmp(x, y) > 0
    requires forall y :: y in after ==> cmp(x, y) <= 0
    ensures Filter(keep, before + [x] + after)
            == if keep(x) then Insert(cmp, x, Filter(keep, before + after)) else Filter(keep, before + after)
  {
    FilterConcat(keep, before, after);
    FilterConcat(keep, before + [x], after);
    FilterConcat(keep, before, [x]);
    FilterMembers(keep, before);
    FilterMembers(keep, after);
    InsertBetween(cmp, x, Filter(keep, before), Filter(keep, after));
    assert Filter(keep, [x]) == if keep(x) then [x] else [];
    assert Filter(keep, before) + [] == Filter(keep, before);
  }

  lemma SplitFits(cmp: Comparator, x: string, s: seq<string>, k: nat)
    requires Fits(cmp, x, s, k)
    ensures forall y :: y in s[k..] ==> cmp(x, y) <= 0
  {
    forall y | y in s[k..] ensures cmp(x, y) <= 0 {
      var i :| 0 <= i < |s[k..]| && s[k..][i] == y;
      assert s[k + i] == y;
    }
  }

  lemma InsertFilter(cmp: Comparator, keep: string -> bool, x: string, s: seq<string>)
    requires Fits(cmp, x, s, Place(cmp, x, s))
    ensures Filter(keep, Insert(cmp, x, s)) == if keep(x) then Insert(cmp, x, Filter(keep, s)) else Filter(keep, s)
  {
    var k := Place(cmp, x, s);
    SplitFits(cmp, x, s, k);
    SplitAt(s, k);
    FilterAround(cmp, keep, x, s[..k], s[k..]);
  }

  /** Sorting what is kept gives what is kept of the sorted list: equal elements stay in their order. */
  lemma {:induction false} SortFilter(cmp: Comparator, keep: string -> bool, xs: seq<string>)
    requires Lawful(cmp)
    ensures Sort(cmp, Filter(keep, xs)) == Filter(keep, Sort(cmp, xs))
  {
    if xs != [] {
      var rest := Sort(cmp, xs[1..]);
      SortFilter(cmp, keep, xs[1..]);
      SortOrders(cmp, xs[1..]);
      PlaceFitsAll(cmp, xs[0], rest);
      InsertFilter(cmp, keep, xs[0], rest);
      assert Sort(cmp, xs) == Insert(cmp, xs[0], rest);
      var kept := Filter(keep, xs[1..]);
      if keep(xs[0]) {
        assert ([xs[0]] + kept)[0] == xs[0] && ([xs[0]] + kept)[1..] == kept;
      } else {
        assert [] + kept == kept;
      }
    }
  }

  lemma InsertFront(cmp: Comparator, x: string, s: seq<string>)
    requires s != [] ==> cmp(x, s[0]) <= 0
    ensures Insert(cmp, x, s) == [x] + s
  {
    assert Place(cmp, x, s) == 0;
    assert s[..0] + [x] + s[0..] == [x] + s;
  }

  /** Elements that compare as equal keep their order. */
  lemma {:induction false} SortTied(cmp: Comparator, xs: seq<string>)
    requires forall a, b :: a in xs && b in xs ==> cmp(a, b) == 0
    ensures Sort(cmp, xs) == xs
  {
    if xs != [] {
      SortTied(cmp, xs[1..]);
      assert xs[1..] != [] ==> xs[1..][0] in xs;
      InsertFront(cmp, xs[0], xs[1..]);
      assert [xs[0]] + xs[1..] == xs;
    }
  }

  function TiedWith(cmp: Comparator, x: string): string -> bool {
    (y: string) => cmp(x, y) == 0
  }

  /** Elements that compare as equal to one another come out in the order in which they went in. */
  lemma SortStable(cmp: Comparator, xs: seq<string>, x: string)
    requires Lawful(cmp)
    ensures Filter(TiedWith(cmp, x), Sort(cmp, xs)) == Filter(TiedWith(cmp, x), xs)
  {
    var tied := Filter(TiedWith(cmp, x), xs);
    FilterMembers(TiedWith(cmp, x), xs);
    forall a, b | a in tied && b in tied ensures cmp(a, b) == 0 {
      AtMost(cmp, a, x, b);
      AtMost(cmp, b, x, a);
    }
    SortFilter(cmp, TiedWith(cmp, x), xs);
    SortTied(cmp, tied);
  }

  /** An ordered list, cut where a property that only grows sets in. */
  lemma {:induction false} OrderedSplit(cmp: Comparator, top: string -> bool, s: seq<string>)
    requires Ordered(cmp, s)
    requires forall a, b :: a in s && b in s && top(a) && cmp(a, b) <= 0 ==> top(b)
    ensures |Filter(top, s)| <= |s| && s[|s| - |Filter(top, s)|..] == Filter(top, s)
    ensures forall i :: 0 <= i < |s| - |Filter(top, s)| ==> !top(s[i])
  {
    if s != [] {
      assert Ordered(cmp, s[1..]);
      OrderedSplit(cmp, top, s[1..]);
      FilterMembers(top, s[1..]);
      if top(s[0]) {
        FilterAll(top, s);
      }
    }
  }
}
