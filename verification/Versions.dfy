/** Managed compiler versions: listing, clean-up, and which version the runner takes for the latest. */
module Versions {
  import opened Results
  import opened Numerals
  import opened Seqs
  import opened StableSort

  // The managed directory

  /** An entry of the directory; `runnable`: it holds the compiler. */
  datatype Entry = Entry(name: string, isDirectory: bool, runnable: bool)

  predicate DistinctNames(entries: seq<Entry>) {
    forall i, j :: 0 <= i < j < |entries| ==> entries[i].name != entries[j].name
  }

  /** The installed versions, in directory order. */
  function Installed(entries: seq<Entry>): seq<string> {
    if entries == [] then []
    else (if entries[0].isDirectory && entries[0].runnable then [entries[0].name] else []) + Installed(entries[1..])
  }

  function Without(entries: seq<Entry>, removed: seq<string>): seq<Entry> {
    if entries == [] then []
    else (if entries[0].name in removed then [] else [entries[0]]) + Without(entries[1..], removed)
  }

  function Kept(removed: seq<string>): Entry -> bool {
    (e: Entry) => e.name !in removed
  }

  function Spared(removed: seq<string>): string -> bool {
    (name: string) => name !in removed
  }

  function Flip(cmp: Comparator): Comparator {
    (a: string, b: string) => cmp(b, a)
  }

  /** `slice(0, end)` for an end of either sign: how many elements it takes. */
  function SliceEnd(length: nat, end: int): (n: nat)
    ensures n <= length
  {
    if end < 0 then (if length + end < 0 then 0 else length + end) else if end > length then length else end
  }

  class VersionManager {
    const collation: Comparator  // `localeCompare` with numeric collation
    var entries: seq<Entry>

    constructor (collation: Comparator, entries: seq<Entry>)
      ensures this.collation == collation && this.entries == entries
    {
      this.collation, this.entries := collation, entries;
    }

    function ListVersions(): seq<string>
      reads this
    {
      Sort(collation, Installed(entries))
    }

    /** Removing what is not there is no error. */
    method RemoveVersion(version: string)
      modifies this`entries
      ensures entries == Filter(Kept([version]), old(entries))
    {
      WithoutMeaning(entries, [version]);
      entries := Without(entries, [version]);
    }

    /** Whatever the number, the versions that remain are the listed ones after the slice, and nothing else is removed. */
    method CleanupOldVersions(keepCount: int)
      requires Lawful(collation) && DistinctNames(entries)
      modifies this`entries
      ensures ListVersions() == old(ListVersions())[SliceEnd(|old(ListVersions())|, -keepCount)..]
      ensures entries == Without(old(entries), old(ListVersions())[..SliceEnd(|old(ListVersions())|, -keepCount)])
      ensures keepCount > 0 ==> |ListVersions()| == if keepCount <= |old(ListVersions())| then keepCount else |old(ListVersions())|
      ensures keepCount <= 0 ==> |ListVersions()| == if -keepCount <= |old(ListVersions())| then |old(ListVersions())| + keepCount else 0
    {
      var versions := ListVersions();
      var toRemove := versions[..SliceEnd(|versions|, -keepCount)];
      WithoutNone(entries);
      for i := 0 to |toRemove|
        invariant entries == Without(old(entries), toRemove[..i])
      {
        WithoutMeaning(entries, [toRemove[i]]);
        RemoveVersion(toRemove[i]);
        WithoutMore(old(entries), toRemove[..i], toRemove[i]);
        assert toRemove[..i] + [toRemove[i]] == toRemove[..i + 1];
      }
      assert toRemove[..|toRemove|] == toRemove;
      ListWithoutFirst(collation, old(entries), |toRemove|);
    }
  }

  /** In order, and those that compare as equal to one another in the order of the directory. */
  ghost predicate Ascending(cmp: Comparator, xs: seq<string>, sorted: seq<string>) {
    && multiset(sorted) == multiset(xs)
    && Ordered(cmp, sorted)
    && forall x :: Filter(TiedWith(cmp, x), sorted) == Filter(TiedWith(cmp, x), xs)
  }

  lemma ListAscends(manager: VersionManager)
    requires Lawful(manager.collation)
    ensures Ascending(manager.collation, Installed(manager.entries), manager.ListVersions())
  {
    var cmp, xs := manager.collation, Installed(manager.entries);
    SortOrders(cmp, xs);
    forall x ensures Filter(TiedWith(cmp, x), Sort(cmp, xs)) == Filter(TiedWith(cmp, x), xs) {
      SortStable(cmp, xs, x);
    }
  }

  /** Every entry with another name stays, whatever it holds, and no other. */
  lemma {:induction false} WithoutMeaning(entries: seq<Entry>, removed: seq<string>)
    ensures Without(entries, removed) == Filter(Kept(removed), entries)
  {
    if entries != [] {
      WithoutMeaning(entries[1..], removed);
    }
  }

  lemma {:induction false} WithoutNone(entries: seq<Entry>)
    ensures Without(entries, []) == entries
  {
    if entries != [] {
      WithoutNone(entries[1..]);
    }
  }

  lemma {:induction false} WithoutMore(entries: seq<Entry>, removed: seq<string>, name: string)
    ensures Without(Without(entries, removed), [name]) == Without(entries, removed + [name])
  {
    if entries != [] {
      var rest := Without(entries[1..], removed);
      WithoutMore(entries[1..], removed, name);
      if entries[0].name in removed {
        assert [] + rest == rest;
      } else {
        assert ([entries[0]] + rest)[0] == entries[0] && ([entries[0]] + rest)[1..] == rest;
      }
    }
  }

  lemma {:induction false} InstalledWithout(entries: seq<Entry>, removed: seq<string>)
    ensures Installed(Without(entries, removed)) == Filter(Spared(removed), Installed(entries))
  {
    if entries != [] {
      var rest := Without(entries[1..], removed);
      var first := if entries[0].isDirectory && entries[0].runnable then [entries[0].name] else [];
      InstalledWithout(entries[1..], removed);
      FilterConcat(Spared(removed), first, Installed(entries[1..]));
      if entries[0].name in removed {
        assert [] + rest == rest && Filter(Spared(removed), first) == [];
      } else {
        assert ([entries[0]] + rest)[0] == entries[0] && ([entries[0]] + rest)[1..] == rest;
        assert Filter(Spared(removed), first) == first;
      }
    }
  }

  lemma {:induction false} InstalledDistinct(entries: seq<Entry>)
    requires DistinctNames(entries)
    ensures NoRepeats(Installed(entries))
    ensures forall x :: x in Installed(entries) ==> exists e :: e in entries && e.name == x
  {
    if entries != [] {
      InstalledDistinct(entries[1..]);
      var rest := Installed(entries[1..]);
      forall i | 0 <= i < |rest| ensures rest[i] != entries[0].name {
        assert rest[i] in rest;
        var e :| e in entries[1..] && e.name == rest[i];
      }
    }
  }

  lemma InsertDistinct(cmp: Comparator, x: string, s: seq<string>)
    requires NoRepeats(s) && x !in s
    ensures NoRepeats(Insert(cmp, x, s))
  {
    var k := Place(cmp, x, s);
  }

  lemma {:induction false} SortDistinct(cmp: Comparator, xs: seq<string>)
    requires NoRepeats(xs)
    ensures NoRepeats(Sort(cmp, xs))
    ensures forall x :: x in Sort(cmp, xs) <==> x in xs
  {
    if xs != [] {
      var rest := Sort(cmp, xs[1..]);
      SortDistinct(cmp, xs[1..]);
      assert xs[0] !in xs[1..];
      InsertDistinct(cmp, xs[0], rest);
      InsertPermutes(cmp, xs[0], rest);
      forall x ensures x in Sort(cmp, xs) <==> x in xs {
        assert x in Sort(cmp, xs) <==> x in multiset{xs[0]} + multiset(rest);
        assert x in xs <==> x == xs[0] || x in xs[1..];
      }
    }
  }

  lemma {:induction false} FilterNone(removed: seq<string>, xs: seq<string>)
    requires forall x :: x in xs ==> x in removed
    ensures Filter(Spared(removed), xs) == []
  {
    if xs != [] {
      FilterNone(removed, xs[1..]);
    }
  }

  lemma SparesTheRest(removed: seq<string>, rest: seq<string>)
    requires NoRepeats(removed + rest)
    ensures Filter(Spared(removed), removed + rest) == rest
  {
    forall i, j | 0 <= i < |removed| && 0 <= j < |rest| ensures removed[i] != rest[j] {
      assert (removed + rest)[i] == removed[i] && (removed + rest)[|removed| + j] == rest[j];
    }
    FilterConcat(Spared(removed), removed, rest);
    FilterNone(removed, removed);
    FilterAll(Spared(removed), rest);
    assert [] + rest == rest;
  }

  lemma SparesFrom(versions: seq<string>, n: nat)
    requires NoRepeats(versions) && n <= |versions|
    ensures Filter(Spared(versions[..n]), versions) == versions[n..]
  {
    assert versions[..n] + versions[n..] == versions;
    SparesTheRest(versions[..n], versions[n..]);
  }

  /** Removing the first listed versions leaves the others, listed in the same order. */
  lemma ListWithoutFirst(cmp: Comparator, entries: seq<Entry>, n: nat)
    requires Lawful(cmp) && DistinctNames(entries) && n <= |Sort(cmp, Installed(entries))|
    ensures var versions := Sort(cmp, Installed(entries));
      Sort(cmp, Installed(Without(entries, versions[..n]))) == versions[n..]
  {
    var versions := Sort(cmp, Installed(entries));
    InstalledWithout(entries, versions[..n]);
    SortFilter(cmp, Spared(versions[..n]), Installed(entries));
    InstalledDistinct(entries);
    SortDistinct(cmp, Installed(entries));
    SparesFrom(versions, n);
  }

  // The version the runner takes

  datatype Resolved = Home(path: string) | Managed(version: string)

  datatype ResolveError = NotFound(version: string) | NoVersions

  /** An environment variable, then an explicit version, then the first of the installed ones in descending order. */
  function ResolveCompactPath(home: string, version: Option<string>, cmp: Comparator, entries: seq<Entry>): Result<Resolved, ResolveError> {
    if home != "" then Ok(Home(home))
    else if version.Some? && version.value != "" then
      if exists e :: e in entries && e.name == version.value && e.runnable then Ok(Managed(version.value)) else Err(NotFound(version.value))
    else
      var versions := Sort(Flip(cmp), Installed(entries));
      if versions == [] then Err(NoVersions) else Ok(Managed(versions[0]))
  }

  /** An installed version is a directory with a compiler in it. */
  lemma {:induction false} InstalledIff(entries: seq<Entry>, name: string)
    ensures name in Installed(entries) <==> exists e :: e in entries && e.name == name && e.isDirectory && e.runnable
  {
    if entries != [] {
      InstalledIff(entries[1..], name);
      if e :| e in entries && e.name == name && e.isDirectory && e.runnable {
        assert e == entries[0] || e in entries[1..];
      }
    }
  }

  /** The environment variable decides if it is set, then the version that is asked for, if its compiler is there. */
  lemma ResolveMeaning(home: string, version: Option<string>, cmp: Comparator, entries: seq<Entry>)
    ensures home != "" ==> ResolveCompactPath(home, version, cmp, entries) == Ok(Home(home))
    ensures forall v :: home == "" && version == Some(v) && v != "" ==>
              && (ResolveCompactPath(home, version, cmp, entries) == Ok(Managed(v))
                  <==> exists i :: 0 <= i < |entries| && entries[i].name == v && entries[i].runnable)
              && (ResolveCompactPath(home, version, cmp, entries).Err?
                  ==> ResolveCompactPath(home, version, cmp, entries) == Err(NotFound(v)))
    ensures home == "" && (version == None || version == Some("")) ==>
              && (ResolveCompactPath(home, version, cmp, entries) == Err(NoVersions) <==> Installed(entries) == [])
              && (Installed(entries) != [] ==>
                    exists v :: v in Installed(entries) && ResolveCompactPath(home, version, cmp, entries) == Ok(Managed(v)))
  {
    SortSize(Flip(cmp), Installed(entries));
    assert forall e :: e in entries <==> exists i :: 0 <= i < |entries| && entries[i] == e;
  }

  function AtLeast(cmp: Comparator, m: string): string -> bool {
    (x: string) => cmp(m, x) <= 0
  }

  /** The installed versions, in directory order, that nothing comes after. */
  function Newest(cmp: Comparator, xs: seq<string>): seq<string>
    requires xs != []
  {
    SortSize(cmp, xs);
    Filter(AtLeast(cmp, Sort(cmp, xs)[|xs| - 1]), xs)
  }

  lemma {:induction false} SortSize(cmp: Comparator, xs: seq<string>)
    ensures |Sort(cmp, xs)| == |xs|
    ensures forall x :: x in Sort(cmp, xs) <==> x in xs
  {
    if xs != [] {
      SortSize(cmp, xs[1..]);
      InsertPermutes(cmp, xs[0], Sort(cmp, xs[1..]));
      var k := Place(cmp, xs[0], Sort(cmp, xs[1..]));
      forall x ensures x in Sort(cmp, xs) <==> x in xs {
        assert x in Sort(cmp, xs) <==> x in multiset{xs[0]} + multiset(Sort(cmp, xs[1..]));
        assert x in xs <==> x == xs[0] || x in xs[1..];
      }
    }
  }

  lemma FlipLawful(cmp: Comparator)
    requires Lawful(cmp)
    ensures Lawful(Flip(cmp))
  {
  }

  lemma Tied(cmp: Comparator, m: string, a: string, b: string)
    requires Lawful(cmp) && cmp(a, m) <= 0 && cmp(m, a) <= 0 && cmp(b, m) <= 0 && cmp(m, b) <= 0
    ensures cmp(a, b) == 0 && Flip(cmp)(a, b) == 0
  {
    AtMost(cmp, a, m, b);
    AtMost(cmp, b, m, a);
  }

  /** Nothing comes after the last element of the sorted list. */
  lemma LastIsMax(cmp: Comparator, xs: seq<string>, x: string)
    requires Lawful(cmp) && x in xs
    ensures |Sort(cmp, xs)| == |xs| && cmp(x, Sort(cmp, xs)[|xs| - 1]) <= 0
  {
    SortOrders(cmp, xs);
    SortSize(cmp, xs);
    var s := Sort(cmp, xs);
    var i :| 0 <= i < |s| && s[i] == x;
    if i == |s| - 1 {
      assert cmp(x, x) <= 0;
    }
  }

  /** The newest versions all compare as equal, so every sort leaves them in directory order. */
  lemma NewestStay(cmp: Comparator, xs: seq<string>)
    requires Lawful(cmp) && xs != []
    ensures Sort(cmp, Newest(cmp, xs)) == Newest(cmp, xs) && Sort(Flip(cmp), Newest(cmp, xs)) == Newest(cmp, xs)
  {
    SortSize(cmp, xs);
    var m := Sort(cmp, xs)[|xs| - 1];
    FilterMembers(AtLeast(cmp, m), xs);
    forall a, b | a in Newest(cmp, xs) && b in Newest(cmp, xs) ensures cmp(a, b) == 0 && Flip(cmp)(a, b) == 0 {
      LastIsMax(cmp, xs, a);
      LastIsMax(cmp, xs, b);
      Tied(cmp, m, a, b);
    }
    SortTied(cmp, Newest(cmp, xs));
    SortTied(Flip(cmp), Newest(cmp, xs));
  }

  /** The list ends with the given part, and that is everything its last element does not come after. */
  predicate EndsWith(cmp: Comparator, s: seq<string>, newest: seq<string>) {
    && 1 <= |newest| <= |s| && s[|s| - |newest|..] == newest
    && forall i :: 0 <= i < |s| ==> (i < |s| - |newest| <==> Below(cmp, s[|s| - 1])(s[i]))
  }

  predicate EndsInNewest(cmp: Comparator, xs: seq<string>)
    requires xs != []
  {
    |Sort(cmp, xs)| == |xs| && EndsWith(cmp, Sort(cmp, xs), Newest(cmp, xs))
  }

  function Below(cmp: Comparator, m: string): string -> bool {
    (x: string) => cmp(m, x) > 0
  }

  lemma TopStaysTop(cmp: Comparator, m: string, s: seq<string>)
    requires Lawful(cmp)
    ensures forall a, b :: a in s && b in s && AtLeast(cmp, m)(a) && cmp(a, b) <= 0 ==> AtLeast(cmp, m)(b)
  {
    forall a, b | a in s && b in s && AtLeast(cmp, m)(a) && cmp(a, b) <= 0 ensures AtLeast(cmp, m)(b) {
      AtMost(cmp, m, a, b);
    }
  }

  lemma EndOfSplit(cmp: Comparator, s: seq<string>, newest: seq<string>)
    requires 1 <= |newest| <= |s| && s[|s| - |newest|..] == newest
    requires forall x :: x in newest ==> AtLeast(cmp, s[|s| - 1])(x)
    requires forall i :: 0 <= i < |s| - |newest| ==> !AtLeast(cmp, s[|s| - 1])(s[i])
    ensures EndsWith(cmp, s, newest)
  {
    forall i | |s| - |newest| <= i < |s| ensures !Below(cmp, s[|s| - 1])(s[i]) {
      assert newest[i - (|s| - |newest|)] == s[i] && s[i] in newest;
    }
    forall i | 0 <= i < |s| - |newest| ensures Below(cmp, s[|s| - 1])(s[i]) {
      assert !AtLeast(cmp, s[|s| - 1])(s[i]);
    }
  }

  /** The newest versions are what the sorted list ends with, in the same order. */
  lemma NewestOfSorted(cmp: Comparator, xs: seq<string>)
    requires Lawful(cmp) && xs != []
    ensures var s := Sort(cmp, xs);
      |s| == |xs| && Filter(AtLeast(cmp, s[|s| - 1]), s) == Newest(cmp, xs) && Newest(cmp, xs) != []
  {
    var s := Sort(cmp, xs);
    SortSize(cmp, xs);
    var m := s[|xs| - 1];
    SortFilter(cmp, AtLeast(cmp, m), xs);
    NewestStay(cmp, xs);
    LastIsMax(cmp, xs, m);
    FilterMembers(AtLeast(cmp, m), xs);
    assert m in Newest(cmp, xs);
  }

  /** They end the ascending list. */
  lemma NewestLast(cmp: Comparator, xs: seq<string>)
    requires Lawful(cmp) && xs != []
    ensures EndsInNewest(cmp, xs)
  {
    var s := Sort(cmp, xs);
    NewestOfSorted(cmp, xs);
    SortOrders(cmp, xs);
    var top := AtLeast(cmp, s[|s| - 1]);
    TopStaysTop(cmp, s[|s| - 1], s);
    OrderedSplit(cmp, top, s);
    FilterMembers(top, s);
    EndOfSplit(cmp, s, Newest(cmp, xs));
  }

  /** The first of them begins the descending list. */
  lemma NewestFirst(cmp: Comparator, xs: seq<string>)
    requires Lawful(cmp) && xs != []
    ensures |Sort(Flip(cmp), xs)| == |xs| && Newest(cmp, xs) != [] && Sort(Flip(cmp), xs)[0] == Newest(cmp, xs)[0]
  {
    var d := Sort(Flip(cmp), xs);
    SortSize(cmp, xs);
    SortSize(Flip(cmp), xs);
    var m := Sort(cmp, xs)[|xs| - 1];
    var top := AtLeast(cmp, m);
    FlipLawful(cmp);
    LastIsMax(Flip(cmp), xs, m);
    FirstBefore(Flip(cmp), xs, m);
    SortFilter(Flip(cmp), top, xs);
    NewestStay(cmp, xs);
    assert top(d[0]);
    assert Filter(top, d)[0] == d[0];
  }

  lemma FirstBefore(cmp: Comparator, xs: seq<string>, x: string)
    requires Lawful(cmp) && x in xs
    ensures |Sort(cmp, xs)| == |xs| && cmp(Sort(cmp, xs)[0], x) <= 0
  {
    SortOrders(cmp, xs);
    SortSize(cmp, xs);
    var s := Sort(cmp, xs);
    var i :| 0 <= i < |s| && s[i] == x;
    if i == 0 {
      assert cmp(x, x) <= 0;
    }
  }

  /** The version the runner takes without further instruction. */
  function Latest(cmp: Comparator, entries: seq<Entry>): Option<string> {
    match ResolveCompactPath("", None, cmp, entries)
    case Ok(Managed(version)) => Some(version)
    case _ => None
  }

  /** Where a list is cut in two, so is each of its ends. */
  lemma CutOfSuffix(low: string -> bool, s: seq<string>, j: nat, a: nat, b: nat)
    requires j < |s| && a <= |s| && b <= |s| - j
    requires forall i :: 0 <= i < |s| ==> (i < |s| - a <==> low(s[i]))
    requires forall i :: 0 <= i < |s| - j ==> (i < |s| - j - b <==> low(s[j..][i]))
    ensures b == if a <= |s| - j then a else |s| - j
  {
    assert forall i :: 0 <= i < |s| - j ==> s[j..][i] == s[j + i];
    if a <= |s| - j {
      if a > 0 {
        assert !low(s[j..][|s| - j - a]);
      }
      if a < |s| - j {
        assert low(s[j..][|s| - j - a - 1]);
      }
    } else {
      assert !low(s[j..][0]);
    }
  }

  /** The newest versions of a list's end. */
  lemma SuffixNewest(cmp: Comparator, s: seq<string>, j: nat, newest: seq<string>, newest': seq<string>)
    requires j < |s| && EndsWith(cmp, s, newest) && EndsWith(cmp, s[j..], newest')
    ensures |newest'| == if |newest| <= |s| - j then |newest| else |s| - j
    ensures newest[0] == s[|s| - |newest|] && newest'[0] == s[|s| - |newest'|]
  {
    var t := s[j..];
    assert t[|t| - 1] == s[|s| - 1];
    assert t[|t| - |newest'|] == s[|s| - |newest'|];
    CutOfSuffix(Below(cmp, s[|s| - 1]), s, j, |newest|, |newest'|);
  }

  /** The runner takes the first of the newest versions. */
  lemma LatestIsNewest(cmp: Comparator, entries: seq<Entry>)
    requires Lawful(cmp) && Installed(entries) != []
    ensures Newest(cmp, Installed(entries)) != [] && Latest(cmp, entries) == Some(Newest(cmp, Installed(entries))[0])
  {
    NewestFirst(cmp, Installed(entries));
  }

  lemma NewestOfSuffix(cmp: Comparator, xs: seq<string>, ys: seq<string>, j: nat)
    requires Lawful(cmp) && xs != [] && NoRepeats(Sort(cmp, xs)) && j < |Sort(cmp, xs)| && Sort(cmp, ys) == Sort(cmp, xs)[j..]
    ensures ys != [] && Newest(cmp, ys) != [] && Newest(cmp, xs) != [] && |Sort(cmp, xs)| == |xs|
    ensures Newest(cmp, ys)[0] == Newest(cmp, xs)[0] <==> |xs| - j >= |Newest(cmp, xs)|
  {
    SortSize(cmp, ys);
    NewestLast(cmp, xs);
    NewestLast(cmp, ys);
    SuffixNewest(cmp, Sort(cmp, xs), j, Newest(cmp, xs), Newest(cmp, ys));
  }

  /**
    Clean-up leaves the runner's latest version alone exactly when it keeps as many versions as there are newest ones;
    with no ties, always.
   */
  lemma LatestKeptIff(cmp: Comparator, entries: seq<Entry>, keep: int)
    requires Lawful(cmp) && DistinctNames(entries) && keep > 0 && Installed(entries) != []
    ensures var versions := Sort(cmp, Installed(entries));
      var after := Without(entries, versions[..SliceEnd(|versions|, -keep)]);
      Latest(cmp, after) == Latest(cmp, entries) <==> keep >= |Newest(cmp, Installed(entries))|
  {
    var xs := Installed(entries);
    var versions := Sort(cmp, xs);
    var j := SliceEnd(|versions|, -keep);
    var after := Without(entries, versions[..j]);
    SortSize(cmp, xs);
    ListWithoutFirst(cmp, entries, j);
    InstalledDistinct(entries);
    SortDistinct(cmp, xs);
    NewestOfSuffix(cmp, xs, Installed(after), j);
    LatestIsNewest(cmp, entries);
    LatestIsNewest(cmp, after);
    NewestLast(cmp, xs);
  }

  function Version(name: string): Entry {
    Entry(name, true, true)
  }

  lemma SortOne(cmp: Comparator, a: string)
    ensures Sort(cmp, [a]) == [a]
  {
    assert [a][1..] == [];
    InsertFront(cmp, a, []);
  }

  lemma PairInOrder(cmp: Comparator, a: string, b: string)
    requires cmp(a, b) <= 0
    ensures Sort(cmp, [a, b]) == [a, b]
  {
    SortOne(cmp, b);
    assert [a, b][1..] == [b];
    InsertFront(cmp, a, [b]);
  }

  lemma TwoVersions(a: string, b: string)
    ensures Installed([Version(b)]) == [b] && Installed([Version(a), Version(b)]) == [a, b]
    ensures a != b ==> Without([Version(a), Version(b)], [a]) == [Version(b)]
  {
    assert [Version(b)][1..] == [] && [Version(a), Version(b)][1..] == [Version(b)];
    if a != b {
      assert Without([Version(b)], [a]) == [Version(b)];
    }
  }

  /** Keeping one of two tied versions deletes the one the runner takes, under whatever names and comparator. */
  lemma TieLosesLatest(cmp: Comparator, a: string, b: string)
    requires Lawful(cmp) && a != b && cmp(a, b) == 0
    ensures var entries := [Version(a), Version(b)];
      var versions := Sort(cmp, Installed(entries));
      && Latest(cmp, entries) == Some(a)
      && Latest(cmp, Without(entries, versions[..SliceEnd(|versions|, -1)])) == Some(b)
  {
    AtMost(cmp, a, b, b);
    FirstOfTied(cmp, a, b);
    FirstOfTied(Flip(cmp), a, b);
  }

  lemma FirstOfTied(cmp: Comparator, a: string, b: string)
    requires cmp(a, b) <= 0 && cmp(b, a) <= 0 && a != b
    ensures Sort(cmp, Installed([Version(a), Version(b)])) == [a, b] && [a, b][..SliceEnd(2, -1)] == [a]
    ensures Latest(cmp, [Version(a), Version(b)]) == Some(a)
    ensures Latest(cmp, Without([Version(a), Version(b)], [a])) == Some(b)
  {
    TwoVersions(a, b);
    PairInOrder(cmp, a, b);
    PairInOrder(Flip(cmp), a, b);
    LatestFirst(cmp, [Version(a), Version(b)], [a, b]);
    SortOne(Flip(cmp), b);
    LatestFirst(cmp, [Version(b)], [b]);
    assert SliceEnd(2, -1) == 1 && [a, b][..1] == [a];
  }

  lemma LatestFirst(cmp: Comparator, entries: seq<Entry>, versions: seq<string>)
    requires Sort(Flip(cmp), Installed(entries)) == versions && versions != []
    ensures Latest(cmp, entries) == Some(versions[0])
  {
  }

  predicate NoTies(cmp: Comparator, xs: seq<string>) {
    forall a, b :: a in xs && b in xs && cmp(a, b) == 0 ==> a == b
  }

  lemma OneNewest(cmp: Comparator, xs: seq<string>)
    requires Lawful(cmp) && xs != [] && NoRepeats(xs) && NoTies(cmp, xs)
    ensures |Newest(cmp, xs)| == 1
  {
    var s := Sort(cmp, xs);
    NewestLast(cmp, xs);
    if |Newest(cmp, xs)| > 1 {
      SortSize(cmp, xs);
      SortDistinct(cmp, xs);
      var a, b := s[|s| - 2], s[|s| - 1];
      assert a in xs && b in xs;
      LastIsMax(cmp, xs, a);
      LastIsMax(cmp, xs, b);
      Tied(cmp, b, a, b);
    }
  }

  /** Without ties the latest version is the last listed one, and every clean-up keeps it. */
  lemma LatestKeptWithoutTies(cmp: Comparator, entries: seq<Entry>, keep: int)
    requires Lawful(cmp) && DistinctNames(entries) && keep > 0 && Installed(entries) != [] && NoTies(cmp, Installed(entries))
    ensures var versions := Sort(cmp, Installed(entries));
      && versions != [] && Latest(cmp, entries) == Some(versions[|versions| - 1])
      && Latest(cmp, Without(entries, versions[..SliceEnd(|versions|, -keep)])) == Latest(cmp, entries)
  {
    InstalledDistinct(entries);
    OneNewest(cmp, Installed(entries));
    LatestKeptIff(cmp, entries, keep);
    NewestLast(cmp, Installed(entries));
    LatestIsNewest(cmp, entries);
  }

  // The command line

  datatype FetchOptions = FetchOptions(help: bool, force: bool, version: Option<string>, listVersions: bool, cleanup: Option<int>)

  predicate StartsWith(s: string, prefix: string) {
    prefix <= s
  }

  /** The text between the first equals sign and the second. */
  function AfterEquals(s: string): string {
    if s == "" then "" else if s[0] == '=' then UpToEquals(s[1..]) else AfterEquals(s[1..])
  }

  function UpToEquals(s: string): string {
    if s == "" || s[0] == '=' then "" else [s[0]] + UpToEquals(s[1..])
  }

  function TrimStart(s: string): string {
    if s != "" && IsWhiteSpace(s[0]) then TrimStart(s[1..]) else s
  }

  /** `parseInt(text, 10)`: `None` is NaN. Whatever follows the digits is ignored. */
  function ParseInt(text: string): Option<int> {
    var t := TrimStart(text);
    var negative := t != "" && t[0] == '-';
    var rest := if t != "" && (t[0] == '-' || t[0] == '+') then t[1..] else t;
    var n := DigitRun(rest, 10);
    if n == 0 then None else Some(Value(rest[..n], 10) * if negative then -1 else 1)
  }

  /** The positive number an argument asks to keep, if it is a clean-up argument that has one. */
  function CleanupOf(arg: string): Option<int> {
    if !StartsWith(arg, "--cleanup=") then None
    else
      match ParseInt(AfterEquals(arg))
      case Some(n) => if n > 0 then Some(n) else None
      case None => None
  }

  lemma {:induction false} UpToEqualsMeaning(v: string, rest: string)
    requires '=' !in v && (rest == "" || rest[0] == '=')
    ensures UpToEquals(v + rest) == v
  {
    if v == "" {
      assert v + rest == rest;
    } else {
      assert (v + rest)[0] == v[0] && (v + rest)[1..] == v[1..] + rest;
      UpToEqualsMeaning(v[1..], rest);
    }
  }

  /** The second of the parts that the equals signs separate. */
  lemma {:induction false} AfterEqualsMeaning(front: string, v: string, rest: string)
    requires '=' !in front && '=' !in v && (rest == "" || rest[0] == '=')
    ensures AfterEquals(front + ("=" + (v + rest))) == v
  {
    var s := front + ("=" + (v + rest));
    if front == "" {
      assert s[0] == '=' && s[1..] == v + rest;
      UpToEqualsMeaning(v, rest);
    } else {
      assert s[0] == front[0] && s[1..] == front[1..] + ("=" + (v + rest));
      AfterEqualsMeaning(front[1..], v, rest);
    }
  }

  lemma {:induction false} TrimStartMeaning(before: string, t: string)
    requires Blank(before) && (t == "" || !IsWhiteSpace(t[0]))
    ensures TrimStart(before + t) == t
  {
    if before == "" {
      assert before + t == t;
    } else {
      assert (before + t)[0] == before[0] && (before + t)[1..] == before[1..] + t;
      TrimStartMeaning(before[1..], t);
    }
  }

  lemma SignedDigits(sign: string, digits: string, rest: string)
    requires sign in {"", "+", "-"} && AllDigits(digits, 10) && (rest == "" || !IsDigit(rest[0], 10))
    requires sign == "" && digits == "" && rest != "" ==> rest[0] != '+' && rest[0] != '-'
    ensures var t := sign + (digits + rest);
      (if t != "" && (t[0] == '-' || t[0] == '+') then t[1..] else t) == digits + rest && (t != "" && t[0] == '-' <==> sign == "-")
  {
    assert digits != "" ==> IsDigit(digits[0], 10) && (digits + rest)[0] == digits[0];
    assert digits == "" ==> digits + rest == rest;
    assert sign == "" ==> sign + (digits + rest) == digits + rest;
    assert sign != "" ==> (sign + (digits + rest))[0] == sign[0] && (sign + (digits + rest))[1..] == digits + rest;
  }

  lemma NotBlank(sign: string, digits: string, rest: string)
    requires sign in {"", "+", "-"} && AllDigits(digits, 10)
    requires sign == "" && digits == "" && rest != "" ==> !IsWhiteSpace(rest[0])
    ensures var t := sign + (digits + rest); t == "" || !IsWhiteSpace(t[0])
  {
    var t := sign + (digits + rest);
    if sign != "" {
      assert t[0] == sign[0];
    } else if digits != "" {
      assert IsDigit(digits[0], 10) && t[0] == digits[0];
    } else {
      assert t == rest;
    }
  }

  /** The number in the digits behind white space and a sign; NaN if there is no digit. */
  lemma ParseIntMeaning(before: string, sign: string, digits: string, rest: string)
    requires Blank(before) && sign in {"", "+", "-"} && AllDigits(digits, 10)
    requires rest == "" || !IsDigit(rest[0], 10)
    requires sign == "" && digits == "" && rest != "" ==> !IsWhiteSpace(rest[0]) && rest[0] != '+' && rest[0] != '-'
    ensures ParseInt(before + (sign + (digits + rest)))
            == if digits == "" then None else Some(Value(digits, 10) * if sign == "-" then -1 else 1)
  {
    NotBlank(sign, digits, rest);
    TrimStartMeaning(before, sign + (digits + rest));
    SignedDigits(sign, digits, rest);
    DigitRunOf(digits, rest, 10);
    assert (digits + rest)[..|digits|] == digits;
  }

  lemma CountAfterEquals(digits: string)
    requires AllDigits(digits, 10)
    ensures AfterEquals("--cleanup=" + digits) == digits
  {
    assert digits + "" == digits && "--cleanup=" + digits == "--cleanup" + ("=" + (digits + ""));
    forall i | 0 <= i < |digits| ensures digits[i] != '=' {
      assert IsDigit(digits[i], 10);
    }
    AfterEqualsMeaning("--cleanup", digits, "");
  }

  lemma CountParsed(digits: string)
    requires digits != "" && AllDigits(digits, 10)
    ensures ParseInt(digits) == Some(Value(digits, 10))
  {
    assert "" + ("" + (digits + "")) == digits;
    ParseIntMeaning("", "", digits, "");
  }

  lemma CleanupCount(n: nat)
    ensures ParseInt(AfterEquals("--cleanup=" + Print(n))) == Some(n)
  {
    PrintDigits(n);
    ValuePrint(n);
    CountAfterEquals(Print(n));
    CountParsed(Print(n));
  }

  /** A printed positive number is the count that a clean-up argument asks for. */
  lemma CleanupArgument(options: FetchOptions, n: nat)
    ensures WithArg(options, "--cleanup=" + Print(n)) == if n > 0 then options.(cleanup := Some(n)) else options
  {
    CleanupCount(n);
    FlagsApart("--cleanup=" + Print(n));
  }

  /** A version argument names what stands between its first equals sign and the next. */
  lemma VersionArgument(options: FetchOptions, v: string, rest: string)
    requires '=' !in v && (rest == "" || rest[0] == '=')
    ensures WithArg(options, "--version=" + (v + rest)) == options.(version := Some(v))
  {
    var arg := "--version=" + (v + rest);
    assert arg == "--version" + ("=" + (v + rest));
    AfterEqualsMeaning("--version", v, rest);
    FlagsApart(arg);
  }

  lemma FlagsApart(arg: string)
    requires |arg| >= 10 && arg[9] == '='
    ensures arg != "--help" && arg != "--force" && arg != "--list-versions"
    ensures StartsWith(arg, "--version=") ==> !StartsWith(arg, "--cleanup=")
  {
    OneFlagEach(arg);
  }

  /** The last argument that asks for a clean-up decides. */
  function LastCleanup(args: seq<string>): (n: Option<int>)
    ensures n.Some? ==> n.value > 0
  {
    if args == [] then None
    else if CleanupOf(args[|args| - 1]).Some? then CleanupOf(args[|args| - 1])
    else LastCleanup(args[..|args| - 1])
  }

  /** The last argument that names a version decides. */
  function LastVersion(args: seq<string>): Option<string> {
    if args == [] then None
    else if StartsWith(args[|args| - 1], "--version=") then Some(AfterEquals(args[|args| - 1]))
    else LastVersion(args[..|args| - 1])
  }

  /** What one argument does to the options. */
  function WithArg(options: FetchOptions, arg: string): FetchOptions {
    if arg == "--help" then options.(help := true)
    else if arg == "--force" then options.(force := true)
    else if StartsWith(arg, "--version=") then options.(version := Some(AfterEquals(arg)))
    else if arg == "--list-versions" then options.(listVersions := true)
    else if StartsWith(arg, "--cleanup=") then
      var value := ParseInt(AfterEquals(arg));
      if value.Some? && value.value > 0 then options.(cleanup := value) else options
    else options
  }

  lemma OneFlagEach(arg: string)
    ensures StartsWith(arg, "--version=") ==> arg[2] == 'v'
    ensures StartsWith(arg, "--cleanup=") ==> arg[2] == 'c'
  {
  }

  lemma WithArgMeaning(options: FetchOptions, arg: string)
    ensures WithArg(options, arg).cleanup == if CleanupOf(arg).Some? then CleanupOf(arg) else options.cleanup
    ensures WithArg(options, arg).version == if StartsWith(arg, "--version=") then Some(AfterEquals(arg)) else options.version
    ensures WithArg(options, arg).help == (options.help || arg == "--help")
    ensures WithArg(options, arg).force == (options.force || arg == "--force")
    ensures WithArg(options, arg).listVersions == (options.listVersions || arg == "--list-versions")
  {
    OneFlagEach(arg);
  }

  /** A clean-up count, where there is one, is positive, and comes from the last argument that gives one. */
  method ParseArgs(args: seq<string>) returns (options: FetchOptions)
    ensures options.cleanup == LastCleanup(args)
    ensures options.cleanup.Some? ==> options.cleanup.value > 0
    ensures options.version == LastVersion(args)
    ensures options.help <==> "--help" in args
    ensures options.force <==> "--force" in args
    ensures options.listVersions <==> "--list-versions" in args
  {
    options := FetchOptions(false, false, None, false, None);
    for i := 0 to |args|
      invariant options.cleanup == LastCleanup(args[..i])
      invariant options.version == LastVersion(args[..i])
      invariant options.help <==> "--help" in args[..i]
      invariant options.force <==> "--force" in args[..i]
      invariant options.listVersions <==> "--list-versions" in args[..i]
    {
      WithArgMeaning(options, args[i]);
      options := WithArg(options, args[i]);
      assert args[..i + 1] == args[..i] + [args[i]] && args[..i + 1][..i] == args[..i];
    }
    assert args[..|args|] == args;
  }
}
