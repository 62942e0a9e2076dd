/**
  Where grouping and order do show: a full bucket of equal cells, and minutes of a newcomer that the cap
  folds away. The residue then depends on how the folds are grouped and in which order they come, and so
  do the users of the newcomer once it has come back; nothing else does.
*/
module CensusPastTheCap {
  import opened Census
  import opened CensusMerge
  import opened CensusOverflow
  import opened CensusLeaders
  import opened CensusPeaks
  import opened CensusSums

  const IOS := Key("ios", "1")

  // The newcomer later: more devices, fewer users.
  const RETURNED := Census(4, 1, [Group("ios", "1", 4, 1)])

  // Three devices and three users in every cell.
  predicate Uniform(m: CellMap) {
    forall k :: k in m ==> m[k] == Counts(3, 3)
  }

  function Threes(n: nat): (c: Counts) {
    Counts(3 * n, 3 * n)
  }

  // A full bucket; one that has folded the newcomer `k` away; and one that holds it.
  predicate Full(s: CellMap, cap: nat, k: Key) {
    |s| == cap && k !in s && RESIDUE !in s && Uniform(s)
  }

  predicate Without(s: CellMap, cap: nat, k: Key, residue: Counts) {
    && |s| == cap && k !in s && RESIDUE in s && s[RESIDUE] == residue
    && Uniform(s - {RESIDUE})
  }

  predicate With(s: CellMap, cap: nat, k: Key, newcomer: Counts, residue: Counts) {
    && |s| == cap && k in s && s[k] == newcomer && RESIDUE in s && s[RESIDUE] == residue
    && Uniform(s - {k, RESIDUE})
  }

  // ---------- Sums ----------

  lemma {:induction false} UniformSum(m: CellMap)
    requires Uniform(m)
    ensures CellSum(m) == Threes(|m|)
    decreases |m|
  {
    if m == map[] {
      assert ToGroups(m) == [];
    } else {
      var k :| k in m;
      CellSumWithout(m, k);
      UniformSum(m - {k});
    }
  }

  lemma SumWithout(s: CellMap, r: Key)
    requires r in s && Uniform(s - {r})
    ensures CellSum(s) == AddCounts(Threes(|s| - 1), s[r])
  {
    CellSumWithout(s, r);
    UniformSum(s - {r});
  }

  lemma SumWith(s: CellMap, k: Key)
    requires k in s && RESIDUE in s && k != RESIDUE && Uniform(s - {k, RESIDUE})
    ensures |s| >= 2 && CellSum(s) == AddCounts(AddCounts(Threes(|s| - 2), s[k]), s[RESIDUE])
  {
    var named := s - {RESIDUE};
    CellSumWithout(s, RESIDUE);
    WithoutTwo(s, k, RESIDUE);
    SumWithout(named, k);
    assert |named| == |s| - 1 && |named| >= 1;
  }

  lemma WithoutTwo<K, V>(m: map<K, V>, k: K, r: K)
    ensures m - {r} - {k} == m - {k, r}
    ensures k !in m ==> m - {r} == m - {k, r}
  {}

  lemma PutAside<K, V>(m: map<K, V>, k: K, v: V, r: K)
    requires k !in m
    ensures m[k := v] - {k, r} == m - {r} && |m[k := v]| == |m| + 1
    ensures r !in m ==> m[k := v] - {k, r} == m
  {}

  // ---------- The cap on such buckets ----------

  // One cell too many, the newcomer among them.
  predicate OneTooMany(x: CellMap, cap: nat, k: Key) {
    |x| == cap + 1 && k in x && k != RESIDUE && Uniform(x - {k, RESIDUE})
  }

  lemma OtherIsThree(x: CellMap, k: Key, j: Key)
    requires Uniform(x - {k, RESIDUE}) && j in x && j != k && j != RESIDUE
    ensures x[j] == Counts(3, 3)
  {
    assert j in x - {k, RESIDUE};
  }

  lemma SmallDoesNotLead(x: CellMap, cap: nat, k: Key)
    requires OneTooMany(x, cap, k) && x[k].devices < 3
    ensures !Leads(x, cap, k)
  {
    var others := x.Keys - {k, RESIDUE};
    assert |others| >= |x.Keys| - 2 && |x.Keys| == |x|;
    forall j | j in others ensures j in Ahead(x, k) { OtherIsThree(x, k, j); }
    SubsetSize(others, Ahead(x, k));
  }

  lemma LargeLeads(x: CellMap, cap: nat, k: Key)
    requires OneTooMany(x, cap, k) && cap >= 2 && x[k].devices > 3
    ensures Leads(x, cap, k)
  {
    forall j | j in x && j != RESIDUE && j != k ensures j !in Ahead(x, k) { OtherIsThree(x, k, j); }
    assert Ahead(x, k) == {};
  }

  lemma NamedStayUniform(x: CellMap, cap: nat, k: Key)
    requires OneTooMany(x, cap, k) && cap >= 1
    ensures var s := Cut(x, cap);
      && |s| == cap && RESIDUE in s && Uniform(s - {k, RESIDUE})
      && (k in s <==> Leads(x, cap, k)) && (k in s ==> s[k] == x[k])
  {
    CutKeepsTheLeaders(x, cap);
    var s := Cut(x, cap);
    assert |s.Keys| == |s| && RESIDUE !in Leaders(x, cap);
    forall j | j in s - {k, RESIDUE} ensures s[j] == Counts(3, 3) {
      assert j in Leaders(x, cap);
      OtherIsThree(x, k, j);
    }
  }

  lemma SameAddend(a: Counts, b: Counts, c: Counts)
    requires AddCounts(a, b) == AddCounts(a, c)
    ensures b == c
  {}

  lemma SmallIsFolded(x: CellMap, cap: nat, k: Key, residue: Counts)
    requires OneTooMany(x, cap, k) && cap >= 1 && x[k].devices < 3
    requires CellSum(x) == AddCounts(Threes(cap - 1), residue)
    ensures Without(Cut(x, cap), cap, k, residue)
  {
    var s := Cut(x, cap);
    SmallDoesNotLead(x, cap, k);
    NamedStayUniform(x, cap, k);
    WithoutTwo(s, k, RESIDUE);
    CutSum(x, cap);
    SumWithout(s, RESIDUE);
    SameAddend(Threes(cap - 1), s[RESIDUE], residue);
  }

  lemma LargeIsKept(x: CellMap, cap: nat, k: Key, residue: Counts)
    requires OneTooMany(x, cap, k) && cap >= 2 && x[k].devices > 3
    requires CellSum(x) == AddCounts(AddCounts(Threes(cap - 2), x[k]), residue)
    ensures With(Cut(x, cap), cap, k, x[k], residue)
  {
    var s := Cut(x, cap);
    LargeLeads(x, cap, k);
    NamedStayUniform(x, cap, k);
    CutSum(x, cap);
    SumWith(s, k);
    SameAddend(AddCounts(Threes(cap - 2), x[k]), s[RESIDUE], residue);
  }

  // ---------- Minutes of the newcomer ----------

  lemma Added(s: CellMap, k: Key, c: Counts)
    requires k !in s
    ensures MaxCells(s, map[k := c]) == s[k := c]
  {
    var l, r := MaxCells(s, map[k := c]), s[k := c];
    assert l.Keys == r.Keys;
    forall j | j in l ensures l[j] == r[j] {}
  }

  lemma FullPlusOne(s: CellMap, cap: nat, k: Key, c: Counts)
    requires Full(s, cap, k) && k != RESIDUE
    ensures OneTooMany(s[k := c], cap, k) && CellSum(s[k := c]) == AddCounts(Threes(cap), c)
  {
    UniformSum(s);
    CellSumWith(s, k, c);
    PutAside(s, k, c, RESIDUE);
  }

  lemma WithoutPlusOne(s: CellMap, cap: nat, k: Key, residue: Counts, c: Counts)
    requires Without(s, cap, k, residue) && k != RESIDUE
    ensures OneTooMany(s[k := c], cap, k)
    ensures cap >= 1 && CellSum(s[k := c]) == AddCounts(AddCounts(Threes(cap - 1), residue), c)
  {
    SumWithout(s, RESIDUE);
    CellSumWith(s, k, c);
    PutAside(s, k, c, RESIDUE);
  }

  // What a minute of `c` leaves of each.
  lemma FullFoldsSmall(s: CellMap, cap: nat, k: Key, c: Counts)
    requires Full(s, cap, k) && k != RESIDUE && cap >= 1 && c.devices < 3
    ensures Without(Cut(MaxCells(s, map[k := c]), cap), cap, k, AddCounts(Threes(1), c))
  {
    Added(s, k, c);
    FullPlusOne(s, cap, k, c);
    SmallIsFolded(s[k := c], cap, k, AddCounts(Threes(1), c));
  }

  lemma WithoutFoldsSmall(s: CellMap, cap: nat, k: Key, residue: Counts, c: Counts)
    requires Without(s, cap, k, residue) && k != RESIDUE && c.devices < 3
    ensures Without(Cut(MaxCells(s, map[k := c]), cap), cap, k, AddCounts(residue, c))
  {
    Added(s, k, c);
    WithoutPlusOne(s, cap, k, residue, c);
    SmallIsFolded(s[k := c], cap, k, AddCounts(residue, c));
  }

  lemma FullFoldsLarge(s: CellMap, cap: nat, k: Key, c: Counts)
    requires Full(s, cap, k) && k != RESIDUE && cap >= 2 && c.devices > 3
    ensures With(Cut(MaxCells(s, map[k := c]), cap), cap, k, c, Threes(2))
  {
    Added(s, k, c);
    FullPlusOne(s, cap, k, c);
    LargeIsKept(s[k := c], cap, k, Threes(2));
  }

  lemma WithoutFoldsLarge(s: CellMap, cap: nat, k: Key, residue: Counts, c: Counts)
    requires Without(s, cap, k, residue) && k != RESIDUE && cap >= 2 && c.devices > 3
    ensures With(Cut(MaxCells(s, map[k := c]), cap), cap, k, c, AddCounts(residue, Threes(1)))
  {
    Added(s, k, c);
    WithoutPlusOne(s, cap, k, residue, c);
    LargeIsKept(s[k := c], cap, k, AddCounts(residue, Threes(1)));
  }

  lemma WithFolds(s: CellMap, cap: nat, k: Key, had: Counts, residue: Counts, c: Counts)
    requires With(s, cap, k, had, residue) && k != RESIDUE && cap >= 1
    ensures With(Cut(MaxCells(s, map[k := c]), cap), cap, k, MaxCounts(had, c), residue)
  {
    var x := MaxCells(s, map[k := c]);
    assert x.Keys == s.Keys && |x| == |x.Keys| && |s| == |s.Keys|;
    assert x - {k, RESIDUE} == s - {k, RESIDUE};
    CutKeepsTheLeaders(x, cap);
  }

  // ---------- What shows ----------

  lemma TheBucketIsFull(cap: nat)
    ensures IOS != RESIDUE && Full(Cells(FullBucket(cap).groups), cap, IOS)
  {
    FullBucketCells(cap);
    assert OTHER[1] != "ios"[1] && "web"[0] != "ios"[0] && "web"[0] != OTHER[0];
  }

  lemma TheMinutes()
    ensures Cells(NEWCOMER.groups) == map[IOS := Counts(2, 2)] && Cells(RETURNED.groups) == map[IOS := Counts(4, 1)]
  {
    NewcomerCells();
    assert RETURNED.groups[..0] == [];
  }

  lemma SameWithout(s: CellMap, t: CellMap, cap: nat, k: Key, r: Counts, q: Counts)
    requires Without(s, cap, k, r) && Without(t, cap, k, q) && SameNamed(s, t)
    ensures s - {RESIDUE} == t - {RESIDUE}
  {
    var l, u := s - {RESIDUE}, t - {RESIDUE};
    assert l.Keys == u.Keys;
    forall k | k in l ensures l[k] == u[k] { assert k in u; }
  }

  lemma TwiceNamesTheSame(a: Census, b: Census, cap: nat)
    requires cap >= 1
    ensures SameNamed(Cells(Merge(Merge(a, b, cap), b, cap).groups), Cells(Merge(a, b, cap).groups))
  {
    FoldOfTwo(a, b, cap);
    FoldOfThree(a, b, b, cap);
    AnyOrderAgrees([a, b, b], [a, b], cap);
  }

  lemma OrderNamesTheSame(a: Census, b: Census, c: Census, cap: nat)
    requires cap >= 1
    ensures SameNamed(Cells(Merge(Merge(a, b, cap), c, cap).groups), Cells(Merge(Merge(a, c, cap), b, cap).groups))
  {
    FoldOfThree(a, b, c, cap);
    FoldOfThree(a, c, b, cap);
    AnyOrderAgrees([a, b, c], [a, c, b], cap);
  }

  // A minute of two devices folded into the full bucket, once and twice.
  lemma OnceAndTwice(a: Census, b: Census, cap: nat, k: Key)
    requires cap >= 1 && k != RESIDUE && Full(Cells(a.groups), cap, k) && Cells(b.groups) == map[k := Counts(2, 2)]
    ensures Without(Cells(Merge(a, b, cap).groups), cap, k, Counts(5, 5))
    ensures Without(Cells(Merge(Merge(a, b, cap), b, cap).groups), cap, k, Counts(7, 7))
  {
    FoldIs(a, b, cap);
    FullFoldsSmall(Cells(a.groups), cap, k, Counts(2, 2));
    FoldIs(Merge(a, b, cap), b, cap);
    WithoutFoldsSmall(Cells(Merge(a, b, cap).groups), cap, k, Counts(5, 5), Counts(2, 2));
  }

  /** Past the cap the fold is not associative: with a full bucket and the newcomer folded twice, one
      after the other or with itself first, the residue counts seven devices or five. Every other cell
      is the same. */
  lemma AssociationFailsPastTheCap()
    ensures var a, b, cap := FullBucket(MAX_GROUPS), NEWCOMER, MAX_GROUPS;
      var l, r := Cells(Merge(Merge(a, b, cap), b, cap).groups), Cells(Merge(a, Merge(b, b, cap), cap).groups);
      && RESIDUE in l && l[RESIDUE] == Counts(7, 7)
      && RESIDUE in r && r[RESIDUE] == Counts(5, 5)
      && l - {RESIDUE} == r - {RESIDUE}
  {
    var a, b, cap := FullBucket(MAX_GROUPS), NEWCOMER, MAX_GROUPS;
    TheBucketIsFull(cap);
    TheMinutes();
    OnceAndTwice(a, b, cap, IOS);
    RegroupedReplay(a, b, cap);
    TwiceNamesTheSame(a, b, cap);
    SameWithout(Cells(Merge(Merge(a, b, cap), b, cap).groups), Cells(Merge(a, b, cap).groups), cap, IOS,
                Counts(7, 7), Counts(5, 5));
  }

  // The newcomer folded away and back, and the other way round.
  lemma AwayAndBack(a: Census, b: Census, c: Census, cap: nat, k: Key)
    requires cap >= 2 && k != RESIDUE && Full(Cells(a.groups), cap, k)
    requires Cells(b.groups) == map[k := Counts(2, 2)] && Cells(c.groups) == map[k := Counts(4, 1)]
    ensures With(Cells(Merge(Merge(a, b, cap), c, cap).groups), cap, k, Counts(4, 1), Counts(8, 8))
    ensures With(Cells(Merge(Merge(a, c, cap), b, cap).groups), cap, k, Counts(4, 2), Counts(6, 6))
  {
    OnceAndTwice(a, b, cap, k);
    FoldIs(Merge(a, b, cap), c, cap);
    WithoutFoldsLarge(Cells(Merge(a, b, cap).groups), cap, k, Counts(5, 5), Counts(4, 1));
    FoldIs(a, c, cap);
    FullFoldsLarge(Cells(a.groups), cap, k, Counts(4, 1));
    FoldIs(Merge(a, c, cap), b, cap);
    WithFolds(Cells(Merge(a, c, cap).groups), cap, k, Counts(4, 1), Counts(6, 6), Counts(2, 2));
  }

  /** Nor does it forget the order of two minutes: the newcomer folded away first and back with more
      devices leaves a residue of eight and its last users; the other way round, a residue of six and
      its most users. The cells named and their devices are the same. */
  lemma OrderShowsPastTheCap()
    ensures var a, b, c, cap := FullBucket(MAX_GROUPS), NEWCOMER, RETURNED, MAX_GROUPS;
      var l, r := Cells(Merge(Merge(a, b, cap), c, cap).groups), Cells(Merge(Merge(a, c, cap), b, cap).groups);
      && IOS in l && l[IOS] == Counts(4, 1) && RESIDUE in l && l[RESIDUE] == Counts(8, 8)
      && IOS in r && r[IOS] == Counts(4, 2) && RESIDUE in r && r[RESIDUE] == Counts(6, 6)
      && SameNamed(l, r)
  {
    var a, b, c, cap := FullBucket(MAX_GROUPS), NEWCOMER, RETURNED, MAX_GROUPS;
    TheBucketIsFull(cap);
    TheMinutes();
    AwayAndBack(a, b, c, cap, IOS);
    OrderNamesTheSame(a, b, c, cap);
  }
}
