/**
  The algebra of the census: cells by platform and version, the fold that keeps the maximum of every
  count, and the cap that sums the smallest cells into one. A cell map is what a census says; its
  groups are that map in the one canonical order.
*/
module Census {
  import opened Sorting

  const OTHER := "other"
  const MAX_GROUPS: nat := 64

  datatype Key = Key(platform: string, version: string)
  datatype Counts = Counts(devices: nat, users: nat)
  datatype Group = Group(platform: string, version: string, devices: nat, users: nat)
  datatype Census = Census(devices: nat, users: nat, groups: seq<Group>)
  datatype Sample = Sample(t: int, census: Census)

  type CellMap = map<Key, Counts>

  function KeyOf(g: Group): Key { Key(g.platform, g.version) }
  function CountsOf(g: Group): Counts { Counts(g.devices, g.users) }
  function Max(a: nat, b: nat): nat { if a < b then b else a }
  function MaxCounts(a: Counts, b: Counts): Counts { Counts(Max(a.devices, b.devices), Max(a.users, b.users)) }
  function AddCounts(a: Counts, b: Counts): Counts { Counts(a.devices + b.devices, a.users + b.users) }
  predicate Below(a: Counts, b: Counts) { a.devices <= b.devices && a.users <= b.users }

  // ---------- The two orders ----------

  // The canonical order of a census: platform, then devices descending, then version.
  predicate CanonLe(a: Group, b: Group) {
    if a.platform != b.platform then StringLe(a.platform, b.platform)
    else if a.devices != b.devices then a.devices > b.devices
    else StringLe(a.version, b.version)
  }

  // The order of the cap: devices descending, then platform, then version.
  predicate RankLe(a: Group, b: Group) {
    if a.devices != b.devices then a.devices > b.devices
    else if a.platform != b.platform then StringLe(a.platform, b.platform)
    else StringLe(a.version, b.version)
  }

  lemma CanonIsAnOrder()
    ensures Total(CanonLe) && Transitive(CanonLe)
  {
    forall a, b ensures CanonLe(a, b) || CanonLe(b, a) {
      StringLeTotal(a.platform, b.platform);
      StringLeTotal(a.version, b.version);
    }
    forall a, b, c | CanonLe(a, b) && CanonLe(b, c) ensures CanonLe(a, c) {
      StringLeTotal(a.platform, b.platform);
      if StringLe(a.platform, b.platform) && StringLe(b.platform, c.platform) {
        StringLeTransitive(a.platform, b.platform, c.platform);
      }
      if StringLe(a.version, b.version) && StringLe(b.version, c.version) {
        StringLeTransitive(a.version, b.version, c.version);
      }
    }
  }

  lemma RankIsAnOrder()
    ensures Total(RankLe) && Transitive(RankLe)
  {
    forall a, b ensures RankLe(a, b) || RankLe(b, a) {
      StringLeTotal(a.platform, b.platform);
      StringLeTotal(a.version, b.version);
    }
    forall a, b, c | RankLe(a, b) && RankLe(b, c) ensures RankLe(a, c) {
      StringLeTotal(a.platform, b.platform);
      if StringLe(a.platform, b.platform) && StringLe(b.platform, c.platform) {
        StringLeTransitive(a.platform, b.platform, c.platform);
      }
      if StringLe(a.version, b.version) && StringLe(b.version, c.version) {
        StringLeTransitive(a.version, b.version, c.version);
      }
    }
  }

  // ---------- Cells ----------

  function At(m: CellMap, k: Key): (c: Counts) {
    if k in m then m[k] else Counts(0, 0)
  }

  function Raise(m: CellMap, g: Group): (r: CellMap) {
    m[KeyOf(g) := MaxCounts(At(m, KeyOf(g)), CountsOf(g))]
  }

  // The maximum of each cell over the groups of a list.
  function Cells(gs: seq<Group>): (m: CellMap) {
    if gs == [] then map[] else Raise(Cells(gs[..|gs| - 1]), gs[|gs| - 1])
  }

  // The pointwise maximum of two cell maps.
  function MaxCells(a: CellMap, b: CellMap): (m: CellMap) {
    map k | k in a.Keys + b.Keys :: MaxCounts(At(a, k), At(b, k))
  }

  // Every cell of `y` is a cell of `x` with counts at least as large.
  predicate Dominates(x: CellMap, y: CellMap) {
    forall k :: k in y ==> k in x && y[k].devices <= x[k].devices && y[k].users <= x[k].users
  }

  lemma MaxCountsLaws(x: Counts, y: Counts, z: Counts)
    ensures MaxCounts(MaxCounts(x, y), z) == MaxCounts(x, MaxCounts(y, z))
    ensures MaxCounts(MaxCounts(x, y), y) == MaxCounts(x, y)
  {}

  lemma MaxOfRaise(a: CellMap, b: CellMap, g: Group)
    ensures MaxCells(a, Raise(b, g)) == Raise(MaxCells(a, b), g)
  {
    var l, r := MaxCells(a, Raise(b, g)), Raise(MaxCells(a, b), g);
    assert l.Keys == r.Keys;
    forall k | k in l ensures l[k] == r[k] {
      assert At(MaxCells(a, b), k) == MaxCounts(At(a, k), At(b, k));
      MaxCountsLaws(At(a, k), At(b, k), CountsOf(g));
    }
  }

  lemma {:induction false} CellsOfConcat(a: seq<Group>, b: seq<Group>)
    ensures Cells(a + b) == MaxCells(Cells(a), Cells(b))
  {
    if b == [] {
      assert a + b == a;
    } else {
      assert (a + b)[..|a + b| - 1] == a + b[..|b| - 1];
      CellsOfConcat(a, b[..|b| - 1]);
      MaxOfRaise(Cells(a), Cells(b[..|b| - 1]), b[|b| - 1]);
    }
  }

  ghost predicate Distinct(gs: seq<Group>) {
    forall i, j :: 0 <= i < j < |gs| ==> KeyOf(gs[i]) != KeyOf(gs[j])
  }

  function KeysOf(gs: seq<Group>): (ks: set<Key>) {
    set g | g in gs :: KeyOf(g)
  }

  lemma {:induction false} CellsKeys(gs: seq<Group>)
    ensures Cells(gs).Keys == KeysOf(gs)
  {
    if gs != [] {
      CellsKeys(gs[..|gs| - 1]);
      assert gs == gs[..|gs| - 1] + [gs[|gs| - 1]];
    }
  }

  lemma OneMoreCell(groups: seq<Group>, g: Group, m: CellMap)
    requires Distinct(groups) && Cells(groups) == m && KeyOf(g) !in m
    ensures Distinct(groups + [g]) && Cells(groups + [g]) == m[KeyOf(g) := CountsOf(g)]
  {
    var more := groups + [g];
    CellsKeys(groups);
    assert more[..|groups|] == groups && more[|groups|] == g;
    forall x | x in groups ensures KeyOf(x) != KeyOf(g) { assert KeyOf(x) in m; }
    forall i, j | 0 <= i < j < |more| ensures KeyOf(more[i]) != KeyOf(more[j]) {
      if j == |groups| { assert more[i] in groups; }
    }
  }

  lemma LastIsNew(front: seq<Group>, last: Group)
    requires Distinct(front + [last])
    ensures Distinct(front) && KeyOf(last) !in Cells(front)
  {
    var gs := front + [last];
    assert forall i :: 0 <= i < |front| ==> gs[i] == front[i];
    assert gs[|front|] == last;
    CellsKeys(front);
  }

  // On distinct keys, a cell map is exactly its groups.
  lemma {:induction false} CellsOfDistinct(gs: seq<Group>)
    requires Distinct(gs)
    ensures forall g :: g in gs ==> KeyOf(g) in Cells(gs) && Cells(gs)[KeyOf(g)] == CountsOf(g)
    ensures |Cells(gs)| == |gs|
  {
    if gs != [] {
      var front, last := gs[..|gs| - 1], gs[|gs| - 1];
      assert gs == front + [last];
      LastIsNew(front, last);
      CellsOfDistinct(front);
      OneMoreCell(front, last, Cells(front));
    }
  }

  // A map laid out as groups, in some order.
  ghost function ToGroups(m: CellMap): (gs: seq<Group>)
    ensures Distinct(gs) && Cells(gs) == m && |gs| == |m|
    ensures forall g :: g in gs ==> KeyOf(g) in m
  {
    if m == map[] then []
    else
      var k :| k in m;
      var rest := m - {k};
      var g := Group(k.platform, k.version, m[k].devices, m[k].users);
      var front := ToGroups(rest);
      OneMoreCell(front, g, rest);
      assert rest[k := m[k]] == m;
      front + [g]
  }

  // ---------- Lists of distinct cells ----------

  lemma InDistinct(gs: seq<Group>, x: Group)
    requires Distinct(gs)
    ensures x in gs <==> KeyOf(x) in Cells(gs) && Cells(gs)[KeyOf(x)] == CountsOf(x)
  {
    CellsOfDistinct(gs);
    CellsKeys(gs);
    if KeyOf(x) in Cells(gs) && Cells(gs)[KeyOf(x)] == CountsOf(x) {
      var g :| g in gs && KeyOf(g) == KeyOf(x);
      assert CountsOf(g) == CountsOf(x);
    }
  }

  lemma {:induction false} DistinctCountsOnce(gs: seq<Group>, x: Group)
    requires Distinct(gs)
    ensures multiset(gs)[x] == if x in gs then 1 else 0
  {
    if gs != [] {
      var front, last := gs[..|gs| - 1], gs[|gs| - 1];
      assert gs == front + [last];
      DistinctCountsOnce(front, x);
      assert x in front ==> KeyOf(x) != KeyOf(last);
    }
  }

  // Two lists of distinct cells that say the same hold the same groups.
  lemma SameCellsSameGroups(a: seq<Group>, b: seq<Group>)
    requires Distinct(a) && Distinct(b) && Cells(a) == Cells(b)
    ensures multiset(a) == multiset(b)
  {
    forall x ensures multiset(a)[x] == multiset(b)[x] {
      InDistinct(a, x);
      InDistinct(b, x);
      DistinctCountsOnce(a, x);
      DistinctCountsOnce(b, x);
    }
  }

  lemma PermutedStaysDistinct(a: seq<Group>, b: seq<Group>)
    requires Distinct(a) && multiset(a) == multiset(b)
    ensures Distinct(b)
  {
    SameMembers(a, b);
    forall i, j | 0 <= i < j < |b| ensures KeyOf(b[i]) != KeyOf(b[j]) {
      if KeyOf(b[i]) == KeyOf(b[j]) {
        InDistinct(a, b[i]);
        InDistinct(a, b[j]);
        CountsTwice(b, i, j);
        DistinctCountsOnce(a, b[i]);
      }
    }
  }

  lemma PermutedDistinct(a: seq<Group>, b: seq<Group>)
    requires Distinct(a) && multiset(a) == multiset(b)
    ensures Distinct(b) && Cells(b) == Cells(a)
  {
    PermutedStaysDistinct(a, b);
    SameMembers(a, b);
    CellsKeys(a);
    CellsKeys(b);
    forall k | k in Cells(a) ensures Cells(a)[k] == Cells(b)[k] {
      var c := Cells(a)[k];
      var g := Group(k.platform, k.version, c.devices, c.users);
      InDistinct(a, g);
      InDistinct(b, g);
    }
  }

  lemma DistinctIsUntied(gs: seq<Group>)
    requires Distinct(gs)
    ensures Untied(CanonLe, gs) && Untied(RankLe, gs)
  {
    CellsOfDistinct(gs);
    forall x, y | x in gs && y in gs && ((CanonLe(x, y) && CanonLe(y, x)) || (RankLe(x, y) && RankLe(y, x))) ensures x == y {
      StringLeTotal(x.platform, y.platform);
      StringLeTotal(x.version, y.version);
      assert KeyOf(x) == KeyOf(y);
    }
  }

  // ---------- The cap ----------

  const RESIDUE := Key(OTHER, OTHER)

  predicate IsResidue(g: Group) {
    KeyOf(g) == RESIDUE
  }

  function Residue(gs: seq<Group>): (r: seq<Group>) {
    if gs == [] then [] else if IsResidue(gs[0]) then [gs[0]] + Residue(gs[1..]) else Residue(gs[1..])
  }

  function Rest(gs: seq<Group>): (r: seq<Group>) {
    if gs == [] then [] else if IsResidue(gs[0]) then Rest(gs[1..]) else [gs[0]] + Rest(gs[1..])
  }

  function Sum(gs: seq<Group>): (c: Counts) {
    if gs == [] then Counts(0, 0) else AddCounts(CountsOf(gs[0]), Sum(gs[1..]))
  }

  // The largest cells, as many as the cap leaves beside the one that sums the others.
  function Ranked(gs: seq<Group>): (r: seq<Group>) {
    Sort(RankLe, Rest(gs))
  }

  function Room(ranked: seq<Group>, cap: nat): (n: nat)
    ensures n <= |ranked|
  {
    if cap == 0 then 0 else if cap - 1 <= |ranked| then cap - 1 else |ranked|
  }

  function Folded(ranked: seq<Group>, residue: seq<Group>, cap: nat): (g: Group)
    ensures KeyOf(g) == RESIDUE
  {
    var before := if residue == [] then Counts(0, 0) else CountsOf(residue[|residue| - 1]);
    var c := AddCounts(before, Sum(ranked[Room(ranked, cap)..]));
    Group(OTHER, OTHER, c.devices, c.users)
  }

  // The list the cap sorts when it has to fold.
  function Capped(ranked: seq<Group>, residue: seq<Group>, cap: nat): (r: seq<Group>) {
    ranked[..Room(ranked, cap)] + [Folded(ranked, residue, cap)]
  }

  function Bound(gs: seq<Group>, cap: nat): (r: seq<Group>) {
    if |gs| <= cap then Sort(CanonLe, gs)
    else Sort(CanonLe, Capped(Ranked(gs), Residue(gs), cap))
  }

  lemma {:induction false} SplitCounts(gs: seq<Group>, x: Group)
    ensures multiset(Rest(gs))[x] == if IsResidue(x) then 0 else multiset(gs)[x]
    ensures multiset(Residue(gs))[x] == if IsResidue(x) then multiset(gs)[x] else 0
  {
    if gs != [] {
      SplitCounts(gs[1..], x);
      assert gs == [gs[0]] + gs[1..];
    }
  }

  lemma SumOfCons(g: Group, s: seq<Group>)
    ensures Sum([g] + s) == AddCounts(CountsOf(g), Sum(s))
  {
    assert ([g] + s)[1..] == s;
  }

  lemma AddRegroups(x: Counts, a: Counts, b: Counts)
    ensures AddCounts(x, AddCounts(a, b)) == AddCounts(AddCounts(x, a), b) == AddCounts(a, AddCounts(x, b))
  {}

  lemma {:induction false} SplitSums(gs: seq<Group>)
    ensures Sum(gs) == AddCounts(Sum(Residue(gs)), Sum(Rest(gs)))
    ensures |gs| == |Residue(gs)| + |Rest(gs)|
  {
    if gs == [] {
      assert Residue(gs) == [] && Rest(gs) == [];
      assert Sum(gs) == Counts(0, 0);
    } else {
      SplitSums(gs[1..]);
      var g, a, b := gs[0], Residue(gs[1..]), Rest(gs[1..]);
      SumOfCons(g, if IsResidue(g) then a else b);
      assert Sum(gs) == AddCounts(CountsOf(g), AddCounts(Sum(a), Sum(b)));
      assert Sum(Residue(gs)) == if IsResidue(g) then AddCounts(CountsOf(g), Sum(a)) else Sum(a);
      assert Sum(Rest(gs)) == if IsResidue(g) then Sum(b) else AddCounts(CountsOf(g), Sum(b));
      AddRegroups(CountsOf(g), Sum(a), Sum(b));
    }
  }

  lemma SumOfOne(g: Group)
    ensures Sum([g]) == CountsOf(g)
  {
    assert Sum([g][1..]) == Counts(0, 0);
  }

  lemma {:induction false} SumOfConcat(a: seq<Group>, b: seq<Group>)
    ensures Sum(a + b) == AddCounts(Sum(a), Sum(b))
  {
    if a == [] {
      assert a + b == b;
    } else {
      assert (a + b)[1..] == a[1..] + b;
      SumOfConcat(a[1..], b);
    }
  }

  lemma {:induction false} SumOfInsert(le: (Group, Group) -> bool, x: Group, s: seq<Group>)
    ensures Sum(Insert(le, x, s)) == AddCounts(CountsOf(x), Sum(s))
  {
    if s == [] {
      SumOfOne(x);
    } else if le(x, s[0]) {
      SumOfCons(x, s);
    } else {
      SumOfInsert(le, x, s[1..]);
      SumOfCons(s[0], Insert(le, x, s[1..]));
      AddRegroups(CountsOf(s[0]), CountsOf(x), Sum(s[1..]));
    }
  }

  lemma {:induction false} SumOfSort(le: (Group, Group) -> bool, s: seq<Group>)
    ensures Sum(Sort(le, s)) == Sum(s)
  {
    if s != [] {
      SumOfSort(le, s[1..]);
      SumOfInsert(le, s[0], Sort(le, s[1..]));
    }
  }

  // Among distinct cells at most one is the residue, and the others are distinct.
  lemma SplitDistinct(gs: seq<Group>)
    requires Distinct(gs)
    ensures |Residue(gs)| <= 1 && Distinct(Rest(gs)) && Distinct(Ranked(gs))
    ensures forall x :: x in Ranked(gs) <==> x in gs && !IsResidue(x)
  {
    SplitDistinctParts(gs);
    SplitMembers(gs);
    PermutedDistinct(Rest(gs), Ranked(gs));
    SameMembers(Rest(gs), Ranked(gs));
  }

  lemma {:induction false} SplitMembers(gs: seq<Group>)
    ensures forall x :: x in Rest(gs) <==> x in gs && !IsResidue(x)
    ensures forall x :: x in Residue(gs) <==> x in gs && IsResidue(x)
  {
    if gs != [] {
      SplitMembers(gs[1..]);
      assert gs == [gs[0]] + gs[1..];
    }
  }

  lemma {:induction false} SplitDistinctParts(gs: seq<Group>)
    requires Distinct(gs)
    ensures |Residue(gs)| <= 1 && Distinct(Rest(gs))
  {
    if gs != [] {
      SplitDistinctParts(gs[1..]);
      SplitMembers(gs[1..]);
      assert forall x :: x in gs[1..] ==> KeyOf(x) != KeyOf(gs[0]);
      if IsResidue(gs[0]) { SplitPlain(gs[1..]); }
    }
  }

  lemma {:induction false} SplitPlain(gs: seq<Group>)
    requires forall g :: g in gs ==> !IsResidue(g)
    ensures Rest(gs) == gs && Residue(gs) == []
  {
    if gs != [] { SplitPlain(gs[1..]); }
  }

  lemma CappedDistinct(gs: seq<Group>, cap: nat)
    requires Distinct(gs)
    ensures Distinct(Capped(Ranked(gs), Residue(gs), cap))
  {
    SplitDistinct(gs);
    var kept := Ranked(gs)[..Room(Ranked(gs), cap)];
    forall i | 0 <= i < |kept| ensures KeyOf(kept[i]) != RESIDUE { assert kept[i] in Ranked(gs); }
  }

  lemma SumOfHalves(s: seq<Group>, n: nat)
    requires n <= |s|
    ensures Sum(s) == AddCounts(Sum(s[..n]), Sum(s[n..]))
  {
    assert s == s[..n] + s[n..];
    SumOfConcat(s[..n], s[n..]);
  }

  lemma FoldedCounts(gs: seq<Group>, cap: nat)
    requires |Residue(gs)| <= 1
    ensures CountsOf(Folded(Ranked(gs), Residue(gs), cap)) ==
            AddCounts(Sum(Residue(gs)), Sum(Ranked(gs)[Room(Ranked(gs), cap)..]))
  {
    if Residue(gs) == [] {
      assert Sum(Residue(gs)) == Counts(0, 0);
    } else {
      assert Residue(gs) == [Residue(gs)[0]];
      SumOfOne(Residue(gs)[0]);
    }
  }

  lemma CappedSum(gs: seq<Group>, cap: nat)
    requires Distinct(gs)
    ensures Sum(Capped(Ranked(gs), Residue(gs), cap)) == Sum(gs)
  {
    var ranked, n, folded := Ranked(gs), Room(Ranked(gs), cap), Folded(Ranked(gs), Residue(gs), cap);
    SplitDistinct(gs);
    SplitSums(gs);
    SumOfSort(RankLe, Rest(gs));
    SumOfHalves(ranked, n);
    SumOfConcat(ranked[..n], [folded]);
    SumOfOne(folded);
    AddRegroups(Sum(ranked[..n]), Sum(Residue(gs)), Sum(ranked[n..]));
    FoldedCounts(gs, cap);
    assert Sum(Capped(Ranked(gs), Residue(gs), cap)) == AddCounts(Sum(ranked[..n]), CountsOf(folded));
  }

  lemma CappedLaws(gs: seq<Group>, cap: nat)
    requires Distinct(gs) && |gs| > cap >= 1
    ensures var all := Capped(Ranked(gs), Residue(gs), cap); |all| == cap && Distinct(all) && Sum(all) == Sum(gs)
  {
    SplitDistinct(gs);
    SplitSums(gs);
    CappedDistinct(gs, cap);
    CappedSum(gs, cap);
  }

  /** The cap at work on distinct cells: it keeps as many cells as it may, loses no device and no
      user, and yields distinct cells in the canonical order. */
  lemma BoundLaws(gs: seq<Group>, cap: nat)
    requires Distinct(gs) && cap >= 1
    ensures var r := Bound(gs, cap);
      && |r| == (if |gs| <= cap then |gs| else cap)
      && Sum(r) == Sum(gs)
      && Distinct(r) && Sorted(CanonLe, r)
  {
    var all := if |gs| <= cap then gs else Capped(Ranked(gs), Residue(gs), cap);
    if |gs| > cap { CappedLaws(gs, cap); }
    CanonIsAnOrder();
    SortSorts(CanonLe, all);
    SumOfSort(CanonLe, all);
    PermutedDistinct(all, Sort(CanonLe, all));
  }

  /** The answer is listed by platform; within one, the cells with more devices first; and of cells with
      as many devices, by version. */
  lemma BoundIsInOrder(gs: seq<Group>, cap: nat, i: nat, j: nat)
    requires i < j < |Bound(gs, cap)|
    ensures var x, y := Bound(gs, cap)[i], Bound(gs, cap)[j];
      && StringLe(x.platform, y.platform)
      && (x.platform == y.platform ==> x.devices >= y.devices)
      && (x.platform == y.platform && x.devices == y.devices ==> StringLe(x.version, y.version))
  {
    var all := if |gs| <= cap then gs else Capped(Ranked(gs), Residue(gs), cap);
    CanonIsAnOrder();
    SortSorts(CanonLe, all);
    assert CanonLe(Sort(CanonLe, all)[i], Sort(CanonLe, all)[j]);
    StringLeTotal(Sort(CanonLe, all)[i].platform, Sort(CanonLe, all)[j].platform);
  }

  lemma FirstOutrank(ranked: seq<Group>, n: nat, kept: Group, lost: Group)
    requires Sorted(RankLe, ranked) && n <= |ranked| && kept in ranked[..n] && lost in ranked && lost !in ranked[..n]
    ensures RankLe(kept, lost)
  {
    var i :| 0 <= i < n && ranked[i] == kept;
    var j :| 0 <= j < |ranked| && ranked[j] == lost;
    assert forall k :: 0 <= k < n ==> ranked[k] in ranked[..n];
  }

  lemma InSnoc(s: seq<Group>, y: Group, x: Group)
    requires x != y
    ensures x in s + [y] <==> x in s
  {}

  lemma FoldedIsResidue(ranked: seq<Group>, residue: seq<Group>, cap: nat)
    ensures IsResidue(Folded(ranked, residue, cap))
  {}

  // The cells of a bounded list beside the residue are the first ranked ones.
  lemma BoundMembers(gs: seq<Group>, cap: nat, x: Group)
    requires |gs| > cap && !IsResidue(x)
    ensures x in Bound(gs, cap) <==> x in Ranked(gs)[..Room(Ranked(gs), cap)]
  {
    var ranked, residue := Ranked(gs), Residue(gs);
    SameMembers(Capped(ranked, residue, cap), Sort(CanonLe, Capped(ranked, residue, cap)));
    FoldedIsResidue(ranked, residue, cap);
    InSnoc(ranked[..Room(ranked, cap)], Folded(ranked, residue, cap), x);
  }

  /** The cells that stay are the largest: none that was folded away outranks one that was kept, and
      a kept cell is one of the given ones, unchanged. */
  lemma BoundKeepsTheLargest(gs: seq<Group>, cap: nat, kept: Group, lost: Group)
    requires Distinct(gs) && |gs| > cap >= 1
    requires kept in Bound(gs, cap) && !IsResidue(kept)
    requires lost in gs && !IsResidue(lost) && lost !in Bound(gs, cap)
    ensures kept in gs && RankLe(kept, lost) && kept.devices >= lost.devices
    ensures kept.devices == lost.devices ==> StringLe(kept.platform, lost.platform)
    ensures kept.devices == lost.devices && kept.platform == lost.platform ==> StringLe(kept.version, lost.version)
  {
    var ranked, n := Ranked(gs), Room(Ranked(gs), cap);
    SplitDistinct(gs);
    RankIsAnOrder();
    SortSorts(RankLe, Rest(gs));
    BoundMembers(gs, cap, kept);
    BoundMembers(gs, cap, lost);
    assert kept in ranked[..n] ==> kept in ranked;
    FirstOutrank(ranked, n, kept, lost);
    StringLeTotal(kept.platform, lost.platform);
  }
}
