/**
  What folding the same census twice does past the cap. The source calls the fold idempotent; it is,
  exactly when no counted cell of the folded census was itself folded away. Otherwise each replay
  adds those cells to the residue again.
*/
module CensusOverflow {
  import opened Sorting
  import opened Census
  import opened CensusMerge

  // The cells of `b` that the fold did not keep under their own name.
  function Dropped(b: Census, folded: Census): (m: CellMap) {
    var cells := Cells(b.groups);
    map k | k in cells && k !in Cells(folded.groups) :: cells[k]
  }

  predicate AllZero(m: CellMap) {
    forall k :: k in m ==> m[k] == Counts(0, 0)
  }

  // ---------- The first fold ----------

  // The cells kept under their own name, and the one that sums the others.
  ghost function KeptOf(m: CellMap, cap: nat): seq<Group> {
    var ranked := Ranked(ToGroups(m));
    ranked[..Room(ranked, cap)]
  }

  ghost function ResidueOf(m: CellMap, cap: nat): Group {
    Folded(Ranked(ToGroups(m)), Residue(ToGroups(m)), cap)
  }

  // The residue of distinct cells is the cell of that name, if there is one.
  lemma ResidueIs(gs: seq<Group>)
    requires Distinct(gs)
    ensures Residue(gs) == if RESIDUE in Cells(gs)
                           then [Group(OTHER, OTHER, Cells(gs)[RESIDUE].devices, Cells(gs)[RESIDUE].users)] else []
  {
    SplitMembers(gs);
    SplitDistinctParts(gs);
    if RESIDUE in Cells(gs) {
      var g := Group(OTHER, OTHER, Cells(gs)[RESIDUE].devices, Cells(gs)[RESIDUE].users);
      InDistinct(gs, g);
      assert g in Residue(gs);
    } else if Residue(gs) != [] {
      assert Residue(gs)[0] in Residue(gs);
      InDistinct(gs, Residue(gs)[0]);
    }
  }

  lemma ResidueCounts(gs: seq<Group>, cap: nat)
    requires Distinct(gs)
    ensures var f := Folded(Ranked(gs), Residue(gs), cap);
      At(Cells(gs), RESIDUE).devices <= f.devices && At(Cells(gs), RESIDUE).users <= f.users
  {
    ResidueIs(gs);
  }

  lemma KeptCells(gs: seq<Group>, cap: nat)
    requires Distinct(gs)
    ensures forall g :: g in Ranked(gs)[..Room(Ranked(gs), cap)] ==>
      !IsResidue(g) && KeyOf(g) in Cells(gs) && Cells(gs)[KeyOf(g)] == CountsOf(g)
  {
    SplitDistinct(gs);
    CellsOfDistinct(gs);
    forall g | g in Ranked(gs)[..Room(Ranked(gs), cap)] ensures g in gs && !IsResidue(g) { assert g in Ranked(gs); }
  }

  lemma FirstFold(m: CellMap, cap: nat)
    requires |m| > cap >= 1
    ensures var kept, res := KeptOf(m, cap), ResidueOf(m, cap);
      && Bound(ToGroups(m), cap) == Sort(CanonLe, kept + [res])
      && |kept| == cap - 1 && Distinct(kept + [res]) && IsResidue(res)
      && (forall g :: g in kept ==> !IsResidue(g) && KeyOf(g) in m && m[KeyOf(g)] == CountsOf(g))
      && At(m, RESIDUE).devices <= res.devices && At(m, RESIDUE).users <= res.users
  {
    var gs := ToGroups(m);
    SplitDistinctParts(gs);
    SplitSums(gs);
    CappedDistinct(gs, cap);
    KeptCells(gs, cap);
    ResidueCounts(gs, cap);
  }

  // ---------- The second fold ----------

  lemma KeptDominates(m: CellMap, y: CellMap, kept: seq<Group>, res: Group, k: Key)
    requires Dominates(m, y) && Distinct(kept + [res]) && IsResidue(res)
    requires forall g :: g in kept ==> !IsResidue(g) && KeyOf(g) in m && m[KeyOf(g)] == CountsOf(g)
    requires At(m, RESIDUE).devices <= res.devices && At(m, RESIDUE).users <= res.users
    requires k in Cells(kept + [res]) && k in y
    ensures y[k].devices <= Cells(kept + [res])[k].devices && y[k].users <= Cells(kept + [res])[k].users
  {
    var all := kept + [res];
    CellsOfDistinct(all);
    CellsKeys(all);
    var g :| g in all && KeyOf(g) == k;
    assert g in kept || g == res;
  }

  lemma MaxWithTheRest(first: CellMap, y: CellMap, rest: CellMap)
    requires forall k :: k in first && k in y ==> y[k].devices <= first[k].devices && y[k].users <= first[k].users
    requires rest == map k | k in y && k !in first :: y[k]
    ensures MaxCells(first, y) == MaxCells(first, rest)
  {
    var l, r := MaxCells(first, y), MaxCells(first, rest);
    assert l.Keys == r.Keys;
    forall k | k in l ensures l[k] == r[k] {}
  }

  // The map the second fold starts from: the first one's cells, none of them raised, and beside
  // them the cells of `y` that the first fold dropped.
  lemma SecondMap(m: CellMap, y: CellMap, kept: seq<Group>, res: Group, dd: seq<Group>)
    requires Dominates(m, y) && Distinct(kept + [res]) && IsResidue(res)
    requires forall g :: g in kept ==> !IsResidue(g) && KeyOf(g) in m && m[KeyOf(g)] == CountsOf(g)
    requires At(m, RESIDUE).devices <= res.devices && At(m, RESIDUE).users <= res.users
    requires Cells(dd) == map k | k in y && k !in Cells(kept + [res]) :: y[k]
    ensures MaxCells(Cells(kept + [res]), y) == Cells(kept + [res] + dd)
  {
    var first := Cells(kept + [res]);
    forall k | k in first && k in y ensures y[k].devices <= first[k].devices && y[k].users <= first[k].users {
      KeptDominates(m, y, kept, res, k);
    }
    MaxWithTheRest(first, y, Cells(dd));
    CellsOfConcat(kept + [res], dd);
  }

  // No dropped cell outranks a kept one, neither in the fold's own count nor in `y`'s smaller one.
  lemma DroppedRanksBelow(m: CellMap, y: CellMap, cap: nat, k: Group, d: Group)
    requires |m| > cap >= 1 && Dominates(m, y) && k in KeptOf(m, cap)
    requires KeyOf(d) in y && CountsOf(d) == y[KeyOf(d)] && !IsResidue(d)
    requires forall g :: g in KeptOf(m, cap) ==> KeyOf(g) != KeyOf(d)
    ensures RankLe(k, d)
  {
    var gs := ToGroups(m);
    var c := m[KeyOf(d)];
    var whole := Group(d.platform, d.version, c.devices, c.users);
    InDistinct(gs, whole);
    SplitDistinct(gs);
    RankIsAnOrder();
    SortSorts(RankLe, Rest(gs));
    FirstOutrank(Ranked(gs), Room(Ranked(gs), cap), k, whole);
    SmallerRanksBelow(k, whole, d);
  }

  lemma SmallerRanksBelow(k: Group, whole: Group, d: Group)
    requires RankLe(k, whole) && KeyOf(whole) == KeyOf(d) && d.devices <= whole.devices
    ensures RankLe(k, d)
  {}

  lemma {:induction false} RestOfConcat(a: seq<Group>, b: seq<Group>)
    ensures Rest(a + b) == Rest(a) + Rest(b)
  {
    if a == [] {
      assert a + b == b;
    } else {
      assert (a + b)[1..] == a[1..] + b;
      RestOfConcat(a[1..], b);
    }
  }

  lemma {:induction false} ResidueOfConcat(a: seq<Group>, b: seq<Group>)
    ensures Residue(a + b) == Residue(a) + Residue(b)
  {
    if a == [] {
      assert a + b == b;
    } else {
      assert (a + b)[1..] == a[1..] + b;
      ResidueOfConcat(a[1..], b);
    }
  }

  lemma SplitConcat(a: seq<Group>, b: seq<Group>)
    ensures Rest(a + b) == Rest(a) + Rest(b) && Residue(a + b) == Residue(a) + Residue(b)
  {
    RestOfConcat(a, b);
    ResidueOfConcat(a, b);
  }

  lemma SplitAll(kept: seq<Group>, res: Group, dd: seq<Group>)
    requires IsResidue(res) && (forall g :: g in kept ==> !IsResidue(g)) && (forall g :: g in dd ==> !IsResidue(g))
    ensures Rest(kept + [res] + dd) == kept + dd && Residue(kept + [res] + dd) == [res]
  {
    SplitPlain(kept);
    SplitPlain(dd);
    SplitConcat(kept + [res], dd);
    SplitConcat(kept, [res]);
    assert [res][1..] == [];
    assert Rest([res]) == [] && Residue([res]) == [res];
  }

  lemma SortOfSorted(le: (Group, Group) -> bool, s: seq<Group>)
    requires Total(le) && Transitive(le) && Untied(le, s) && Sorted(le, s)
    ensures Sort(le, s) == s
  {
    SortSorts(le, s);
    SortedUnique(le, s, Sort(le, s));
  }

  // The residue after the overflow `dd` was added to it.
  function Raised(res: Group, dd: seq<Group>): Group {
    var c := AddCounts(CountsOf(res), Sum(dd));
    Group(OTHER, OTHER, c.devices, c.users)
  }

  lemma BoundAgain(kept: seq<Group>, res: Group, dd: seq<Group>, cap: nat)
    requires cap >= 1 && |kept| == cap - 1 && dd != [] && Distinct(kept + dd) && Sorted(RankLe, kept + dd)
    requires IsResidue(res) && (forall g :: g in kept ==> !IsResidue(g)) && (forall g :: g in dd ==> !IsResidue(g))
    ensures Bound(kept + [res] + dd, cap) == Sort(CanonLe, kept + [Raised(res, dd)])
  {
    var all := kept + [res] + dd;
    SplitAll(kept, res, dd);
    RankIsAnOrder();
    DistinctIsUntied(kept + dd);
    SortOfSorted(RankLe, kept + dd);
    assert Ranked(all) == kept + dd;
    CappedAgain(kept, res, dd, cap);
  }

  lemma CappedAgain(kept: seq<Group>, res: Group, dd: seq<Group>, cap: nat)
    requires cap >= 1 && |kept| == cap - 1
    ensures Capped(kept + dd, [res], cap) == kept + [Raised(res, dd)]
  {
    assert (kept + dd)[..cap - 1] == kept && (kept + dd)[cap - 1..] == dd;
  }

  // ---------- The verdict ----------

  // What is left of `b` to fold again, ranked.
  ghost function Leftover(b: Census, folded: Census): seq<Group> {
    Sort(RankLe, ToGroups(Dropped(b, folded)))
  }

  lemma LeftoverFacts(b: Census, folded: Census)
    ensures var dd := Leftover(b, folded);
      && Cells(dd) == Dropped(b, folded) && Distinct(dd) && Sorted(RankLe, dd)
      && (dd == [] <==> Dropped(b, folded) == map[])
  {
    var gs := ToGroups(Dropped(b, folded));
    PermutedDistinct(gs, Leftover(b, folded));
    RankIsAnOrder();
    SortSorts(RankLe, gs);
  }

  // The lists the two folds sort, when the union of cells exceeds the cap.
  ghost predicate TwoFolds(a: Census, b: Census, cap: nat, kept: seq<Group>, res: Group) {
    var once := Merge(a, b, cap);
    && once.groups == Sort(CanonLe, kept + [res])
    && Merge(once, b, cap).groups == Sort(CanonLe, kept + [Raised(res, Leftover(b, once))])
  }

  lemma OnceIs(a: Census, b: Census, cap: nat)
    requires cap >= 1 && |MaxCells(Cells(a.groups), Cells(b.groups))| > cap
    ensures var m := MaxCells(Cells(a.groups), Cells(b.groups));
      var all := KeptOf(m, cap) + [ResidueOf(m, cap)];
      Merge(a, b, cap).groups == Sort(CanonLe, all) && Cells(Merge(a, b, cap).groups) == Cells(all)
  {
    var m := MaxCells(Cells(a.groups), Cells(b.groups));
    CellsOfConcat(a.groups, b.groups);
    FirstFold(m, cap);
    var all := KeptOf(m, cap) + [ResidueOf(m, cap)];
    PermutedDistinct(all, Sort(CanonLe, all));
  }

  // The leftover cells are new names, with the counts `y` gives them.
  lemma LeftoverIsNew(all: seq<Group>, y: CellMap, dd: seq<Group>)
    requires Distinct(dd) && Cells(dd) == map k | k in y && k !in Cells(all) :: y[k]
    ensures forall d :: d in dd ==> KeyOf(d) in y && CountsOf(d) == y[KeyOf(d)]
    ensures forall x, d :: x in all && d in dd ==> KeyOf(x) != KeyOf(d)
  {
    CellsOfDistinct(dd);
    CellsKeys(all);
    forall d | d in dd ensures KeyOf(d) in y && CountsOf(d) == y[KeyOf(d)] && KeyOf(d) !in Cells(all) {
      assert KeyOf(d) in Cells(dd);
    }
  }

  lemma LeftoverRanksBelow(m: CellMap, y: CellMap, cap: nat, dd: seq<Group>)
    requires |m| > cap >= 1 && Dominates(m, y)
    requires forall d :: d in dd ==> KeyOf(d) in y && CountsOf(d) == y[KeyOf(d)] && !IsResidue(d)
    requires forall x, d :: x in KeptOf(m, cap) && d in dd ==> KeyOf(x) != KeyOf(d)
    requires Sorted(RankLe, dd)
    ensures Sorted(RankLe, KeptOf(m, cap) + dd)
  {
    forall k, d | k in KeptOf(m, cap) && d in dd ensures RankLe(k, d) {
      DroppedRanksBelow(m, y, cap, k, d);
    }
    KeptSorted(m, cap);
    SortedConcat(KeptOf(m, cap), dd);
  }

  // So they extend the first fold's cells, none of them is the residue, and they rank below the kept.
  lemma LeftoverIsApart(m: CellMap, y: CellMap, cap: nat, kept: seq<Group>, res: Group, dd: seq<Group>)
    requires |m| > cap >= 1 && Dominates(m, y) && kept == KeptOf(m, cap) && IsResidue(res) && Distinct(kept + [res])
    requires Distinct(dd) && Sorted(RankLe, dd) && Cells(dd) == map k | k in y && k !in Cells(kept + [res]) :: y[k]
    ensures Distinct(kept + [res] + dd) && Distinct(kept + dd) && Sorted(RankLe, kept + dd)
    ensures forall g :: g in dd ==> !IsResidue(g)
  {
    LeftoverIsNew(kept + [res], y, dd);
    DistinctConcat(kept + [res], dd);
    assert (kept + [res])[..|kept|] == kept && (kept + [res])[|kept|] == res;
    assert res in kept + [res];
    forall x, d | x in kept && d in dd ensures KeyOf(x) != KeyOf(d) { assert x in kept + [res]; }
    assert Distinct((kept + [res])[..|kept|]);
    DistinctConcat(kept, dd);
    LeftoverRanksBelow(m, y, cap, dd);
  }

  lemma KeptSorted(m: CellMap, cap: nat)
    ensures Sorted(RankLe, KeptOf(m, cap))
  {
    RankIsAnOrder();
    SortSorts(RankLe, Rest(ToGroups(m)));
  }

  lemma DistinctConcat(a: seq<Group>, b: seq<Group>)
    requires Distinct(a) && Distinct(b) && forall x, y :: x in a && y in b ==> KeyOf(x) != KeyOf(y)
    ensures Distinct(a + b)
  {
    forall i, j | 0 <= i < j < |a + b| ensures KeyOf((a + b)[i]) != KeyOf((a + b)[j]) {
      if i < |a| <= j { assert (a + b)[i] in a && (a + b)[j] in b; }
    }
  }

  lemma SortedConcat(a: seq<Group>, b: seq<Group>)
    requires Sorted(RankLe, a) && Sorted(RankLe, b) && forall x, y :: x in a && y in b ==> RankLe(x, y)
    ensures Sorted(RankLe, a + b)
  {
    forall i, j | 0 <= i < j < |a + b| ensures RankLe((a + b)[i], (a + b)[j]) {
      if i < |a| <= j { assert (a + b)[i] in a && (a + b)[j] in b; }
    }
  }

  lemma TwiceIs(a: Census, b: Census, cap: nat)
    requires cap >= 1 && |MaxCells(Cells(a.groups), Cells(b.groups))| > cap
    ensures var m := MaxCells(Cells(a.groups), Cells(b.groups)); TwoFolds(a, b, cap, KeptOf(m, cap), ResidueOf(m, cap))
  {
    var y := Cells(b.groups);
    var m := MaxCells(Cells(a.groups), y);
    var kept, res := KeptOf(m, cap), ResidueOf(m, cap);
    var once := Merge(a, b, cap);
    OnceIs(a, b, cap);
    FirstFold(m, cap);
    MaxDominates(Cells(a.groups), y);
    LeftoverFacts(b, once);
    FoldAgain(m, y, cap, kept, res, Leftover(b, once));
    FoldIs(once, b, cap);
  }

  lemma MaxDominates(x: CellMap, y: CellMap)
    ensures Dominates(MaxCells(x, y), y)
  {}

  lemma FoldIs(a: Census, b: Census, cap: nat)
    ensures Merge(a, b, cap).groups == Bound(ToGroups(MaxCells(Cells(a.groups), Cells(b.groups))), cap)
  {
    CellsOfConcat(a.groups, b.groups);
  }

  lemma FoldFits(a: Census, b: Census, cap: nat)
    requires cap >= 1
    ensures |Cells(Merge(a, b, cap).groups)| <= cap
  {
    FoldIs(a, b, cap);
    var m := MaxCells(Cells(a.groups), Cells(b.groups));
    BoundLaws(ToGroups(m), cap);
    CellsOfDistinct(Bound(ToGroups(m), cap));
  }

  lemma FoldAgain(m: CellMap, y: CellMap, cap: nat, kept: seq<Group>, res: Group, dd: seq<Group>)
    requires |m| > cap >= 1 && Dominates(m, y) && kept == KeptOf(m, cap) && |kept| == cap - 1
    requires Distinct(kept + [res]) && IsResidue(res)
    requires forall g :: g in kept ==> !IsResidue(g) && KeyOf(g) in m && m[KeyOf(g)] == CountsOf(g)
    requires At(m, RESIDUE).devices <= res.devices && At(m, RESIDUE).users <= res.users
    requires Distinct(dd) && Sorted(RankLe, dd) && Cells(dd) == map k | k in y && k !in Cells(kept + [res]) :: y[k]
    ensures Bound(ToGroups(MaxCells(Cells(kept + [res]), y)), cap) == Sort(CanonLe, kept + [Raised(res, dd)])
  {
    var all := kept + [res] + dd;
    LeftoverIsApart(m, y, cap, kept, res, dd);
    SecondMap(m, y, kept, res, dd);
    BoundOfCells(all, cap);
    if dd == [] {
      assert all == kept + [res];
      WithinCap(all, cap);
      RaisedByNothing(res);
    } else {
      BoundAgain(kept, res, dd, cap);
    }
  }

  lemma BoundOfCells(all: seq<Group>, cap: nat)
    requires Distinct(all)
    ensures Bound(ToGroups(Cells(all)), cap) == Bound(all, cap)
  {
    SameCellsSameGroups(all, ToGroups(Cells(all)));
    BoundOrderFree(all, ToGroups(Cells(all)), cap);
  }

  lemma WithinCap(all: seq<Group>, cap: nat)
    requires |all| <= cap
    ensures Bound(all, cap) == Sort(CanonLe, all)
  {}

  lemma RaisedByNothing(res: Group)
    requires IsResidue(res)
    ensures Raised(res, []) == res
  {}

  lemma {:induction false} SumZero(gs: seq<Group>)
    ensures Sum(gs) == Counts(0, 0) <==> forall g :: g in gs ==> CountsOf(g) == Counts(0, 0)
  {
    if gs != [] {
      SumZero(gs[1..]);
      assert gs == [gs[0]] + gs[1..];
    }
  }

  lemma LeftoverIsZero(b: Census, folded: Census)
    ensures Sum(Leftover(b, folded)) == Counts(0, 0) <==> AllZero(Dropped(b, folded))
  {
    var dd := Leftover(b, folded);
    LeftoverFacts(b, folded);
    SumZero(dd);
    CellsOfDistinct(dd);
    CellsKeys(dd);
    if AllZero(Dropped(b, folded)) {
      forall g | g in dd ensures CountsOf(g) == Counts(0, 0) {}
    }
    if forall g :: g in dd ==> CountsOf(g) == Counts(0, 0) {
      forall k | k in Dropped(b, folded) ensures Dropped(b, folded)[k] == Counts(0, 0) {
        var g :| g in dd && KeyOf(g) == k;
      }
    }
  }

  lemma SumOfListed(kept: seq<Group>, g: Group)
    ensures Sum(Sort(CanonLe, kept + [g])) == AddCounts(Sum(kept), CountsOf(g))
  {
    SumOfSort(CanonLe, kept + [g]);
    SumOfConcat(kept, [g]);
    SumOfOne(g);
  }

  lemma SameListSameResidue(kept: seq<Group>, a: Group, b: Group)
    requires IsResidue(a) && IsResidue(b)
    ensures Sort(CanonLe, kept + [a]) == Sort(CanonLe, kept + [b]) <==> CountsOf(a) == CountsOf(b)
  {
    SumOfListed(kept, a);
    SumOfListed(kept, b);
    if CountsOf(a) == CountsOf(b) { assert a == b; }
  }

  lemma AddNothing(c: Counts, d: Counts)
    ensures c == AddCounts(c, d) <==> d == Counts(0, 0)
  {}

  lemma SameFoldSameResidue(kept: seq<Group>, res: Group, dd: seq<Group>)
    requires IsResidue(res)
    ensures Sort(CanonLe, kept + [res]) == Sort(CanonLe, kept + [Raised(res, dd)]) <==> Sum(dd) == Counts(0, 0)
  {
    SameListSameResidue(kept, res, Raised(res, dd));
    AddNothing(CountsOf(res), Sum(dd));
  }

  lemma FoldTwiceIffDropped(a: Census, b: Census, cap: nat)
    requires cap >= 1
    ensures Merge(Merge(a, b, cap), b, cap) == Merge(a, b, cap) <==> AllZero(Dropped(b, Merge(a, b, cap)))
  {
    var m := MaxCells(Cells(a.groups), Cells(b.groups));
    var once := Merge(a, b, cap);
    if |m| <= cap {
      MergeIsIdempotent(a, b, cap);
      MergeIsPointwiseMax(a, b, cap);
    } else {
      TwiceIs(a, b, cap);
      FirstFold(m, cap);
      LeftoverIsZero(b, once);
      SameFoldSameResidue(KeptOf(m, cap), ResidueOf(m, cap), Leftover(b, once));
    }
  }

  // Of the cells of `y`, those that neither are the residue nor rank among the first of the union `m`
  // count nothing.
  ghost predicate RestCountsNothing(m: CellMap, y: CellMap, cap: nat) {
    forall k :: k in y && k != RESIDUE && k !in KeysOf(KeptOf(m, cap)) ==> y[k] == Counts(0, 0)
  }

  lemma DroppedIsTheRest(a: Census, b: Census, cap: nat)
    requires cap >= 1 && |MaxCells(Cells(a.groups), Cells(b.groups))| > cap
    ensures AllZero(Dropped(b, Merge(a, b, cap))) <==>
      RestCountsNothing(MaxCells(Cells(a.groups), Cells(b.groups)), Cells(b.groups), cap)
  {
    var y := Cells(b.groups);
    var m := MaxCells(Cells(a.groups), y);
    var kept, res := KeptOf(m, cap), ResidueOf(m, cap);
    OnceIs(a, b, cap);
    FirstFold(m, cap);
    CellsKeys(kept + [res]);
    KeysWithResidue(kept, res);
    ZeroWhereDropped(y, Cells(Merge(a, b, cap).groups), KeysOf(kept));
  }

  lemma ZeroWhereDropped(y: CellMap, folded: CellMap, kept: set<Key>)
    requires folded.Keys == kept + {RESIDUE}
    ensures AllZero(map k | k in y && k !in folded :: y[k]) <==>
            forall k :: k in y && k != RESIDUE && k !in kept ==> y[k] == Counts(0, 0)
  {
    var dropped := map k | k in y && k !in folded :: y[k];
    forall k ensures k in dropped <==> k in y && k != RESIDUE && k !in kept {}
  }

  lemma KeysWithResidue(kept: seq<Group>, res: Group)
    requires IsResidue(res)
    ensures KeysOf(kept + [res]) == KeysOf(kept) + {RESIDUE}
  {
    assert res in kept + [res];
    forall g | g in kept ensures g in kept + [res] {}
  }

  /** Folding the same census a second time changes nothing if and only if the union of cells fits the
      cap, or every cell of that census that neither is the residue nor ranks among the first of the
      union counts nothing. */
  lemma FoldTwiceIff(a: Census, b: Census, cap: nat)
    requires cap >= 1
    ensures var m := MaxCells(Cells(a.groups), Cells(b.groups));
      Merge(Merge(a, b, cap), b, cap) == Merge(a, b, cap) <==>
      |m| <= cap || RestCountsNothing(m, Cells(b.groups), cap)
  {
    if |MaxCells(Cells(a.groups), Cells(b.groups))| <= cap {
      MergeIsIdempotent(a, b, cap);
    } else {
      FoldTwiceIffDropped(a, b, cap);
      DroppedIsTheRest(a, b, cap);
    }
  }

  // ---------- Where it fails ----------

  /** So a census of more cells than the cap, each counting a device, is counted again by every
      replay: the fold is not idempotent on it. */
  lemma AReplayPastTheCapCountsAgain(a: Census, b: Census, cap: nat)
    requires cap >= 1 && |Cells(b.groups)| > cap
    requires forall k :: k in Cells(b.groups) ==> Cells(b.groups)[k].devices > 0
    ensures Merge(Merge(a, b, cap), b, cap) != Merge(a, b, cap)
  {
    var y, once := Cells(b.groups), Merge(a, b, cap);
    FoldFits(a, b, cap);
    SomeKeyOutside(y.Keys, Cells(once.groups).Keys);
    FoldTwiceIffDropped(a, b, cap);
    var k :| k in y && k !in Cells(once.groups);
    assert Dropped(b, once)[k].devices > 0;
  }

  lemma SomeKeyOutside(a: set<Key>, b: set<Key>)
    requires |a| > |b|
    ensures exists k :: k in a && k !in b
  {
    if a <= b { SubsetSize(a, b); }
  }

  // A new cell smaller than every other is not among the first of the union.
  lemma SmallestIsNotKept(x: CellMap, m: CellMap, cap: nat, k: Key)
    requires |x| == cap >= 1 && k !in x && k != RESIDUE && k in m && |m| > cap
    requires forall j :: j in x ==> j in m && m[k].devices < m[j].devices
    ensures k !in KeysOf(KeptOf(m, cap))
  {
    var kept := KeptOf(m, cap);
    FirstFold(m, cap);
    if k in KeysOf(kept) {
      var others := x.Keys - {RESIDUE};
      OthersSize(x, cap);
      KeptKeysSize(kept);
      SomeKeyOutsideBut(others, KeysOf(kept), k);
      var j :| j in others && j !in KeysOf(kept);
      var g :| g in kept && KeyOf(g) == k;
      Outranked(m, cap, g, Group(j.platform, j.version, m[j].devices, m[j].users));
    }
  }

  lemma OthersSize(x: CellMap, cap: nat)
    requires |x| == cap >= 1
    ensures |x.Keys - {RESIDUE}| >= cap - 1
  {
    assert x.Keys - {RESIDUE} == if RESIDUE in x then x.Keys - {RESIDUE} else x.Keys;
    assert |x.Keys| == |x|;
  }

  lemma {:induction false} KeptKeysSize(kept: seq<Group>)
    ensures |KeysOf(kept)| <= |kept|
  {
    if kept != [] {
      var front, last := kept[..|kept| - 1], kept[|kept| - 1];
      assert kept == front + [last];
      KeptKeysSize(front);
      assert KeysOf(kept) == KeysOf(front) + {KeyOf(last)};
    }
  }

  lemma SomeKeyOutsideBut(a: set<Key>, b: set<Key>, k: Key)
    requires |a| >= |b| && k in b && k !in a
    ensures exists j :: j in a && j !in b
  {
    SomeKeyOutside(a, b - {k});
    var j :| j in a && j !in b - {k};
    assert j !in b;
  }

  lemma Outranked(m: CellMap, cap: nat, kept: Group, lost: Group)
    requires kept in KeptOf(m, cap) && KeyOf(lost) in m && m[KeyOf(lost)] == CountsOf(lost) && !IsResidue(lost)
    requires KeyOf(lost) !in KeysOf(KeptOf(m, cap))
    ensures RankLe(kept, lost)
  {
    var gs := ToGroups(m);
    InDistinct(gs, lost);
    SplitDistinct(gs);
    RankIsAnOrder();
    SortSorts(RankLe, Rest(gs));
    assert lost !in KeptOf(m, cap);
    FirstOutrank(Ranked(gs), Room(Ranked(gs), cap), kept, lost);
  }

  /** It fails within the cap too, on censuses a sampler can fold: a bucket of as many cells as the cap,
      and a minute of one new, counted cell smaller than all of them. */
  lemma AReplayWithinTheCapCountsAgain(a: Census, b: Census, cap: nat, k: Key)
    requires cap >= 1 && |Cells(a.groups)| == cap && Cells(b.groups).Keys == {k}
    requires k !in Cells(a.groups) && k != RESIDUE && Cells(b.groups)[k].devices > 0
    requires forall j :: j in Cells(a.groups) ==> Cells(b.groups)[k].devices < Cells(a.groups)[j].devices
    ensures Merge(Merge(a, b, cap), b, cap) != Merge(a, b, cap)
  {
    var x, y := Cells(a.groups), Cells(b.groups);
    var m := MaxCells(x, y);
    UnionSize(x, y, k);
    SmallestIsNotKept(x, m, cap, k);
    FoldTwiceIff(a, b, cap);
    assert y[k] != Counts(0, 0);
  }

  lemma UnionSize(x: CellMap, y: CellMap, k: Key)
    requires y.Keys == {k} && k !in x
    ensures |MaxCells(x, y)| == |x| + 1
  {
    assert MaxCells(x, y).Keys == x.Keys + {k};
    assert |x.Keys| == |x| && |MaxCells(x, y).Keys| == |MaxCells(x, y)|;
  }

  // A full bucket: as many versions as the cap, three devices on each.
  function FullBucket(cap: nat): (c: Census) {
    Census(3 * cap, 3 * cap, seq(cap, i requires 0 <= i < cap => Group("web", Version(i), 3, 3)))
  }

  function Version(i: nat): (v: string) {
    seq(i + 1, _ => '1')
  }

  const NEWCOMER := Census(2, 2, [Group("ios", "1", 2, 2)])

  lemma FullBucketCells(cap: nat)
    ensures var gs := FullBucket(cap).groups;
      && Distinct(gs) && |Cells(gs)| == cap
      && (forall k :: k in Cells(gs) ==> k.platform == "web" && Cells(gs)[k] == Counts(3, 3))
  {
    var gs := FullBucket(cap).groups;
    forall i, j | 0 <= i < j < cap ensures KeyOf(gs[i]) != KeyOf(gs[j]) {
      assert |Version(i)| != |Version(j)|;
    }
    CellsOfDistinct(gs);
    CellsKeys(gs);
    forall k | k in Cells(gs) ensures k.platform == "web" && Cells(gs)[k] == Counts(3, 3) {
      var g :| g in gs && KeyOf(g) == k;
      assert Cells(gs)[k] == CountsOf(g);
    }
  }

  /** Such a pair at the cap in use: folding the minute a second time counts its device again. */
  lemma ASampledMinuteIsCountedTwice()
    ensures var a, b := FullBucket(MAX_GROUPS), NEWCOMER;
      && |a.groups| <= MAX_GROUPS && |b.groups| <= MAX_GROUPS && Distinct(a.groups) && Distinct(b.groups)
      && Merge(Merge(a, b, MAX_GROUPS), b, MAX_GROUPS) != Merge(a, b, MAX_GROUPS)
  {
    var k := Key("ios", "1");
    FullBucketCells(MAX_GROUPS);
    NewcomerCells();
    assert OTHER[1] != "ios"[1] && "web"[0] != "ios"[0];
    AReplayWithinTheCapCountsAgain(FullBucket(MAX_GROUPS), NEWCOMER, MAX_GROUPS, k);
  }

  lemma NewcomerCells()
    ensures Cells(NEWCOMER.groups) == map[Key("ios", "1") := Counts(2, 2)]
  {
    assert NEWCOMER.groups[..0] == [];
  }

  lemma FoldedWithItself(b: Census, cap: nat)
    requires |Cells(b.groups)| <= cap
    ensures var bb := Merge(b, b, cap);
      Cells(bb.groups) == Cells(b.groups) && bb.devices == b.devices && bb.users == b.users
  {
    var y := Cells(b.groups);
    assert MaxCells(y, y) == y;
    MergeIsPointwiseMax(b, b, cap);
  }

  /** A census folded twice one after the other, or with itself first: the two agree exactly when its
      replay changes nothing. */
  lemma RegroupedReplayIff(a: Census, b: Census, cap: nat)
    requires cap >= 1 && |Cells(b.groups)| <= cap
    ensures var m := MaxCells(Cells(a.groups), Cells(b.groups));
      Merge(Merge(a, b, cap), b, cap) == Merge(a, Merge(b, b, cap), cap) <==>
      |m| <= cap || RestCountsNothing(m, Cells(b.groups), cap)
  {
    FoldTwiceIff(a, b, cap);
    RegroupedReplay(a, b, cap);
  }

  lemma RegroupedReplay(a: Census, b: Census, cap: nat)
    requires |Cells(b.groups)| <= cap
    ensures Merge(a, Merge(b, b, cap), cap) == Merge(a, b, cap)
  {
    FoldedWithItself(b, cap);
    CellsOfConcat(a.groups, b.groups);
    CellsOfConcat(a.groups, Merge(b, b, cap).groups);
  }
}
