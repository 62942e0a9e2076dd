/**
  What the cells of a fold add up to. Past the cap single cells are lost, but nothing they counted is:
  the sums over the cells of a run of folds are at least those of every census folded into it, whatever
  the cap. That is the upper bound the cap is documented to be.
*/
module CensusSums {
  import opened Sorting
  import opened Census
  import opened CensusMerge
  import opened CensusLeaders
  import opened CensusPeaks

  // The sums of devices and of users over the cells of a map.
  ghost function CellSum(m: CellMap): (c: Counts) {
    Sum(ToGroups(m))
  }

  ghost function Weight(c: Census): (w: Counts) {
    CellSum(Cells(c.groups))
  }

  // A list with one group per cell adds up to what its cells do.
  lemma SumIsCellSum(gs: seq<Group>)
    requires Distinct(gs)
    ensures Sum(gs) == CellSum(Cells(gs))
  {
    var other := ToGroups(Cells(gs));
    SameCellsSameGroups(gs, other);
    DistinctIsUntied(gs);
    CanonIsAnOrder();
    SortOrderFree(CanonLe, gs, other);
    SumOfSort(CanonLe, gs);
    SumOfSort(CanonLe, other);
  }

  lemma CellSumWithout(m: CellMap, k: Key)
    requires k in m
    ensures CellSum(m) == AddCounts(CellSum(m - {k}), m[k])
  {
    var g := Group(k.platform, k.version, m[k].devices, m[k].users);
    var rest := ToGroups(m - {k});
    OneMoreCell(rest, g, m - {k});
    assert (m - {k})[k := m[k]] == m;
    SumIsCellSum(rest + [g]);
    SumOfConcat(rest, [g]);
    SumOfOne(g);
  }

  lemma CellSumWith(m: CellMap, k: Key, c: Counts)
    requires k !in m
    ensures CellSum(m[k := c]) == AddCounts(CellSum(m), c)
  {
    CellSumWithout(m[k := c], k);
    assert m[k := c] - {k} == m;
  }

  // The cap loses no count.
  lemma CutSum(x: CellMap, cap: nat)
    requires cap >= 1
    ensures CellSum(Cut(x, cap)) == CellSum(x)
  {
    BoundLaws(ToGroups(x), cap);
    SumIsCellSum(Bound(ToGroups(x), cap));
  }

  lemma {:induction false} SmallerSums(x: CellMap, m: CellMap)
    requires Dominates(m, x)
    ensures Below(CellSum(x), CellSum(m))
    decreases |x|
  {
    if x == map[] {
      assert ToGroups(x) == [];
    } else {
      var k :| k in x;
      CellSumWithout(x, k);
      CellSumWithout(m, k);
      assert Dominates(m - {k}, x - {k});
      SmallerSums(x - {k}, m - {k});
    }
  }

  lemma MaxDominatesBoth(x: CellMap, y: CellMap)
    ensures Dominates(MaxCells(x, y), x) && Dominates(MaxCells(x, y), y)
  {}

  lemma FoldedWeight(a: Census, b: Census, cap: nat)
    requires cap >= 1
    ensures Weight(Merge(a, b, cap)) == CellSum(MaxCells(Cells(a.groups), Cells(b.groups)))
  {
    CellsOfConcat(a.groups, b.groups);
    CutSum(MaxCells(Cells(a.groups), Cells(b.groups)), cap);
  }

  /** One fold adds up to at least what either census did. */
  lemma MergeWeighs(a: Census, b: Census, cap: nat)
    requires cap >= 1
    ensures Below(Weight(a), Weight(Merge(a, b, cap))) && Below(Weight(b), Weight(Merge(a, b, cap)))
  {
    FoldedWeight(a, b, cap);
    MaxDominatesBoth(Cells(a.groups), Cells(b.groups));
    SmallerSums(Cells(a.groups), MaxCells(Cells(a.groups), Cells(b.groups)));
    SmallerSums(Cells(b.groups), MaxCells(Cells(a.groups), Cells(b.groups)));
  }

  /** And a run of folds to at least what every census folded did. */
  lemma {:induction false} FoldWeighs(cs: seq<Census>, cap: nat, c: Census)
    requires cap >= 1 && c in cs
    ensures Below(Weight(c), Weight(Fold(cs, cap)))
  {
    if |cs| > 1 {
      var front, last := cs[..|cs| - 1], cs[|cs| - 1];
      assert cs == front + [last];
      MergeWeighs(Fold(front, cap), last, cap);
      if c in front { FoldWeighs(front, cap, c); }
    }
  }
}
