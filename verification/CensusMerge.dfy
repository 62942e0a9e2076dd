/**
  The fold of censuses by maximum. Totals are exact maxima whatever the cap. The cells form, while
  they fit the cap, a commutative, associative and idempotent algebra: the pointwise maximum of cell
  maps in canonical order.
*/
module CensusMerge {
  import opened Sorting
  import opened Census

  ghost function Merge(into: Census, other: Census, cap: nat): (r: Census) {
    Census(Max(into.devices, other.devices), Max(into.users, other.users),
           Bound(ToGroups(Cells(into.groups + other.groups)), cap))
  }

  // The groups of a cell map, in the canonical order.
  ghost function Canon(m: CellMap): (gs: seq<Group>) {
    Sort(CanonLe, ToGroups(m))
  }

  // ---------- The methods ----------

  lemma {:induction false} SplitSnoc(gs: seq<Group>, g: Group)
    ensures Residue(gs + [g]) == Residue(gs) + (if IsResidue(g) then [g] else [])
    ensures Rest(gs + [g]) == Rest(gs) + (if IsResidue(g) then [] else [g])
  {
    if gs == [] {
      assert [g][1..] == [];
    } else {
      assert (gs + [g])[1..] == gs[1..] + [g];
      SplitSnoc(gs[1..], g);
    }
  }

  method Partition(groups: seq<Group>) returns (residue: seq<Group>, rest: seq<Group>)
    ensures residue == Residue(groups) && rest == Rest(groups)
  {
    residue, rest := [], [];
    for i := 0 to |groups|
      invariant residue == Residue(groups[..i]) && rest == Rest(groups[..i])
    {
      assert groups[..i + 1] == groups[..i] + [groups[i]];
      SplitSnoc(groups[..i], groups[i]);
      if IsResidue(groups[i]) {
        residue := residue + [groups[i]];
      } else {
        rest := rest + [groups[i]];
      }
    }
    assert groups[..|groups|] == groups;
  }

  method FoldOverflow(start: Group, overflow: seq<Group>) returns (folded: Group)
    requires IsResidue(start)
    ensures KeyOf(folded) == RESIDUE && CountsOf(folded) == AddCounts(CountsOf(start), Sum(overflow))
  {
    folded := start;
    for i := 0 to |overflow|
      invariant KeyOf(folded) == RESIDUE
      invariant CountsOf(folded) == AddCounts(CountsOf(start), Sum(overflow[..i]))
    {
      assert overflow[..i + 1] == overflow[..i] + [overflow[i]];
      SumOfConcat(overflow[..i], [overflow[i]]);
      SumOfOne(overflow[i]);
      folded := folded.(devices := folded.devices + overflow[i].devices, users := folded.users + overflow[i].users);
    }
    assert overflow[..|overflow|] == overflow;
  }

  lemma StartsAtTheResidue(groups: seq<Group>)
    ensures var residue := Residue(groups); residue != [] ==> IsResidue(residue[|residue| - 1])
  {
    SplitMembers(groups);
    assert Residue(groups) != [] ==> Residue(groups)[|Residue(groups)| - 1] in Residue(groups);
  }

  lemma FoldedIs(ranked: seq<Group>, residue: seq<Group>, cap: nat, folded: Group)
    requires KeyOf(folded) == RESIDUE
    requires var start := if residue == [] then Group(OTHER, OTHER, 0, 0) else residue[|residue| - 1];
      CountsOf(folded) == AddCounts(CountsOf(start), Sum(ranked[Room(ranked, cap)..]))
    ensures folded == Folded(ranked, residue, cap)
  {}

  method BoundGroups(groups: seq<Group>, cap: nat) returns (r: seq<Group>)
    ensures r == Bound(groups, cap)
  {
    if |groups| <= cap { return Sort(CanonLe, groups); }
    var residue, rest := Partition(groups);
    rest := Sort(RankLe, rest);
    var split := if cap == 0 then 0 else if cap - 1 <= |rest| then cap - 1 else |rest|;
    var start := if residue == [] then Group(OTHER, OTHER, 0, 0) else residue[|residue| - 1];
    StartsAtTheResidue(groups);
    var folded := FoldOverflow(start, rest[split..]);
    FoldedIs(rest, residue, cap, folded);
    r := Sort(CanonLe, rest[..split] + [folded]);
  }

  // Lays the cells out as groups; the order does not matter, since they are sorted next.
  method ListCells(cells: CellMap) returns (groups: seq<Group>)
    ensures Distinct(groups) && Cells(groups) == cells
  {
    groups := [];
    var todo := cells.Keys;
    ghost var done: CellMap := map[];
    while todo != {}
      invariant Distinct(groups) && Cells(groups) == done
      invariant done.Keys == cells.Keys - todo && todo <= cells.Keys
      invariant forall k :: k in done ==> done[k] == cells[k]
      decreases |todo|
    {
      var k :| k in todo;
      var g := Group(k.platform, k.version, cells[k].devices, cells[k].users);
      OneMoreCell(groups, g, done);
      groups := groups + [g];
      todo := todo - {k};
      done := done[k := cells[k]];
    }
    assert done == cells;
  }

  /** The fold as the source runs it: the totals, then every group of both lists raised into one map
      of cells, then the cap. */
  method MergeMax(into: Census, other: Census, cap: nat) returns (r: Census)
    ensures r == Merge(into, other, cap)
  {
    var chain := into.groups + other.groups;
    var cells: CellMap := map[];
    for i := 0 to |chain|
      invariant cells == Cells(chain[..i])
    {
      assert chain[..i + 1][..i] == chain[..i];
      cells := Raise(cells, chain[i]);
    }
    assert chain[..|chain|] == chain;
    var groups := ListCells(cells);
    SameCellsSameGroups(groups, ToGroups(cells));
    BoundOrderFree(groups, ToGroups(cells), cap);
    var bounded := BoundGroups(groups, cap);
    r := Census(Max(into.devices, other.devices), Max(into.users, other.users), bounded);
  }

  // ---------- The cap does not see the order ----------

  lemma SplitOrderFree(a: seq<Group>, b: seq<Group>)
    requires multiset(a) == multiset(b)
    ensures multiset(Rest(a)) == multiset(Rest(b)) && multiset(Residue(a)) == multiset(Residue(b))
  {
    forall x ensures multiset(Rest(a))[x] == multiset(Rest(b))[x] && multiset(Residue(a))[x] == multiset(Residue(b))[x] {
      SplitCounts(a, x);
      SplitCounts(b, x);
    }
  }

  lemma ResidueOrderFree(a: seq<Group>, b: seq<Group>)
    requires |a| <= 1 && multiset(a) == multiset(b)
    ensures a == b
  {
    assert |multiset(a)| == |a| && |multiset(b)| == |b|;
    SameMembers(a, b);
    if a != [] { assert a[0] in a && b[0] in b; }
  }

  lemma PartsOrderFree(a: seq<Group>, b: seq<Group>)
    requires Distinct(a) && multiset(a) == multiset(b)
    ensures Ranked(a) == Ranked(b) && Residue(a) == Residue(b)
  {
    SplitOrderFree(a, b);
    SplitDistinct(a);
    RankedOrderFree(a, b);
    ResidueOrderFree(Residue(a), Residue(b));
  }

  lemma RankedOrderFree(a: seq<Group>, b: seq<Group>)
    requires Distinct(Rest(a)) && multiset(Rest(a)) == multiset(Rest(b))
    ensures Ranked(a) == Ranked(b)
  {
    DistinctIsUntied(Rest(a));
    RankIsAnOrder();
    SortOrderFree(RankLe, Rest(a), Rest(b));
  }

  /** Two lists of the same distinct cells, in whatever order, are bounded to the same list. */
  lemma BoundOrderFree(a: seq<Group>, b: seq<Group>, cap: nat)
    requires Distinct(a) && multiset(a) == multiset(b)
    ensures Bound(a, cap) == Bound(b, cap)
  {
    assert |multiset(a)| == |a| && |multiset(b)| == |b|;
    if |a| <= cap {
      DistinctIsUntied(a);
      CanonIsAnOrder();
      SortOrderFree(CanonLe, a, b);
    } else {
      PartsOrderFree(a, b);
    }
  }

  // ---------- The algebra ----------

  lemma CanonSaysItsMap(m: CellMap)
    ensures Cells(Canon(m)) == m && Distinct(Canon(m))
  {
    PermutedDistinct(ToGroups(m), Canon(m));
  }

  ghost predicate Fits(m: CellMap, cap: nat) {
    |m| <= cap
  }

  /** While the union of cells fits the cap, the fold is the pointwise maximum of the two cell maps,
      in canonical order. */
  lemma MergeIsPointwiseMax(a: Census, b: Census, cap: nat)
    requires Fits(MaxCells(Cells(a.groups), Cells(b.groups)), cap)
    ensures var m := MaxCells(Cells(a.groups), Cells(b.groups));
      Merge(a, b, cap).groups == Canon(m) && Cells(Merge(a, b, cap).groups) == m
  {
    CellsOfConcat(a.groups, b.groups);
    CanonSaysItsMap(MaxCells(Cells(a.groups), Cells(b.groups)));
  }

  lemma MaxCellsCommutes(a: CellMap, b: CellMap)
    ensures MaxCells(a, b) == MaxCells(b, a)
  {}

  lemma AtMax(a: CellMap, b: CellMap, k: Key)
    ensures At(MaxCells(a, b), k) == MaxCounts(At(a, k), At(b, k))
  {}

  lemma MaxCellsIdempotent(a: CellMap, b: CellMap)
    ensures MaxCells(MaxCells(a, b), b) == MaxCells(a, b)
  {
    var l, r := MaxCells(MaxCells(a, b), b), MaxCells(a, b);
    assert l.Keys == r.Keys;
    forall k | k in l ensures l[k] == r[k] {
      AtMax(a, b, k);
      MaxCountsLaws(At(a, k), At(b, k), At(b, k));
    }
  }

  /** The fold is commutative, whatever the cap. */
  lemma MergeCommutes(a: Census, b: Census, cap: nat)
    ensures Merge(a, b, cap) == Merge(b, a, cap)
  {
    CellsOfConcat(a.groups, b.groups);
    CellsOfConcat(b.groups, a.groups);
    MaxCellsCommutes(Cells(a.groups), Cells(b.groups));
  }

  lemma SmallerFits(a: CellMap, b: CellMap, cap: nat)
    requires a.Keys <= b.Keys && Fits(b, cap)
    ensures Fits(a, cap)
  {
    SubsetSize(a.Keys, b.Keys);
    assert |a| == |a.Keys| && |b| == |b.Keys|;
  }

  lemma SubsetSize<T>(a: set<T>, b: set<T>)
    requires a <= b
    ensures |a| <= |b|
  {
    assert b == a + (b - a);
  }

  /** It is idempotent while the union fits: a census folded twice changes nothing. */
  lemma MergeIsIdempotent(a: Census, b: Census, cap: nat)
    requires Fits(MaxCells(Cells(a.groups), Cells(b.groups)), cap)
    ensures Merge(Merge(a, b, cap), b, cap) == Merge(a, b, cap)
  {
    var x, y := Cells(a.groups), Cells(b.groups);
    var ab := Merge(a, b, cap);
    MergeIsPointwiseMax(a, b, cap);
    MaxCellsIdempotent(x, y);
    MergeIsPointwiseMax(ab, b, cap);
  }
}
