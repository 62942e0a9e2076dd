/**
  Folds in any grouping. A replica folds minute by minute, a roll-up folds buckets that were folded
  before, and races decide the order; each is some tree of folds over the same censuses. Two such trees
  agree on the totals, on the cells they name and on the devices of each, whatever the cap. What can
  differ is the residue, and the users of a cell that was folded away and came back.
*/
module CensusGroupings {
  import opened Census
  import opened CensusMerge
  import opened CensusOverflow
  import opened CensusLeaders
  import opened CensusPeaks
  import opened CensusSums

  datatype Grouping = Alone(census: Census) | Together(left: Grouping, right: Grouping)

  ghost function FoldAll(g: Grouping, cap: nat): (c: Census) {
    match g
    case Alone(c) => c
    case Together(l, r) => Merge(FoldAll(l, cap), FoldAll(r, cap), cap)
  }

  function Members(g: Grouping): (cs: set<Census>) {
    match g
    case Alone(c) => {c}
    case Together(l, r) => Members(l) + Members(r)
  }

  function PeakIn(g: Grouping): (p: Peak) {
    match g
    case Alone(c) => PeakOf(c)
    case Together(l, r) => Join(PeakIn(l), PeakIn(r))
  }

  // ---------- The peak is of the members ----------

  lemma {:induction false} PeakInIsLeast(x: Peak, g: Grouping)
    ensures Above(x, PeakIn(g)) <==> forall c :: c in Members(g) ==> Above(x, PeakOf(c))
  {
    if g.Together? {
      PeakInIsLeast(x, g.left);
      PeakInIsLeast(x, g.right);
      JoinIsLeast(x, PeakIn(g.left), PeakIn(g.right));
    }
  }

  lemma SamePeakIn(g: Grouping, h: Grouping)
    requires Members(g) == Members(h)
    ensures PeakIn(g) == PeakIn(h)
  {
    PeakInIsLeast(PeakIn(g), g);
    PeakInIsLeast(PeakIn(g), h);
    PeakInIsLeast(PeakIn(h), g);
    PeakInIsLeast(PeakIn(h), h);
    AboveBothWays(PeakIn(g), PeakIn(h));
  }

  // ---------- What every grouping comes to ----------

  lemma {:induction false} GroupingTotals(g: Grouping, cap: nat)
    ensures FoldAll(g, cap).devices == PeakIn(g).devices && FoldAll(g, cap).users == PeakIn(g).users
  {
    if g.Together? {
      GroupingTotals(g.left, cap);
      GroupingTotals(g.right, cap);
    }
  }

  /** Whatever the grouping and the cap, the leaders of the peak stand in the fold with their device
      counts; one fold at least, and nothing else does but the residue. */
  lemma {:induction false} GroupingStands(g: Grouping, cap: nat)
    requires cap >= 1
    ensures StandsFor(Cells(FoldAll(g, cap).groups), PeakIn(g).cells, cap)
    ensures g.Together? ==> Tops(Cells(FoldAll(g, cap).groups), PeakIn(g).cells, cap)
  {
    match g
    case Alone(c) => StandsForItself(Cells(c.groups), cap);
    case Together(l, r) =>
      GroupingStands(l, cap);
      GroupingStands(r, cap);
      FoldTops(FoldAll(l, cap), FoldAll(r, cap), PeakIn(l).cells, PeakIn(r).cells, cap);
  }

  lemma {:induction false} GroupingThatFits(g: Grouping, cap: nat)
    requires Fits(PeakIn(g).cells, cap)
    ensures Cells(FoldAll(g, cap).groups) == PeakIn(g).cells
    ensures g.Together? ==> FoldAll(g, cap).groups == Canon(PeakIn(g).cells)
  {
    if g.Together? {
      SmallerFits(PeakIn(g.left).cells, PeakIn(g).cells, cap);
      SmallerFits(PeakIn(g.right).cells, PeakIn(g).cells, cap);
      GroupingThatFits(g.left, cap);
      GroupingThatFits(g.right, cap);
      MergeIsPointwiseMax(FoldAll(g.left, cap), FoldAll(g.right, cap), cap);
    }
  }

  // ---------- The residue is the difference of the sums ----------

  lemma {:induction false} SameDevicesSameSum(s: CellMap, t: CellMap)
    requires s.Keys == t.Keys && forall k :: k in s ==> s[k].devices == t[k].devices
    ensures CellSum(s).devices == CellSum(t).devices
    decreases |s|
  {
    if s == map[] {
      assert t == map[];
    } else {
      var k :| k in s;
      CellSumWithout(s, k);
      CellSumWithout(t, k);
      SameDevicesSameSum(s - {k}, t - {k});
    }
  }

  lemma ResidueIsTheDifference(s: CellMap, t: CellMap)
    requires SameNamed(s, t)
    ensures CellSum(s).devices - CellSum(t).devices == At(s, RESIDUE).devices - At(t, RESIDUE).devices
  {
    if RESIDUE in s {
      CellSumWithout(s, RESIDUE);
      CellSumWithout(t, RESIDUE);
      SameDevicesSameSum(s - {RESIDUE}, t - {RESIDUE});
    } else {
      SameDevicesSameSum(s, t);
    }
  }

  /** Two groupings of the same censuses agree on the totals, on the cells they name and on the devices
      of each, whatever the cap; their residues differ exactly as the sums over their cells do; and while
      the cells fit, the two are the same census. */
  lemma EveryGroupingAgrees(g: Grouping, h: Grouping, cap: nat)
    requires g.Together? && h.Together? && Members(g) == Members(h)
    ensures FoldAll(g, cap).devices == FoldAll(h, cap).devices && FoldAll(g, cap).users == FoldAll(h, cap).users
    ensures var s, t := Cells(FoldAll(g, cap).groups), Cells(FoldAll(h, cap).groups);
      cap >= 1 ==>
        && SameNamed(s, t)
        && At(s, RESIDUE).devices - At(t, RESIDUE).devices == CellSum(s).devices - CellSum(t).devices
    ensures Fits(PeakIn(g).cells, cap) ==> FoldAll(g, cap) == FoldAll(h, cap)
  {
    SamePeakIn(g, h);
    GroupingTotals(g, cap);
    GroupingTotals(h, cap);
    if cap >= 1 {
      var s, t := Cells(FoldAll(g, cap).groups), Cells(FoldAll(h, cap).groups);
      GroupingStands(g, cap);
      GroupingStands(h, cap);
      TopsAgree(s, t, PeakIn(g).cells, cap);
      ResidueIsTheDifference(s, t);
    }
    if Fits(PeakIn(g).cells, cap) {
      GroupingThatFits(g, cap);
      GroupingThatFits(h, cap);
    }
  }

  function LeftFirst(a: Census, b: Census, c: Census): (g: Grouping) {
    Together(Together(Alone(a), Alone(b)), Alone(c))
  }

  function RightFirst(a: Census, b: Census, c: Census): (g: Grouping) {
    Together(Alone(a), Together(Alone(b), Alone(c)))
  }

  lemma ThreeMembers(a: Census, b: Census, c: Census)
    ensures Members(LeftFirst(a, b, c)) == {a, b, c} == Members(RightFirst(a, b, c))
  {
    assert Members(Together(Alone(a), Alone(b))) == {a, b};
    assert Members(Together(Alone(b), Alone(c))) == {b, c};
  }

  lemma LeftFirstIs(a: Census, b: Census, c: Census, cap: nat)
    ensures FoldAll(LeftFirst(a, b, c), cap) == Merge(Merge(a, b, cap), c, cap)
    ensures PeakIn(LeftFirst(a, b, c)).cells == MaxCells(MaxCells(Cells(a.groups), Cells(b.groups)), Cells(c.groups))
  {
    var ab := Together(Alone(a), Alone(b));
    assert FoldAll(ab, cap) == Merge(a, b, cap) && PeakIn(ab).cells == MaxCells(Cells(a.groups), Cells(b.groups));
  }

  lemma RightFirstIs(a: Census, b: Census, c: Census, cap: nat)
    ensures FoldAll(RightFirst(a, b, c), cap) == Merge(a, Merge(b, c, cap), cap)
  {
    assert FoldAll(Together(Alone(b), Alone(c)), cap) == Merge(b, c, cap);
  }

  /** The fold is associative in its totals, in the cells it names and in their devices, whatever the
      cap; and in everything while the union of the three cell maps fits. */
  lemma MergeAssociates(a: Census, b: Census, c: Census, cap: nat)
    ensures var l, r := Merge(Merge(a, b, cap), c, cap), Merge(a, Merge(b, c, cap), cap);
      && l.devices == r.devices && l.users == r.users
      && (cap >= 1 ==> SameNamed(Cells(l.groups), Cells(r.groups)))
      && (Fits(MaxCells(MaxCells(Cells(a.groups), Cells(b.groups)), Cells(c.groups)), cap) ==> l == r)
  {
    ThreeMembers(a, b, c);
    LeftFirstIs(a, b, c, cap);
    RightFirstIs(a, b, c, cap);
    EveryGroupingAgrees(LeftFirst(a, b, c), RightFirst(a, b, c), cap);
  }

  // ---------- Users ----------

  lemma LeadsOneSide(m: CellMap, n: CellMap, cap: nat, k: Key)
    requires Leads(MaxCells(m, n), cap, k) && k in m && m[k].devices == MaxCells(m, n)[k].devices
    ensures Leads(m, cap, k)
  {
    forall j | j in m && j != RESIDUE ensures j in MaxCells(m, n) && Below(m[j], MaxCells(m, n)[j]) {}
    LeadsBelow(m, MaxCells(m, n), cap, k);
  }

  // A leader's users in a fold are at least those on either side of it.
  lemma MergeUsers(a: Census, b: Census, cap: nat, k: Key)
    requires cap >= 1 && k in Cells(a.groups) && k != RESIDUE && k in Cells(Merge(a, b, cap).groups)
    ensures Cells(Merge(a, b, cap).groups)[k].users >= Cells(a.groups)[k].users
  {
    var x := MaxCells(Cells(a.groups), Cells(b.groups));
    FoldIs(a, b, cap);
    CutKeepsTheNamed(x, cap, k);
  }

  lemma PeakInHolds(g: Grouping, c: Census, k: Key)
    requires c in Members(g) && k in Cells(c.groups)
    ensures k in PeakIn(g).cells && Below(Cells(c.groups)[k], PeakIn(g).cells[k])
  {
    PeakInIsLeast(PeakIn(g), g);
    assert Above(PeakIn(g), PeakOf(c));
  }

  /** The users of a leader lie between those it had where its devices peaked and its own peak. */
  lemma {:induction false} UsersAreOfThePeak(g: Grouping, cap: nat, c: Census, k: Key)
    requires cap >= 1 && c in Members(g) && k in Cells(c.groups)
    requires Leads(PeakIn(g).cells, cap, k) && Cells(c.groups)[k].devices == PeakIn(g).cells[k].devices
    ensures k in Cells(FoldAll(g, cap).groups)
    ensures Cells(c.groups)[k].users <= Cells(FoldAll(g, cap).groups)[k].users <= PeakIn(g).cells[k].users
  {
    GroupingStands(g, cap);
    var s := Cells(FoldAll(g, cap).groups);
    assert k in s && Below(s[k], PeakIn(g).cells[k]);
    if g.Together? {
      var l, r := PeakIn(g.left).cells, PeakIn(g.right).cells;
      if c in Members(g.left) {
        PeakInHolds(g.left, c, k);
        LeadsOneSide(l, r, cap, k);
        UsersAreOfThePeak(g.left, cap, c, k);
        MergeUsers(FoldAll(g.left, cap), FoldAll(g.right, cap), cap, k);
      } else {
        PeakInHolds(g.right, c, k);
        MaxCellsCommutes(l, r);
        LeadsOneSide(r, l, cap, k);
        UsersAreOfThePeak(g.right, cap, c, k);
        MergeCommutes(FoldAll(g.left, cap), FoldAll(g.right, cap), cap);
        MergeUsers(FoldAll(g.right, cap), FoldAll(g.left, cap), cap, k);
      }
    }
  }
}
