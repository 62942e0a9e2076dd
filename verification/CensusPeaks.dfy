/**
  What a run of folds amounts to. The peak of some censuses is the maximum of their totals and of each
  of their cells: the least that lies above all of them. A run of folds has exactly the peak's totals;
  its cells too while they fit the cap, and past it the peak's leaders with the peak's device counts.
*/
module CensusPeaks {
  import opened Census
  import opened CensusMerge
  import opened CensusLeaders

  datatype Peak = Peak(devices: nat, users: nat, cells: CellMap)

  function PeakOf(c: Census): (p: Peak) {
    Peak(c.devices, c.users, Cells(c.groups))
  }

  function Join(p: Peak, q: Peak): (r: Peak) {
    Peak(Max(p.devices, q.devices), Max(p.users, q.users), MaxCells(p.cells, q.cells))
  }

  function PeakAll(cs: seq<Census>): (p: Peak) {
    if cs == [] then Peak(0, 0, map[]) else Join(PeakAll(cs[..|cs| - 1]), PeakOf(cs[|cs| - 1]))
  }

  predicate Above(p: Peak, q: Peak) {
    q.devices <= p.devices && q.users <= p.users && Dominates(p.cells, q.cells)
  }

  // ---------- Least upper bound ----------

  lemma JoinIsLeast(x: Peak, p: Peak, q: Peak)
    ensures Above(x, Join(p, q)) <==> Above(x, p) && Above(x, q)
  {
    var m := MaxCells(p.cells, q.cells);
    if Above(x, Join(p, q)) {
      forall k | k in p.cells || k in q.cells ensures k in m {}
    }
  }

  lemma {:induction false} PeakIsLeast(x: Peak, cs: seq<Census>)
    ensures Above(x, PeakAll(cs)) <==> forall c :: c in cs ==> Above(x, PeakOf(c))
  {
    if cs != [] {
      var front, last := cs[..|cs| - 1], cs[|cs| - 1];
      assert cs == front + [last];
      PeakIsLeast(x, front);
      JoinIsLeast(x, PeakAll(front), PeakOf(last));
    }
  }

  lemma {:induction false} TotalsAreLeast(devices: nat, users: nat, cs: seq<Census>)
    ensures PeakAll(cs).devices <= devices <==> forall c :: c in cs ==> c.devices <= devices
    ensures PeakAll(cs).users <= users <==> forall c :: c in cs ==> c.users <= users
  {
    if cs != [] {
      var front, last := cs[..|cs| - 1], cs[|cs| - 1];
      assert cs == front + [last];
      TotalsAreLeast(devices, users, front);
    }
  }

  lemma AboveBothWays(p: Peak, q: Peak)
    requires Above(p, q) && Above(q, p)
    ensures p == q
  {
    assert p.cells.Keys == q.cells.Keys;
    forall k | k in p.cells ensures p.cells[k] == q.cells[k] {}
  }

  // ---------- Runs of folds ----------

  // The first census as it is, each later one folded in.
  ghost function Fold(cs: seq<Census>, cap: nat): (r: Census)
    requires cs != []
  {
    if |cs| == 1 then cs[0] else Merge(Fold(cs[..|cs| - 1], cap), cs[|cs| - 1], cap)
  }

  lemma FoldOfTwo(a: Census, b: Census, cap: nat)
    ensures Fold([a, b], cap) == Merge(a, b, cap)
  {
    assert [a, b][..1] == [a];
  }

  lemma FoldOfThree(a: Census, b: Census, c: Census, cap: nat)
    ensures Fold([a, b, c], cap) == Merge(Merge(a, b, cap), c, cap)
  {
    assert [a, b, c][..2] == [a, b];
    FoldOfTwo(a, b, cap);
  }

  /** The totals of a run of folds are the maxima over every census folded, whatever the cap. */
  lemma {:induction false} FoldTotals(cs: seq<Census>, cap: nat)
    requires cs != []
    ensures Fold(cs, cap).devices == PeakAll(cs).devices && Fold(cs, cap).users == PeakAll(cs).users
  {
    if |cs| == 1 {
      assert PeakAll(cs[..0]) == Peak(0, 0, map[]);
    } else {
      FoldTotals(cs[..|cs| - 1], cap);
    }
  }

  lemma FrontFits(cs: seq<Census>, cap: nat)
    requires cs != [] && Fits(PeakAll(cs).cells, cap)
    ensures Fits(PeakAll(cs[..|cs| - 1]).cells, cap)
  {
    SmallerFits(PeakAll(cs[..|cs| - 1]).cells, PeakAll(cs).cells, cap);
  }

  lemma PeakOneMore(cs: seq<Census>, c: Census)
    ensures PeakAll(cs + [c]) == Join(PeakAll(cs), PeakOf(c))
  {
    assert (cs + [c])[..|cs|] == cs;
  }

  lemma PeakOfOne(c: Census)
    ensures PeakAll([c]) == PeakOf(c)
  {
    assert [c][..0] == [];
    assert MaxCells(map[], Cells(c.groups)) == Cells(c.groups);
  }

  lemma {:induction false} FoldThatFits(cs: seq<Census>, cap: nat)
    requires cs != [] && Fits(PeakAll(cs).cells, cap)
    ensures PeakOf(Fold(cs, cap)) == PeakAll(cs)
    ensures |cs| >= 2 ==> Fold(cs, cap).groups == Canon(PeakAll(cs).cells)
  {
    if |cs| == 1 {
      assert cs == [cs[0]];
      PeakOfOne(cs[0]);
    } else {
      var front, last := cs[..|cs| - 1], cs[|cs| - 1];
      FrontFits(cs, cap);
      FoldThatFits(front, cap);
      MergeIsPointwiseMax(Fold(front, cap), last, cap);
    }
  }

  lemma {:induction false} FoldStands(cs: seq<Census>, cap: nat)
    requires cs != [] && cap >= 1
    ensures StandsFor(Cells(Fold(cs, cap).groups), PeakAll(cs).cells, cap)
    ensures |cs| >= 2 ==> Tops(Cells(Fold(cs, cap).groups), PeakAll(cs).cells, cap)
  {
    if |cs| == 1 {
      assert cs == [cs[0]];
      PeakOfOne(cs[0]);
      StandsForItself(Cells(cs[0].groups), cap);
    } else {
      var front, last := cs[..|cs| - 1], cs[|cs| - 1];
      FoldStands(front, cap);
      StandsForItself(Cells(last.groups), cap);
      FoldTops(Fold(front, cap), last, PeakAll(front).cells, Cells(last.groups), cap);
    }
  }

  /** The cells of a run of folds. Whatever the cap, the leaders of the peak stand in it with the peak's
      device counts; once something was folded, it holds the peak's cells where they fit the cap, and
      otherwise the leaders and the residue, nothing else. Where they fit, it is in canonical order. */
  lemma FoldCells(cs: seq<Census>, cap: nat)
    requires cs != []
    ensures cap >= 1 ==> StandsFor(Cells(Fold(cs, cap).groups), PeakAll(cs).cells, cap)
    ensures cap >= 1 && |cs| >= 2 ==> Tops(Cells(Fold(cs, cap).groups), PeakAll(cs).cells, cap)
    ensures Fits(PeakAll(cs).cells, cap) ==> PeakOf(Fold(cs, cap)) == PeakAll(cs)
    ensures Fits(PeakAll(cs).cells, cap) && |cs| >= 2 ==> Fold(cs, cap).groups == Canon(PeakAll(cs).cells)
  {
    if cap >= 1 { FoldStands(cs, cap); }
    if Fits(PeakAll(cs).cells, cap) { FoldThatFits(cs, cap); }
  }

  // The peak does not depend on the order, nor on how often a census comes.
  lemma SameMembersSamePeak(cs: seq<Census>, ds: seq<Census>)
    requires forall c :: c in cs <==> c in ds
    ensures PeakAll(cs) == PeakAll(ds)
  {
    PeakIsLeast(PeakAll(cs), cs);
    PeakIsLeast(PeakAll(cs), ds);
    PeakIsLeast(PeakAll(ds), cs);
    PeakIsLeast(PeakAll(ds), ds);
    AboveBothWays(PeakAll(cs), PeakAll(ds));
  }

  /** So minutes folded in any order, each as often as one likes, agree on the totals and on every named
      cell and its devices, whatever the cap; and on everything while the cells fit. */
  lemma AnyOrderAgrees(cs: seq<Census>, ds: seq<Census>, cap: nat)
    requires |cs| >= 2 && |ds| >= 2 && forall c :: c in cs <==> c in ds
    ensures Fold(cs, cap).devices == Fold(ds, cap).devices && Fold(cs, cap).users == Fold(ds, cap).users
    ensures cap >= 1 ==> SameNamed(Cells(Fold(cs, cap).groups), Cells(Fold(ds, cap).groups))
    ensures Fits(PeakAll(cs).cells, cap) ==> Fold(cs, cap) == Fold(ds, cap)
  {
    SameMembersSamePeak(cs, ds);
    FoldTotals(cs, cap);
    FoldTotals(ds, cap);
    FoldCells(cs, cap);
    FoldCells(ds, cap);
    if cap >= 1 {
      TopsAgree(Cells(Fold(cs, cap).groups), Cells(Fold(ds, cap).groups), PeakAll(cs).cells, cap);
    }
  }
}
