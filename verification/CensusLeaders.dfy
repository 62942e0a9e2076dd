/**
  Which cells a bounded fold keeps, whatever the cap. The leaders of a cell map are its named cells
  that fewer than cap - 1 others rank ahead of. However a map was folded together, its leaders stand in
  the result under their own names and with their exact device counts: `StandsFor` is that relation, and
  the fold, its cap included, keeps it.
*/
module CensusLeaders {
  import opened Sorting
  import opened Census
  import opened CensusMerge
  import opened CensusOverflow

  function GroupAt(m: CellMap, k: Key): (g: Group)
    requires k in m
  {
    Group(k.platform, k.version, m[k].devices, m[k].users)
  }

  // The named cells that rank ahead of `k`.
  function Ahead(m: CellMap, k: Key): (ks: set<Key>)
    requires k in m
  {
    set j | j in m && j != RESIDUE && j != k && RankLe(GroupAt(m, j), GroupAt(m, k))
  }

  predicate Leads(m: CellMap, cap: nat, k: Key) {
    k in m && k != RESIDUE && |Ahead(m, k)| < cap - 1
  }

  function Leaders(m: CellMap, cap: nat): (ks: set<Key>) {
    set k | k in m && Leads(m, cap, k)
  }

  // Every named cell of `s` is one of `m`, counting no more than there.
  predicate Within(s: CellMap, m: CellMap) {
    forall k :: k in s && k != RESIDUE ==> k in m && Below(s[k], m[k])
  }

  // The leaders of `m` are in `s`, with the devices they have in `m`.
  ghost predicate KeepsLeaders(s: CellMap, m: CellMap, cap: nat) {
    forall k :: Leads(m, cap, k) ==> k in s && s[k].devices == m[k].devices
  }

  // `s` says of the union `m` what a cap lets it say.
  ghost predicate StandsFor(s: CellMap, m: CellMap, cap: nat) {
    && Within(s, m)
    && KeepsLeaders(s, m, cap)
    && (s == m || (|m| > cap && RESIDUE in s))
  }

  // ---------- An order that the maximum keeps ----------

  lemma RankRaised(s: CellMap, m: CellMap, j: Key, k: Key)
    requires j in s && j in m && k in s && k in m
    requires s[j].devices <= m[j].devices && s[k].devices == m[k].devices
    requires RankLe(GroupAt(s, j), GroupAt(s, k))
    ensures RankLe(GroupAt(m, j), GroupAt(m, k))
  {}

  // A cell at its full count has no more cells ahead of it in the smaller map.
  lemma LeadsBelow(s: CellMap, m: CellMap, cap: nat, k: Key)
    requires Within(s, m) && Leads(m, cap, k) && k in s && s[k].devices == m[k].devices
    ensures Leads(s, cap, k)
  {
    forall j | j in Ahead(s, k) ensures j in Ahead(m, k) {
      assert Below(s[j], m[j]);
      RankRaised(s, m, j, k);
    }
    SubsetSize(Ahead(s, k), Ahead(m, k));
  }

  lemma StandsForItself(m: CellMap, cap: nat)
    ensures StandsFor(m, m, cap)
  {}

  lemma StandsForChains(s: CellMap, t: CellMap, m: CellMap, cap: nat)
    requires StandsFor(s, t, cap) && StandsFor(t, m, cap)
    ensures StandsFor(s, m, cap)
  {
    forall k | k in s && k != RESIDUE ensures k in m && Below(s[k], m[k]) {
      assert k in t && Below(s[k], t[k]) && Below(t[k], m[k]);
    }
    forall k | Leads(m, cap, k) ensures k in s && s[k].devices == m[k].devices {
      LeadsBelow(t, m, cap, k);
    }
  }

  lemma MaxBelow(a: Counts, b: Counts, c: Counts, d: Counts)
    requires Below(a, b) && Below(c, d)
    ensures Below(MaxCounts(a, c), MaxCounts(b, d))
  {}

  lemma MaxWithin(s: CellMap, m: CellMap, t: CellMap, n: CellMap)
    requires Within(s, m) && Within(t, n)
    ensures Within(MaxCells(s, t), MaxCells(m, n))
  {
    var l, r := MaxCells(s, t), MaxCells(m, n);
    forall k | k in l && k != RESIDUE ensures k in r && Below(l[k], r[k]) {
      assert Below(At(s, k), At(m, k)) && Below(At(t, k), At(n, k));
      MaxBelow(At(s, k), At(m, k), At(t, k), At(n, k));
    }
  }

  // A leader of the union whose count is `m`'s leads `m` too, so `s` has it.
  lemma LeaderOfOne(s: CellMap, m: CellMap, union: CellMap, cap: nat, k: Key)
    requires KeepsLeaders(s, m, cap) && Dominates(union, m) && Leads(union, cap, k)
    requires k in m && m[k].devices == union[k].devices
    ensures k in s && s[k].devices == union[k].devices
  {
    forall j | j in m && j != RESIDUE ensures j in union && Below(m[j], union[j]) {}
    LeadsBelow(m, union, cap, k);
  }

  lemma MaxKeepsLeader(s: CellMap, m: CellMap, t: CellMap, n: CellMap, cap: nat, k: Key)
    requires StandsFor(s, m, cap) && StandsFor(t, n, cap) && Leads(MaxCells(m, n), cap, k)
    ensures k in MaxCells(s, t) && MaxCells(s, t)[k].devices == MaxCells(m, n)[k].devices
  {
    var union := MaxCells(m, n);
    MaxDominates(m, n);
    MaxDominates(n, m);
    MaxCellsCommutes(m, n);
    MaxWithin(s, m, t, n);
    if k in m && m[k].devices == union[k].devices {
      LeaderOfOne(s, m, union, cap, k);
    } else {
      LeaderOfOne(t, n, union, cap, k);
    }
    assert Below(MaxCells(s, t)[k], union[k]);
  }

  lemma MaxKeepsLeaders(s: CellMap, m: CellMap, t: CellMap, n: CellMap, cap: nat)
    requires StandsFor(s, m, cap) && StandsFor(t, n, cap)
    ensures KeepsLeaders(MaxCells(s, t), MaxCells(m, n), cap)
  {
    forall k | Leads(MaxCells(m, n), cap, k)
      ensures k in MaxCells(s, t) && MaxCells(s, t)[k].devices == MaxCells(m, n)[k].devices
    {
      MaxKeepsLeader(s, m, t, n, cap, k);
    }
  }

  lemma LargerUnion(m: CellMap, n: CellMap)
    ensures |m| <= |MaxCells(m, n)| && |n| <= |MaxCells(m, n)|
  {
    SubsetSize(m.Keys, MaxCells(m, n).Keys);
    SubsetSize(n.Keys, MaxCells(m, n).Keys);
    assert |m.Keys| == |m| && |n.Keys| == |n| && |MaxCells(m, n).Keys| == |MaxCells(m, n)|;
  }

  lemma WholeOrCut(s: CellMap, m: CellMap, t: CellMap, n: CellMap, cap: nat)
    requires s == m || (|m| > cap && RESIDUE in s)
    requires t == n || (|n| > cap && RESIDUE in t)
    ensures MaxCells(s, t) == MaxCells(m, n) || (|MaxCells(m, n)| > cap && RESIDUE in MaxCells(s, t))
  {
    LargerUnion(m, n);
  }

  /** What stands for two maps, raised to their maximum, stands for the maximum of the two. */
  lemma MaxStandsForMax(s: CellMap, m: CellMap, t: CellMap, n: CellMap, cap: nat)
    requires StandsFor(s, m, cap) && StandsFor(t, n, cap)
    ensures StandsFor(MaxCells(s, t), MaxCells(m, n), cap)
  {
    MaxWithin(s, m, t, n);
    MaxKeepsLeaders(s, m, t, n, cap);
    WholeOrCut(s, m, t, n, cap);
  }

  // ---------- The cap keeps the leaders ----------

  lemma {:induction false} KeysOfDistinct(gs: seq<Group>)
    requires Distinct(gs)
    ensures |KeysOf(gs)| == |gs|
  {
    CellsOfDistinct(gs);
    CellsKeys(gs);
    assert |Cells(gs).Keys| == |Cells(gs)|;
  }

  // The named cells of a map, ranked: a list of distinct cells in the order of the cap.
  ghost predicate RankedIs(m: CellMap, ranked: seq<Group>) {
    && Distinct(ranked) && Sorted(RankLe, ranked) && Untied(RankLe, ranked)
    && forall g :: g in ranked <==> KeyOf(g) in m && m[KeyOf(g)] == CountsOf(g) && !IsResidue(g)
  }

  lemma RankedHolds(gs: seq<Group>, g: Group)
    requires Distinct(gs)
    ensures g in Ranked(gs) <==> KeyOf(g) in Cells(gs) && Cells(gs)[KeyOf(g)] == CountsOf(g) && !IsResidue(g)
  {
    SplitMembers(gs);
    SameMembers(Rest(gs), Ranked(gs));
    InDistinct(gs, g);
  }

  lemma RankedIsSorted(gs: seq<Group>)
    requires Distinct(gs)
    ensures Distinct(Ranked(gs)) && Sorted(RankLe, Ranked(gs)) && Untied(RankLe, Ranked(gs))
  {
    SplitDistinct(gs);
    RankIsAnOrder();
    SortSorts(RankLe, Rest(gs));
    DistinctIsUntied(Ranked(gs));
  }

  lemma RankedSize(gs: seq<Group>)
    requires Distinct(gs)
    ensures |Ranked(gs)| + 1 >= |gs|
  {
    SplitDistinctParts(gs);
    SplitSums(gs);
  }

  lemma RankedFacts(m: CellMap)
    ensures RankedIs(m, Ranked(ToGroups(m)))
    ensures |Ranked(ToGroups(m))| + 1 >= |m|
  {
    var gs := ToGroups(m);
    RankedIsSorted(gs);
    RankedSize(gs);
    forall g ensures g in Ranked(gs) <==> KeyOf(g) in m && m[KeyOf(g)] == CountsOf(g) && !IsResidue(g) {
      RankedHolds(gs, g);
    }
  }

  lemma RanksEarlier(ranked: seq<Group>, x: nat, i: nat)
    requires Sorted(RankLe, ranked) && Untied(RankLe, ranked) && x < |ranked| && i < |ranked|
    requires RankLe(ranked[x], ranked[i]) && ranked[x] != ranked[i]
    ensures x < i
  {
    assert ranked[x] in ranked && ranked[i] in ranked;
  }

  lemma AheadIsThePrefix(m: CellMap, ranked: seq<Group>, i: nat)
    requires RankedIs(m, ranked) && i < |ranked|
    ensures KeyOf(ranked[i]) in m && Ahead(m, KeyOf(ranked[i])) == KeysOf(ranked[..i])
  {
    var k := KeyOf(ranked[i]);
    assert ranked[i] in ranked && GroupAt(m, k) == ranked[i];
    forall j | j in Ahead(m, k) ensures j in KeysOf(ranked[..i]) {
      var g := GroupAt(m, j);
      assert g in ranked;
      var x :| 0 <= x < |ranked| && ranked[x] == g;
      RanksEarlier(ranked, x, i);
      assert ranked[..i][x] == g;
    }
    forall g | g in ranked[..i] ensures KeyOf(g) in Ahead(m, k) {
      var x :| 0 <= x < i && ranked[x] == g;
      assert g in ranked && GroupAt(m, KeyOf(g)) == g;
    }
  }

  lemma LeadsByPosition(m: CellMap, ranked: seq<Group>, cap: nat, i: nat)
    requires RankedIs(m, ranked) && i < |ranked|
    ensures Leads(m, cap, KeyOf(ranked[i])) <==> i < cap - 1
  {
    AheadIsThePrefix(m, ranked, i);
    assert ranked[i] in ranked;
    KeysOfDistinct(ranked[..i]);
  }

  lemma LeadersAreThePrefix(m: CellMap, ranked: seq<Group>, cap: nat)
    requires RankedIs(m, ranked) && 1 <= cap <= |ranked|
    ensures Leaders(m, cap) == KeysOf(ranked[..cap - 1]) && |Leaders(m, cap)| == cap - 1
  {
    var kept := ranked[..cap - 1];
    forall k | k in Leaders(m, cap) ensures k in KeysOf(kept) {
      var g := GroupAt(m, k);
      assert g in ranked;
      var i :| 0 <= i < |ranked| && ranked[i] == g;
      LeadsByPosition(m, ranked, cap, i);
      assert kept[i] == g;
    }
    forall g | g in kept ensures KeyOf(g) in Leaders(m, cap) {
      var i :| 0 <= i < cap - 1 && ranked[i] == g;
      LeadsByPosition(m, ranked, cap, i);
    }
    KeysOfDistinct(kept);
  }

  lemma LeadersAreKept(m: CellMap, cap: nat)
    requires |m| > cap >= 1
    ensures Leaders(m, cap) == KeysOf(KeptOf(m, cap)) && |Leaders(m, cap)| == cap - 1
  {
    RankedFacts(m);
    LeadersAreThePrefix(m, Ranked(ToGroups(m)), cap);
  }

  // The cells of a bounded map.
  ghost function Cut(m: CellMap, cap: nat): (s: CellMap) {
    Cells(Bound(ToGroups(m), cap))
  }

  lemma CutKeys(m: CellMap, cap: nat)
    requires |m| > cap >= 1
    ensures Cut(m, cap) == Cells(KeptOf(m, cap) + [ResidueOf(m, cap)])
    ensures Cut(m, cap).Keys == Leaders(m, cap) + {RESIDUE}
  {
    var kept, res := KeptOf(m, cap), ResidueOf(m, cap);
    FirstFold(m, cap);
    PermutedDistinct(kept + [res], Sort(CanonLe, kept + [res]));
    CellsKeys(kept + [res]);
    KeysWithResidue(kept, res);
    LeadersAreKept(m, cap);
  }

  /** A map past the cap is cut to its leaders, unchanged, and the residue; within the cap it is left
      as it is. */
  lemma CutKeepsTheLeaders(m: CellMap, cap: nat)
    requires cap >= 1
    ensures |m| <= cap ==> Cut(m, cap) == m
    ensures |m| > cap ==> Cut(m, cap).Keys == Leaders(m, cap) + {RESIDUE} && |Leaders(m, cap)| == cap - 1
    ensures |m| > cap ==> forall k :: k in Leaders(m, cap) ==> Cut(m, cap)[k] == m[k]
  {
    if |m| <= cap {
      CanonSaysItsMap(m);
    } else {
      CutKeys(m, cap);
      LeadersAreKept(m, cap);
      FirstFold(m, cap);
      var all := KeptOf(m, cap) + [ResidueOf(m, cap)];
      CellsOfDistinct(all);
      forall k | k in Leaders(m, cap) ensures Cut(m, cap)[k] == m[k] {
        var g :| g in KeptOf(m, cap) && KeyOf(g) == k;
        assert g in all;
      }
    }
  }

  lemma CutKeepsTheNamed(m: CellMap, cap: nat, k: Key)
    requires cap >= 1 && k in Cut(m, cap) && k != RESIDUE
    ensures k in m && Cut(m, cap)[k] == m[k]
  {
    CutKeepsTheLeaders(m, cap);
    if |m| > cap { assert k in Leaders(m, cap); }
  }

  lemma CutSize(m: CellMap, cap: nat)
    requires cap >= 1
    ensures |Cut(m, cap)| <= cap
  {
    BoundLaws(ToGroups(m), cap);
    CellsOfDistinct(Bound(ToGroups(m), cap));
  }

  lemma CutStandsFor(m: CellMap, cap: nat)
    requires cap >= 1
    ensures StandsFor(Cut(m, cap), m, cap)
  {
    CutKeepsTheLeaders(m, cap);
    if |m| > cap {
      var s := Cut(m, cap);
      forall k | k in s && k != RESIDUE ensures k in m && Below(s[k], m[k]) {
        assert k in Leaders(m, cap);
      }
      forall k | Leads(m, cap, k) ensures k in s && s[k].devices == m[k].devices {
        assert k in Leaders(m, cap);
      }
    }
  }

  // ---------- What is left open ----------

  // `s` is `m` where that fits the cap; otherwise its leaders, with their devices, and the residue.
  ghost predicate Tops(s: CellMap, m: CellMap, cap: nat) {
    if |m| <= cap then s == m
    else
      && s.Keys == Leaders(m, cap) + {RESIDUE} && |s| == cap
      && forall k :: k in Leaders(m, cap) ==> s[k].devices == m[k].devices && s[k].users <= m[k].users
  }

  // The two name the same cells, with the same devices but in the residue.
  predicate SameNamed(s: CellMap, t: CellMap) {
    s.Keys == t.Keys && forall k :: k in s && k != RESIDUE ==> s[k].devices == t[k].devices
  }

  lemma SubsetOfSize<T>(a: set<T>, b: set<T>)
    requires a <= b && |b| <= |a|
    ensures a == b
  {
    assert b == a + (b - a);
  }

  // What stands for a map and fits the cap is determined by the map, but for the residue and users.
  lemma StandingWithinTheCap(s: CellMap, m: CellMap, cap: nat)
    requires StandsFor(s, m, cap) && |s| <= cap && cap >= 1
    ensures Tops(s, m, cap)
  {
    if |m| > cap {
      LeadersAreKept(m, cap);
      var keys := Leaders(m, cap) + {RESIDUE};
      assert |keys| == cap && |s.Keys| == |s|;
      forall k | k in keys ensures k in s.Keys {
        if k != RESIDUE { assert Leads(m, cap, k); }
      }
      SubsetOfSize(keys, s.Keys);
      forall k | k in Leaders(m, cap) ensures s[k].devices == m[k].devices && s[k].users <= m[k].users {
        assert Leads(m, cap, k) && Below(s[k], m[k]);
      }
    }
  }

  lemma TopsAgree(s: CellMap, t: CellMap, m: CellMap, cap: nat)
    requires Tops(s, m, cap) && Tops(t, m, cap)
    ensures SameNamed(s, t)
  {
    if |m| > cap {
      forall k | k in s && k != RESIDUE ensures s[k].devices == t[k].devices { assert k in Leaders(m, cap); }
    }
  }

  /** One fold: what stands for two maps, folded, is the leaders of their maximum and the residue. */
  lemma FoldTops(a: Census, b: Census, m: CellMap, n: CellMap, cap: nat)
    requires cap >= 1 && StandsFor(Cells(a.groups), m, cap) && StandsFor(Cells(b.groups), n, cap)
    ensures StandsFor(Cells(Merge(a, b, cap).groups), MaxCells(m, n), cap)
    ensures Tops(Cells(Merge(a, b, cap).groups), MaxCells(m, n), cap)
  {
    var x := MaxCells(Cells(a.groups), Cells(b.groups));
    FoldIs(a, b, cap);
    MaxStandsForMax(Cells(a.groups), m, Cells(b.groups), n, cap);
    CutStandsFor(x, cap);
    StandsForChains(Cut(x, cap), x, MaxCells(m, n), cap);
    CutSize(x, cap);
    StandingWithinTheCap(Cut(x, cap), MaxCells(m, n), cap);
  }
}
