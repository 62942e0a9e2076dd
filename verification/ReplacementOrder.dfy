/**
  The order in which a deploy replaces the services of a compose file: each after everything it
  depends on, ties by name. The loop places one layer after another and stops with an error when no
  remaining service is ready, which happens exactly when the dependencies inside the file have a cycle.
*/
module ReplacementOrder {
  import opened Sorting

  // `depends_on` as a file may hold it: a mapping once resolved, a list when hand-written.
  datatype DependsOn = Absent | Listing(names: seq<string>) | Mapping(names: seq<string>) | Unreadable

  type Services = map<string, DependsOn>

  datatype Outcome = Order(order: seq<string>) | CycleAmong(names: seq<string>)

  function DependenciesOf(raw: DependsOn): (names: seq<string>) {
    match raw
    case Listing(names) => names
    case Mapping(names) => names
    case _ => []
  }

  // The file names `b` under the `depends_on` of `a`, in either form, and both are services of it.
  predicate Needs(g: Services, a: string, b: string) {
    a in g && b in g && (g[a].Listing? || g[a].Mapping?) && b in g[a].names
  }

  // The code reads exactly those names, in the order the file lists them.
  lemma BothFormsAreRead(raw: DependsOn)
    ensures raw.Listing? || raw.Mapping? ==> DependenciesOf(raw) == raw.names
    ensures raw.Absent? || raw.Unreadable? ==> DependenciesOf(raw) == []
    ensures forall n :: n in DependenciesOf(raw) <==> (raw.Listing? || raw.Mapping?) && n in raw.names
  {}

  ghost predicate Cycle(g: Services, p: seq<string>) {
    && |p| >= 2 && p[0] == p[|p| - 1]
    && forall i :: 0 <= i < |p| - 1 ==> Needs(g, p[i], p[i + 1])
  }

  ghost predicate Acyclic(g: Services) {
    !exists p :: Cycle(g, p)
  }

  // The rank of a service is the length of the longest chain of dependencies below it.
  ghost predicate IsRank(g: Services, rank: map<string, nat>) {
    && rank.Keys == g.Keys
    && (forall a, b :: Needs(g, a, b) ==> rank[b] < rank[a])
    && (forall a {:trigger Tight(g, rank, a)} :: a in rank ==> Tight(g, rank, a))
  }

  // Above the bottom, a rank is one more than that of some dependency.
  ghost predicate Tight(g: Services, rank: map<string, nat>, a: string)
    requires a in rank
  {
    rank[a] > 0 ==> exists b :: b in rank && Needs(g, a, b) && rank[b] == rank[a] - 1
  }

  predicate Before(rank: map<string, nat>, a: string, b: string) {
    a in rank && b in rank && (rank[a] < rank[b] || (rank[a] == rank[b] && a != b && StringLe(a, b)))
  }

  ghost predicate InOrder(g: Services, rank: map<string, nat>, order: seq<string>) {
    && (forall n :: n in order <==> n in g)
    && (forall i, j :: 0 <= i < j < |order| ==> Before(rank, order[i], order[j]))
  }

  // Services none of which can come first: each depends on another of them.
  ghost predicate Stuck(g: Services, names: seq<string>) {
    && names != [] && Rising(names)
    && (forall n {:trigger NeedsOneOf(g, n, names)} :: n in names ==> NeedsOneOf(g, n, names))
  }

  ghost predicate NeedsOneOf(g: Services, n: string, names: seq<string>) {
    exists d :: d in names && Needs(g, n, d)
  }

  predicate Rising(s: seq<string>) {
    forall i, j :: 0 <= i < j < |s| ==> s[i] != s[j] && StringLe(s[i], s[j])
  }

  // ---------- The loop ----------

  predicate IsReady(g: Services, placed: set<string>, n: string)
    requires n in g
  {
    forall d :: d in DependenciesOf(g[n]) ==> d in placed || d !in g
  }

  lemma RisingCons(head: string, tail: seq<string>, rest: seq<string>)
    requires Rising([head] + tail) && Rising(rest) && forall n :: n in rest ==> n in tail
    ensures Rising([head] + rest)
  {
    forall n | n in tail ensures n != head && StringLe(head, n) {
      var i :| 0 <= i < |tail| && tail[i] == n;
      assert ([head] + tail)[0] == head && ([head] + tail)[i + 1] == n;
    }
    var all := [head] + rest;
    forall i, j | 0 <= i < j < |all| ensures all[i] != all[j] && StringLe(all[i], all[j]) {
      assert all[j] == rest[j - 1] && rest[j - 1] in tail;
      if i > 0 { assert all[i] == rest[i - 1]; }
    }
  }

  lemma RisingTail(s: seq<string>)
    requires s != [] && Rising(s)
    ensures Rising(s[1..]) && s == [s[0]] + s[1..]
  {}

  // The services of `names` whose dependencies inside the file are all placed, in order.
  function Ready(g: Services, names: seq<string>, placed: set<string>): (r: seq<string>)
    requires forall n :: n in names ==> n in g
    ensures forall n :: n in r <==> n in names && IsReady(g, placed, n)
  {
    if names == [] then []
    else
      assert forall n :: n in names[1..] ==> n in names;
      (if IsReady(g, placed, names[0]) then [names[0]] else []) + Ready(g, names[1..], placed)
  }

  function Unplaced(names: seq<string>, placed: set<string>): (r: seq<string>)
    ensures forall n :: n in r <==> n in names && n !in placed
  {
    if names == [] then []
    else (if names[0] in placed then [] else [names[0]]) + Unplaced(names[1..], placed)
  }

  lemma {:induction false} ReadyIsRising(g: Services, names: seq<string>, placed: set<string>)
    requires Rising(names) && forall n :: n in names ==> n in g
    ensures Rising(Ready(g, names, placed))
  {
    if names != [] {
      RisingTail(names);
      assert forall n :: n in names[1..] ==> n in names;
      ReadyIsRising(g, names[1..], placed);
      RisingCons(names[0], names[1..], Ready(g, names[1..], placed));
    }
  }

  lemma {:induction false} UnplacedIsRising(names: seq<string>, placed: set<string>)
    requires Rising(names)
    ensures Rising(Unplaced(names, placed))
  {
    if names != [] {
      RisingTail(names);
      UnplacedIsRising(names[1..], placed);
      RisingCons(names[0], names[1..], Unplaced(names[1..], placed));
    }
  }

  lemma StringLeIsAnOrder()
    ensures Total(StringLe) && Transitive(StringLe)
  {
    forall a, b ensures StringLe(a, b) || StringLe(b, a) { StringLeTotal(a, b); }
    forall a, b, c | StringLe(a, b) && StringLe(b, c) ensures StringLe(a, c) { StringLeTransitive(a, b, c); }
  }

  method SortedNames(g: Services) returns (names: seq<string>)
    ensures Rising(names) && forall n :: n in names <==> n in g
  {
    var listed: seq<string> := [];
    var todo := g.Keys;
    while todo != {}
      invariant todo <= g.Keys
      invariant forall n :: n in listed <==> n in g && n !in todo
      invariant NoRepeats(listed)
      decreases |todo|
    {
      var n :| n in todo;
      listed := listed + [n];
      todo := todo - {n};
    }
    names := Sort(StringLe, listed);
    StringLeIsAnOrder();
    SortSorts(StringLe, listed);
    Permuted(listed, names);
  }

  // Where the loop stands: what is placed, at which rank, and why the others are not.
  ghost predicate Placed(g: Services, order: seq<string>, placed: set<string>, remaining: seq<string>) {
    && (forall n :: n in g <==> n in placed || n in remaining)
    && (forall n :: n in remaining ==> n !in placed)
    && (forall n :: n in order <==> n in placed)
    && Rising(remaining)
  }

  ghost predicate RankedSoFar(g: Services, placed: set<string>, rank: map<string, nat>, layer: nat) {
    && rank.Keys == placed
    && (forall n :: n in rank ==> rank[n] < layer)
    && (forall a, b :: a in rank && Needs(g, a, b) ==> b in rank && rank[b] < rank[a])
    && (forall a {:trigger Tight(g, rank, a)} :: a in rank ==> Tight(g, rank, a))
  }

  ghost predicate Waits(g: Services, rank: map<string, nat>, layer: nat, n: string) {
    layer == 0 || exists d :: Needs(g, n, d) && (d !in rank || rank[d] == layer - 1)
  }

  ghost predicate OrderedSoFar(rank: map<string, nat>, order: seq<string>) {
    forall i, j :: 0 <= i < j < |order| ==> Before(rank, order[i], order[j])
  }

  ghost function Layered(rank: map<string, nat>, ready: seq<string>, layer: nat): (r: map<string, nat>) {
    map n | n in rank.Keys + (set m | m in ready) :: if n in rank then rank[n] else layer
  }

  lemma LayerRanks(g: Services, placed: set<string>, rank: map<string, nat>, layer: nat, ready: seq<string>)
    requires RankedSoFar(g, placed, rank, layer)
    requires forall n :: n in ready ==> n in g && n !in placed && IsReady(g, placed, n) && Waits(g, rank, layer, n)
    ensures RankedSoFar(g, placed + (set n | n in ready), Layered(rank, ready, layer), layer + 1)
  {
    var after := Layered(rank, ready, layer);
    forall a, b | a in after && Needs(g, a, b) ensures b in after && after[b] < after[a] {
      if a !in rank { assert a in ready && b in placed; }
    }
    forall a | a in after ensures Tight(g, after, a) {
      if after[a] == 0 {
      } else if a in rank {
        assert Tight(g, rank, a);
        var b :| b in rank && Needs(g, a, b) && rank[b] == rank[a] - 1;
        assert after[b] == after[a] - 1;
      } else {
        assert a in ready;
        var d :| Needs(g, a, d) && (d !in rank || rank[d] == layer - 1);
        assert d in placed && after[d] == after[a] - 1;
      }
    }
  }

  lemma LayerWaits(g: Services, placed: set<string>, rank: map<string, nat>, layer: nat, ready: seq<string>, n: string)
    requires rank.Keys == placed && n in g && !IsReady(g, placed, n)
    ensures Waits(g, Layered(rank, ready, layer), layer + 1, n)
  {
    var d :| d in DependenciesOf(g[n]) && d !in placed && d in g;
    assert Needs(g, n, d);
  }

  lemma LayerOrder(rank: map<string, nat>, layer: nat, order: seq<string>, ready: seq<string>)
    requires OrderedSoFar(rank, order) && Rising(ready)
    requires (forall n :: n in order <==> n in rank) && (forall n :: n in rank ==> rank[n] < layer)
    requires forall n :: n in ready ==> n !in rank
    ensures OrderedSoFar(Layered(rank, ready, layer), order + ready)
  {
    var after, all := Layered(rank, ready, layer), order + ready;
    forall i, j | 0 <= i < j < |all| ensures Before(after, all[i], all[j]) {
      if j < |order| {
        assert Before(rank, order[i], order[j]);
      } else {
        assert all[j] == ready[j - |order|] && all[j] in ready;
        if i < |order| { assert all[i] in order; } else { assert all[i] == ready[i - |order|] && all[i] in ready; }
      }
    }
  }

  ghost predicate Loop(g: Services, order: seq<string>, placed: set<string>, remaining: seq<string>,
                       rank: map<string, nat>, layer: nat) {
    && Placed(g, order, placed, remaining)
    && RankedSoFar(g, placed, rank, layer)
    && (forall n :: n in remaining ==> Waits(g, rank, layer, n))
    && OrderedSoFar(rank, order)
  }

  lemma LayerPlaced(g: Services, order: seq<string>, placed: set<string>, remaining: seq<string>, ready: seq<string>)
    requires Placed(g, order, placed, remaining) && forall n :: n in ready ==> n in remaining
    ensures var p := placed + (set n | n in ready); Placed(g, order + ready, p, Unplaced(remaining, p))
  {
    UnplacedIsRising(remaining, placed + (set n | n in ready));
  }

  lemma LayerKeepsLoop(g: Services, order: seq<string>, placed: set<string>, remaining: seq<string>,
                       rank: map<string, nat>, layer: nat, ready: seq<string>)
    requires Loop(g, order, placed, remaining, rank, layer)
    requires (forall n :: n in remaining ==> n in g) && ready == Ready(g, remaining, placed)
    ensures var p := placed + (set n | n in ready);
      Loop(g, order + ready, p, Unplaced(remaining, p), Layered(rank, ready, layer), layer + 1)
  {
    LayerPlaced(g, order, placed, remaining, ready);
    LayerRanks(g, placed, rank, layer, ready);
    ReadyIsRising(g, remaining, placed);
    LayerOrder(rank, layer, order, ready);
    var p := placed + (set n | n in ready);
    forall n | n in Unplaced(remaining, p) ensures Waits(g, Layered(rank, ready, layer), layer + 1, n) {
      assert n in remaining && n !in ready;
      LayerWaits(g, placed, rank, layer, ready, n);
    }
  }

  lemma LoopStarts(g: Services, remaining: seq<string>)
    requires Rising(remaining) && forall n :: n in remaining <==> n in g
    ensures Loop(g, [], {}, remaining, map[], 0)
  {}

  lemma LoopFacts(g: Services, order: seq<string>, placed: set<string>, remaining: seq<string>,
                  rank: map<string, nat>, layer: nat)
    requires Loop(g, order, placed, remaining, rank, layer)
    ensures Rising(remaining) && forall n :: n in g <==> n in placed || n in remaining
    ensures forall n :: n in remaining ==> n in g && n !in placed
  {}

  lemma LoopDone(g: Services, order: seq<string>, placed: set<string>, rank: map<string, nat>, layer: nat)
    requires Loop(g, order, placed, [], rank, layer)
    ensures IsRank(g, rank) && InOrder(g, rank, order) && Acyclic(g)
  {
    assert g.Keys == placed;
    RankedIsAcyclic(g, rank);
  }

  lemma LeftLeadToCycles(g: Services, order: seq<string>, placed: set<string>, remaining: seq<string>,
                         rank: map<string, nat>, layer: nat)
    requires Loop(g, order, placed, remaining, rank, layer) && Stuck(g, remaining)
    ensures forall n :: n in g ==> (n in remaining <==> LeadsToACycle(g, n))
  {
    forall n | n in g ensures n in remaining <==> LeadsToACycle(g, n) {
      if n in remaining { StuckReturns(g, remaining, n); } else { RankedDoesNotReturn(g, rank, n); }
    }
  }

  /** The services in an order in which each comes after everything it needs, by rank and then by
      name; or, when none of the names left is ready, those names. The first exactly when no cycle
      exists; and the names left are then exactly the services whose dependencies lead to one. */
  method OrderServices(g: Services) returns (r: Outcome, ghost rank: map<string, nat>)
    ensures r.Order? <==> Acyclic(g)
    ensures r.Order? ==> IsRank(g, rank) && InOrder(g, rank, r.order)
    ensures r.CycleAmong? ==> Stuck(g, r.names) && forall n :: n in g ==> (n in r.names <==> LeadsToACycle(g, n))
  {
    var order: seq<string>, placed: set<string> := [], {};
    var remaining := SortedNames(g);
    ghost var layer: nat := 0;
    rank := map[];
    LoopStarts(g, remaining);
    while remaining != []
      invariant Loop(g, order, placed, remaining, rank, layer)
      decreases g.Keys - placed
    {
      LoopFacts(g, order, placed, remaining, rank, layer);
      var ready := Ready(g, remaining, placed);
      if ready == [] {
        NoneReady(g, placed, remaining);
        LeftLeadToCycles(g, order, placed, remaining, rank, layer);
        return CycleAmong(remaining), rank;
      }
      LayerKeepsLoop(g, order, placed, remaining, rank, layer, ready);
      assert ready[0] in ready && ready[0] in g && ready[0] !in placed;
      order, placed := Place(order, placed, ready);
      remaining := Unplaced(remaining, placed);
      rank := Layered(rank, ready, layer);
      layer := layer + 1;
    }
    LoopDone(g, order, placed, rank, layer);
    r := Order(order);
  }

  method Place(order: seq<string>, placed: set<string>, ready: seq<string>) returns (o: seq<string>, p: set<string>)
    ensures o == order + ready && p == placed + (set n | n in ready)
  {
    o, p := order, placed;
    for i := 0 to |ready|
      invariant o == order + ready[..i] && p == placed + (set n | n in ready[..i])
    {
      assert ready[..i + 1] == ready[..i] + [ready[i]];
      o := o + [ready[i]];
      p := p + {ready[i]};
    }
    assert ready[..|ready|] == ready;
  }

  lemma NoneReady(g: Services, placed: set<string>, remaining: seq<string>)
    requires remaining != [] && Rising(remaining)
    requires forall n :: n in g <==> n in placed || n in remaining
    requires forall n :: n in remaining ==> n in g && !IsReady(g, placed, n)
    ensures Stuck(g, remaining) && !Acyclic(g)
  {
    forall n | n in remaining ensures NeedsOneOf(g, n, remaining) {
      BothFormsAreRead(g[n]);
      var d :| d in DependenciesOf(g[n]) && d !in placed && d in g;
      assert d in remaining && Needs(g, n, d);
    }
    StuckHasACycle(g, remaining);
  }

  // ---------- Ranks and cycles ----------

  // Dependencies of ranked services are ranked, and lower.
  ghost predicate Downward(g: Services, rank: map<string, nat>) {
    forall a, b :: a in rank && Needs(g, a, b) ==> b in rank && rank[b] < rank[a]
  }

  ghost predicate Chain(g: Services, p: seq<string>) {
    forall k :: 0 <= k < |p| - 1 ==> Needs(g, p[k], p[k + 1])
  }

  // A chain of dependencies from `n` comes back to a service it passed.
  ghost predicate Returns(g: Services, n: string, p: seq<string>) {
    |p| >= 2 && p[0] == n && Chain(g, p) && p[|p| - 1] in p[..|p| - 1]
  }

  ghost predicate LeadsToACycle(g: Services, n: string) {
    exists p :: Returns(g, n, p)
  }

  lemma {:induction false} RankFalls(g: Services, rank: map<string, nat>, p: seq<string>, j: nat)
    requires Downward(g, rank) && Chain(g, p) && j < |p| && p[0] in rank
    ensures p[j] in rank && forall i :: 0 <= i < j ==> p[i] in rank && rank[p[j]] < rank[p[i]]
  {
    if j > 0 {
      RankFalls(g, rank, p, j - 1);
      assert Needs(g, p[j - 1], p[j]);
    }
  }

  lemma RankedDoesNotReturn(g: Services, rank: map<string, nat>, n: string)
    requires Downward(g, rank) && n in rank
    ensures !LeadsToACycle(g, n)
  {
    forall p ensures !Returns(g, n, p) {
      if |p| >= 2 && p[0] == n && Chain(g, p) { RankFalls(g, rank, p, |p| - 1); }
    }
  }

  lemma CycleReturns(g: Services, p: seq<string>)
    requires Cycle(g, p)
    ensures p[0] in g && Returns(g, p[0], p)
  {
    assert Needs(g, p[0], p[1]);
    assert p[..|p| - 1][0] == p[0];
  }

  lemma RankedIsAcyclic(g: Services, rank: map<string, nat>)
    requires IsRank(g, rank)
    ensures Acyclic(g)
  {
    forall p ensures !Cycle(g, p) {
      if |p| >= 2 && p[0] in g { RankedDoesNotReturn(g, rank, p[0]); }
      if Cycle(g, p) { CycleReturns(g, p); }
    }
  }

  // A walk of `n` steps that stays inside `names`.
  ghost predicate Walk(g: Services, names: seq<string>, p: seq<string>) {
    && (forall i :: 0 <= i < |p| ==> p[i] in names)
    && (forall i :: 0 <= i < |p| - 1 ==> Needs(g, p[i], p[i + 1]))
  }

  lemma {:induction false} WalkOn(g: Services, names: seq<string>, start: string, n: nat) returns (p: seq<string>)
    requires Stuck(g, names) && start in names
    ensures |p| == n + 1 && p[0] == start && Walk(g, names, p)
  {
    if n == 0 {
      p := [start];
    } else {
      var front := WalkOn(g, names, start, n - 1);
      var last := front[n - 1];
      assert last in names && NeedsOneOf(g, last, names);
      var d :| d in names && Needs(g, last, d);
      p := front + [d];
    }
  }

  lemma {:induction false} Repeats(p: seq<string>, names: set<string>) returns (i: nat, j: nat)
    requires |p| > |names| && forall k :: 0 <= k < |p| ==> p[k] in names
    ensures i < j < |p| && p[i] == p[j]
    decreases |p|
  {
    var n := |p| - 1;
    if x :| 0 <= x < n && p[x] == p[n] {
      return x, n;
    }
    i, j := Repeats(p[..n], names - {p[n]});
  }

  lemma StuckRepeats(g: Services, names: seq<string>, start: string) returns (p: seq<string>, i: nat, j: nat)
    requires Stuck(g, names) && start in names
    ensures Walk(g, names, p) && i < j < |p| && p[0] == start && p[i] == p[j]
  {
    var all := set n | n in names;
    p := WalkOn(g, names, start, |all|);
    i, j := Repeats(p, all);
  }

  /** Where nothing is ready, the services left hold a cycle of dependencies. */
  lemma StuckHasACycle(g: Services, names: seq<string>)
    requires Stuck(g, names)
    ensures exists p :: Cycle(g, p)
  {
    var p, i, j := StuckRepeats(g, names, names[0]);
    SliceIsACycle(g, names, p, i, j);
  }

  lemma StuckReturns(g: Services, names: seq<string>, n: string)
    requires Stuck(g, names) && n in names
    ensures LeadsToACycle(g, n)
  {
    var p, i, j := StuckRepeats(g, names, n);
    var c := p[..j + 1];
    assert Chain(g, c);
    assert c[i] in c[..j];
    assert Returns(g, n, c);
  }

  lemma SliceIsACycle(g: Services, names: seq<string>, p: seq<string>, i: nat, j: nat)
    requires Walk(g, names, p) && i < j < |p| && p[i] == p[j]
    ensures Cycle(g, p[i..j + 1])
  {
    var c := p[i..j + 1];
    forall k | 0 <= k < |c| - 1 ensures Needs(g, c[k], c[k + 1]) {
      assert c[k] == p[i + k] && c[k + 1] == p[i + k + 1];
    }
  }

  // ---------- What the order is ----------

  // The file lists or maps `b` under the `depends_on` of `a`.
  predicate NamesIn(g: Services, a: string, b: string) {
    a in g && match g[a]
              case Listing(names) => b in names
              case Mapping(names) => b in names
              case _ => false
  }

  /** In the order every service appears once and after everything the file names for it. */
  lemma OrderIsTopological(g: Services, rank: map<string, nat>, order: seq<string>)
    requires IsRank(g, rank) && InOrder(g, rank, order)
    ensures forall n :: n in order <==> n in g
    ensures forall i, j :: 0 <= i < j < |order| ==> order[i] != order[j]
    ensures forall i, j :: 0 <= i < |order| && 0 <= j < |order| && NamesIn(g, order[i], order[j]) ==> j < i
  {
    forall i, j | 0 <= i < j < |order| ensures order[i] != order[j] && !Needs(g, order[i], order[j]) {
      assert Before(rank, order[i], order[j]);
    }
    forall i, j | 0 <= i < |order| && 0 <= j < |order| && NamesIn(g, order[i], order[j]) ensures j < i {
      assert order[j] in order && Needs(g, order[i], order[j]);
    }
  }

  lemma {:induction false} RankIsUnique(g: Services, r: map<string, nat>, q: map<string, nat>, n: string)
    requires IsRank(g, r) && IsRank(g, q) && n in g
    ensures r[n] == q[n]
    decreases r[n]
  {
    forall b | Needs(g, n, b) ensures r[b] == q[b] { RankIsUnique(g, r, q, b); }
    assert Tight(g, r, n) && Tight(g, q, n);
    if r[n] > 0 {
      var b :| Needs(g, n, b) && r[b] == r[n] - 1;
      assert q[b] < q[n];
    }
    if q[n] > 0 {
      var b :| Needs(g, n, b) && q[b] == q[n] - 1;
      assert r[b] < r[n];
    }
  }

  /** And the file alone decides it: two such orders are the same. */
  lemma OrderIsUnique(g: Services, r: map<string, nat>, a: seq<string>, q: map<string, nat>, b: seq<string>)
    requires IsRank(g, r) && InOrder(g, r, a) && IsRank(g, q) && InOrder(g, q, b)
    ensures a == b
  {
    forall n | n in g ensures r[n] == q[n] { RankIsUnique(g, r, q, n); }
    assert r == q;
    SameOrder(g, r, a, b);
  }

  lemma {:induction false} SameOrder(g: Services, rank: map<string, nat>, a: seq<string>, b: seq<string>)
    requires OrderedSoFar(rank, a) && OrderedSoFar(rank, b) && forall n :: n in a <==> n in b
    ensures a == b
  {
    assert (a != [] ==> a[0] in b) && (b != [] ==> b[0] in a);
    if a != [] {
      FirstIsFirst(rank, a, b);
      assert forall n :: n in a[1..] ==> n in a && n != a[0];
      assert forall n :: n in b[1..] ==> n in b && n != b[0];
      SameOrder(g, rank, a[1..], b[1..]);
      assert a == [a[0]] + a[1..] && b == [b[0]] + b[1..];
    }
  }

  lemma FirstIsFirst(rank: map<string, nat>, a: seq<string>, b: seq<string>)
    requires OrderedSoFar(rank, a) && OrderedSoFar(rank, b) && a != [] && b != [] && a[0] in b && b[0] in a
    ensures a[0] == b[0]
  {
    var i :| 0 <= i < |a| && a[i] == b[0];
    var j :| 0 <= j < |b| && b[j] == a[0];
    if i > 0 && j > 0 {
      assert Before(rank, a[0], a[i]) && Before(rank, b[0], b[j]);
      StringLeTotal(a[0], b[0]);
    }
  }
}
