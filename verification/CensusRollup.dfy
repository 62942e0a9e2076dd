/**
  Rolling a series up to wider buckets, each the maximum of the samples inside it. Bucket by bucket
  the roll-up is a run of folds, so rolling up to fine buckets and then to coarse ones gives what
  rolling up to the coarse ones directly gives: always in the totals, in the cells named and in their
  devices, and in everything while the cells fit the cap.
*/
module CensusRollup {
  import opened Census
  import opened CensusMerge
  import opened CensusOverflow
  import opened CensusLeaders
  import opened CensusPastTheCap
  import opened CensusPeaks
  import opened CensusSums
  import opened IntSets

  const COARSE_INTERVAL_SECS := 300
  const MONTH_INTERVAL_SECS := 1800

  function BucketOf(t: int, step: int): (b: int)
    requires step > 0
  {
    t - t % step
  }

  /** A sample's bucket starts at the last multiple of the step that is not after it. */
  lemma BucketIsTheLastMultiple(t: int, step: int)
    requires step > 0
    ensures BucketOf(t, step) == t / step * step && BucketOf(t, step) <= t < BucketOf(t, step) + step
  {}

  predicate Ascending(samples: seq<Sample>) {
    forall i, j :: 0 <= i < j < |samples| ==> samples[i].t < samples[j].t
  }

  // `listed` is the map in the order of its keys.
  predicate Lists(listed: seq<Sample>, m: map<int, Census>) {
    && Ascending(listed)
    && (forall s :: s in listed ==> s.t in m && s.census == m[s.t])
    && (forall t :: t in m ==> Sample(t, m[t]) in listed)
  }

  ghost function Put(m: map<int, Census>, s: Sample, step: int): (r: map<int, Census>)
    requires step > 0
  {
    var b := BucketOf(s.t, step);
    m[b := if b in m then Merge(m[b], s.census, MAX_GROUPS) else s.census]
  }

  ghost function Roll(samples: seq<Sample>, step: int): (m: map<int, Census>)
    requires step > 0
  {
    if samples == [] then map[] else Put(Roll(samples[..|samples| - 1], step), samples[|samples| - 1], step)
  }

  // ---------- The method ----------

  method RollupMax(samples: seq<Sample>, step: int) returns (r: seq<Sample>)
    requires step > 0
    ensures Lists(r, Roll(samples, step))
  {
    var out: map<int, Census> := map[];
    for i := 0 to |samples|
      invariant out == Roll(samples[..i], step)
    {
      assert samples[..i + 1][..i] == samples[..i];
      var b := BucketOf(samples[i].t, step);
      if b in out {
        var into := MergeMax(out[b], samples[i].census, MAX_GROUPS);
        out := out[b := into];
      } else {
        out := out[b := samples[i].census];
      }
    }
    assert samples[..|samples|] == samples;
    r := InOrder(out);
  }

  // The entries of an ordered map, least key first.
  method InOrder(m: map<int, Census>) returns (r: seq<Sample>)
    ensures Lists(r, m)
  {
    r := [];
    var todo := m.Keys;
    while todo != {}
      invariant todo <= m.Keys && Ascending(r)
      invariant forall s :: s in r ==> s.t in m && s.t !in todo && s.census == m[s.t]
      invariant forall t :: t in m && t !in todo ==> Sample(t, m[t]) in r
      invariant forall s, t :: s in r && t in todo ==> s.t < t
      decreases |todo|
    {
      var t := Least(todo);
      r := r + [Sample(t, m[t])];
      todo := todo - {t};
    }
  }

  method Least(ts: set<int>) returns (t: int)
    requires ts != {}
    ensures t in ts && forall u :: u in ts ==> t <= u
  {
    SomeMember(ts);
    t :| t in ts;
    var todo := ts - {t};
    while todo != {}
      invariant todo <= ts && t in ts
      invariant forall u :: u in ts && u !in todo ==> t <= u
      decreases |todo|
    {
      SomeMember(todo);
      var u :| u in todo;
      if u < t { t := u; }
      todo := todo - {u};
    }
  }

  lemma HeadIsEarliest(a: seq<Sample>, s: Sample)
    requires Ascending(a) && s in a
    ensures a[0].t <= s.t
  {
    var i :| 0 <= i < |a| && a[i] == s;
  }

  lemma SameHead(a: seq<Sample>, b: seq<Sample>, m: map<int, Census>, n: map<int, Census>)
    requires Lists(a, m) && Lists(b, n) && m.Keys == n.Keys && a != []
    ensures b != [] && a[0].t == b[0].t
  {
    assert a[0] in a && a[0].t in m.Keys;
    HeadIsEarliest(b, Sample(a[0].t, n[a[0].t]));
    assert b[0] in b && b[0].t in n.Keys;
    HeadIsEarliest(a, Sample(b[0].t, m[b[0].t]));
  }

  // Two listings of the same keys list them at the same places.
  lemma {:induction false} SameTimes(a: seq<Sample>, b: seq<Sample>, m: map<int, Census>, n: map<int, Census>)
    requires Lists(a, m) && Lists(b, n) && m.Keys == n.Keys
    ensures |a| == |b| && forall i :: 0 <= i < |a| ==> a[i].t == b[i].t
    decreases |a|
  {
    if a == [] {
      if b != [] { SameHead(b, a, n, m); }
    } else {
      SameHead(a, b, m, n);
      ListsTail(a, m);
      ListsTail(b, n);
      SameTimes(a[1..], b[1..], m - {a[0].t}, n - {a[0].t});
      forall i | 0 <= i < |a| ensures a[i].t == b[i].t {
        if i > 0 { assert a[i] == a[1..][i - 1] && b[i] == b[1..][i - 1]; }
      }
    }
  }

  lemma ListingIsUnique(a: seq<Sample>, b: seq<Sample>, m: map<int, Census>)
    requires Lists(a, m) && Lists(b, m)
    ensures a == b
  {
    SameTimes(a, b, m, m);
    forall i | 0 <= i < |a| ensures a[i] == b[i] { assert a[i] in a && b[i] in b; }
  }

  lemma TailIsLater(a: seq<Sample>, s: Sample)
    requires a != [] && Ascending(a) && s in a[1..]
    ensures s in a && a[0].t < s.t
  {
    var i :| 0 <= i < |a[1..]| && a[1..][i] == s;
    assert a[i + 1] == s;
  }

  lemma InTail(a: seq<Sample>, s: Sample)
    requires a != [] && s in a && s != a[0]
    ensures s in a[1..]
  {
    assert a == [a[0]] + a[1..];
  }

  lemma ListsTail(a: seq<Sample>, m: map<int, Census>)
    requires a != [] && Lists(a, m)
    ensures Lists(a[1..], m - {a[0].t})
  {
    var rest := m - {a[0].t};
    forall s | s in a[1..] ensures s.t in rest && s.census == rest[s.t] { TailIsLater(a, s); }
    forall t | t in rest ensures Sample(t, rest[t]) in a[1..] { InTail(a, Sample(t, m[t])); }
  }

  // ---------- Bucket by bucket ----------

  // The censuses of bucket `b`, in order.
  function In(samples: seq<Sample>, b: int, step: int): (cs: seq<Census>)
    requires step > 0
  {
    if samples == [] then []
    else
      var front, last := samples[..|samples| - 1], samples[|samples| - 1];
      In(front, b, step) + if BucketOf(last.t, step) == b then [last.census] else []
  }

  predicate Sampled(samples: seq<Sample>, b: int, step: int, c: Census)
    requires step > 0
  {
    exists s :: s in samples && BucketOf(s.t, step) == b && s.census == c
  }

  lemma {:induction false} InMembers(samples: seq<Sample>, b: int, step: int, c: Census)
    requires step > 0
    ensures c in In(samples, b, step) <==> Sampled(samples, b, step, c)
  {
    if samples != [] {
      var front, last := samples[..|samples| - 1], samples[|samples| - 1];
      assert samples == front + [last];
      InMembers(front, b, step, c);
    }
  }

  /** Each bucket of a roll-up is the run of folds over its samples; a bucket nobody sampled has no
      entry. */
  lemma {:induction false} RollByBucket(samples: seq<Sample>, step: int, b: int)
    requires step > 0
    ensures b in Roll(samples, step) <==> In(samples, b, step) != []
    ensures b in Roll(samples, step) ==> Roll(samples, step)[b] == Fold(In(samples, b, step), MAX_GROUPS)
  {
    if samples != [] {
      var front, last := samples[..|samples| - 1], samples[|samples| - 1];
      RollByBucket(front, step, b);
      var cs := In(front, b, step);
      if BucketOf(last.t, step) == b {
        assert (cs + [last.census])[..|cs|] == cs;
      } else {
        assert cs + [] == cs;
      }
    }
  }

  // ---------- Two roll-ups ----------

  lemma BucketsInSeconds(t: int)
    ensures BucketOf(t, COARSE_INTERVAL_SECS) == t - t % 300 && BucketOf(t, MONTH_INTERVAL_SECS) == t - t % 1800
  {}

  lemma FineRemainder(q: int, r: int)
    requires 0 <= r < 300
    ensures (300 * q + r) % 300 == r
  {}

  lemma CoarseRemainder(q: int, r: int)
    requires 0 <= r < 1800
    ensures (1800 * q + r) % 1800 == r
  {}

  // The coarse bucket of `t == 1800 * e + 300 * d + f`, and of its fine bucket.
  lemma NestedBuckets(e: int, d: int, f: int)
    requires 0 <= d < 6 && 0 <= f < 300
    ensures (1800 * e + 300 * d + f) % 300 == f
    ensures (1800 * e + 300 * d + f) % 1800 == 300 * d + f && (1800 * e + 300 * d) % 1800 == 300 * d
  {
    FineRemainder(6 * e + d, f);
    CoarseRemainder(e, 300 * d + f);
    CoarseRemainder(e, 300 * d);
    assert 300 * (6 * e + d) + f == 1800 * e + 300 * d + f;
  }

  lemma BucketsNest(t: int)
    ensures BucketOf(BucketOf(t, COARSE_INTERVAL_SECS), MONTH_INTERVAL_SECS) == BucketOf(t, MONTH_INTERVAL_SECS)
  {
    var e, r := t / 1800, t % 1800;
    var d, f := r / 300, r % 300;
    assert t == 1800 * e + 300 * d + f && 0 <= d < 6 && 0 <= f < 300;
    NestedBuckets(e, d, f);
    BucketsInSeconds(t);
    BucketsInSeconds(t - f);
  }

  // A roll-up of samples to fine buckets, and one bucket of the roll-up of that to coarse ones.
  ghost predicate RolledTwice(samples: seq<Sample>, mid: seq<Sample>) {
    Lists(mid, Roll(samples, COARSE_INTERVAL_SECS))
  }

  // Every sample of a coarse bucket went into one fine bucket of it.
  lemma SampleIsInAFineBucket(samples: seq<Sample>, mid: seq<Sample>, b: int, s: Sample)
    requires RolledTwice(samples, mid) && s in samples && BucketOf(s.t, MONTH_INTERVAL_SECS) == b
    ensures var f := BucketOf(s.t, COARSE_INTERVAL_SECS);
      && s.census in In(samples, f, COARSE_INTERVAL_SECS)
      && Fold(In(samples, f, COARSE_INTERVAL_SECS), MAX_GROUPS) in In(mid, b, MONTH_INTERVAL_SECS)
  {
    var f := BucketOf(s.t, COARSE_INTERVAL_SECS);
    InMembers(samples, f, COARSE_INTERVAL_SECS, s.census);
    RollByBucket(samples, COARSE_INTERVAL_SECS, f);
    BucketsNest(s.t);
    var c := Fold(In(samples, f, COARSE_INTERVAL_SECS), MAX_GROUPS);
    assert Sample(f, c) in mid;
    InMembers(mid, b, MONTH_INTERVAL_SECS, c);
  }

  // And every fine entry of a coarse bucket is the fold of samples of that coarse bucket.
  lemma FineBucketIsOfSamples(samples: seq<Sample>, mid: seq<Sample>, b: int, m: Sample)
    requires RolledTwice(samples, mid) && m in mid && BucketOf(m.t, MONTH_INTERVAL_SECS) == b
    ensures var cs := In(samples, m.t, COARSE_INTERVAL_SECS);
      && cs != [] && m.census == Fold(cs, MAX_GROUPS)
      && forall c :: c in cs ==> c in In(samples, b, MONTH_INTERVAL_SECS)
  {
    var cs := In(samples, m.t, COARSE_INTERVAL_SECS);
    RollByBucket(samples, COARSE_INTERVAL_SECS, m.t);
    forall c | c in cs ensures c in In(samples, b, MONTH_INTERVAL_SECS) {
      InMembers(samples, m.t, COARSE_INTERVAL_SECS, c);
      var s :| s in samples && BucketOf(s.t, COARSE_INTERVAL_SECS) == m.t && s.census == c;
      BucketsNest(s.t);
      InMembers(samples, b, MONTH_INTERVAL_SECS, c);
    }
  }

  // ---------- The peak of the parts ----------

  // Every fine entry is the fold of its fine bucket.
  ghost predicate FoldsOf(samples: seq<Sample>, mid: seq<Sample>) {
    forall m :: m in mid ==>
      var cs := In(samples, m.t, COARSE_INTERVAL_SECS); cs != [] && m.census == Fold(cs, MAX_GROUPS)
  }

  lemma RolledAreFolds(samples: seq<Sample>, mid: seq<Sample>)
    requires RolledTwice(samples, mid)
    ensures FoldsOf(samples, mid)
  {
    forall m | m in mid
      ensures var cs := In(samples, m.t, COARSE_INTERVAL_SECS); cs != [] && m.census == Fold(cs, MAX_GROUPS)
    {
      RollByBucket(samples, COARSE_INTERVAL_SECS, m.t);
    }
  }

  // The peak over the samples behind each fine entry of the coarse bucket `b`.
  ghost function PartPeak(samples: seq<Sample>, mid: seq<Sample>, b: int): (p: Peak) {
    if mid == [] then Peak(0, 0, map[])
    else
      var front, last := mid[..|mid| - 1], mid[|mid| - 1];
      if BucketOf(last.t, MONTH_INTERVAL_SECS) == b
      then Join(PartPeak(samples, front, b), PeakAll(In(samples, last.t, COARSE_INTERVAL_SECS)))
      else PartPeak(samples, front, b)
  }

  ghost predicate AbovePart(x: Peak, samples: seq<Sample>, b: int, m: Sample) {
    BucketOf(m.t, MONTH_INTERVAL_SECS) == b ==> Above(x, PeakAll(In(samples, m.t, COARSE_INTERVAL_SECS)))
  }

  lemma {:induction false} PartPeakIsLeast(x: Peak, samples: seq<Sample>, mid: seq<Sample>, b: int)
    ensures Above(x, PartPeak(samples, mid, b)) <==> forall m :: m in mid ==> AbovePart(x, samples, b, m)
  {
    if mid != [] {
      var front, last := mid[..|mid| - 1], mid[|mid| - 1];
      assert mid == front + [last];
      assert last in mid && forall m :: m in mid <==> m in front || m == last;
      PartPeakIsLeast(x, samples, front, b);
      JoinIsLeast(x, PartPeak(samples, front, b), PeakAll(In(samples, last.t, COARSE_INTERVAL_SECS)));
    }
  }

  lemma PeakIsAboveParts(x: Peak, samples: seq<Sample>, mid: seq<Sample>, b: int)
    requires RolledTwice(samples, mid) && Above(x, PeakAll(In(samples, b, MONTH_INTERVAL_SECS)))
    ensures Above(x, PartPeak(samples, mid, b))
  {
    PeakIsLeast(x, In(samples, b, MONTH_INTERVAL_SECS));
    forall m | m in mid ensures AbovePart(x, samples, b, m) {
      if BucketOf(m.t, MONTH_INTERVAL_SECS) == b {
        FineBucketIsOfSamples(samples, mid, b, m);
        PeakIsLeast(x, In(samples, m.t, COARSE_INTERVAL_SECS));
      }
    }
    PartPeakIsLeast(x, samples, mid, b);
  }

  lemma PartsAreAboveSample(x: Peak, samples: seq<Sample>, mid: seq<Sample>, b: int, s: Sample)
    requires RolledTwice(samples, mid) && Above(x, PartPeak(samples, mid, b))
    requires s in samples && BucketOf(s.t, MONTH_INTERVAL_SECS) == b
    ensures Above(x, PeakOf(s.census))
  {
    var f := BucketOf(s.t, COARSE_INTERVAL_SECS);
    BucketsNest(s.t);
    InMembers(samples, f, COARSE_INTERVAL_SECS, s.census);
    RollByBucket(samples, COARSE_INTERVAL_SECS, f);
    var m := Sample(f, Roll(samples, COARSE_INTERVAL_SECS)[f]);
    assert m in mid;
    PartPeakIsLeast(x, samples, mid, b);
    assert AbovePart(x, samples, b, m);
    PeakIsLeast(x, In(samples, f, COARSE_INTERVAL_SECS));
  }

  lemma PartsAreAbovePeak(x: Peak, samples: seq<Sample>, mid: seq<Sample>, b: int)
    requires RolledTwice(samples, mid) && Above(x, PartPeak(samples, mid, b))
    ensures Above(x, PeakAll(In(samples, b, MONTH_INTERVAL_SECS)))
  {
    forall c | c in In(samples, b, MONTH_INTERVAL_SECS) ensures Above(x, PeakOf(c)) {
      InMembers(samples, b, MONTH_INTERVAL_SECS, c);
      var s :| s in samples && BucketOf(s.t, MONTH_INTERVAL_SECS) == b && s.census == c;
      PartsAreAboveSample(x, samples, mid, b, s);
    }
    PeakIsLeast(x, In(samples, b, MONTH_INTERVAL_SECS));
  }

  lemma AboveItself(p: Peak)
    ensures Above(p, p)
  {}

  // The parts of a coarse bucket have the peak of its samples.
  lemma PartsHaveThePeak(samples: seq<Sample>, mid: seq<Sample>, b: int)
    requires RolledTwice(samples, mid)
    ensures PartPeak(samples, mid, b) == PeakAll(In(samples, b, MONTH_INTERVAL_SECS))
  {
    var parts, peak := PartPeak(samples, mid, b), PeakAll(In(samples, b, MONTH_INTERVAL_SECS));
    AboveItself(parts);
    AboveItself(peak);
    PeakIsAboveParts(peak, samples, mid, b);
    PartsAreAbovePeak(parts, samples, mid, b);
    AboveBothWays(parts, peak);
  }

  // `q` has the totals of `p`, and its cells stand for those of `p`.
  ghost predicate StandsForPeak(q: Peak, p: Peak) {
    q.devices == p.devices && q.users == p.users && StandsFor(q.cells, p.cells, MAX_GROUPS)
  }

  lemma JoinStands(q: Peak, p: Peak, r: Peak, o: Peak)
    requires StandsForPeak(q, p) && StandsForPeak(r, o)
    ensures StandsForPeak(Join(q, r), Join(p, o))
  {
    MaxStandsForMax(q.cells, p.cells, r.cells, o.cells, MAX_GROUPS);
  }

  lemma FoldStandsForPeak(cs: seq<Census>)
    requires cs != []
    ensures StandsForPeak(PeakOf(Fold(cs, MAX_GROUPS)), PeakAll(cs))
  {
    FoldTotals(cs, MAX_GROUPS);
    FoldCells(cs, MAX_GROUPS);
  }

  lemma {:induction false} FineEntriesStand(samples: seq<Sample>, mid: seq<Sample>, b: int)
    requires FoldsOf(samples, mid)
    ensures StandsForPeak(PeakAll(In(mid, b, MONTH_INTERVAL_SECS)), PartPeak(samples, mid, b))
  {
    if mid == [] {
      StandsForItself(map[], MAX_GROUPS);
    } else {
      var front, last := mid[..|mid| - 1], mid[|mid| - 1];
      assert mid == front + [last];
      assert last in mid && forall m :: m in front ==> m in mid;
      FineEntriesStand(samples, front, b);
      EntriesOneMore(front, last, b);
      if BucketOf(last.t, MONTH_INTERVAL_SECS) == b {
        var cs := In(samples, last.t, COARSE_INTERVAL_SECS);
        FoldStandsForPeak(cs);
        JoinStands(PeakAll(In(front, b, MONTH_INTERVAL_SECS)), PartPeak(samples, front, b),
                   PeakOf(last.census), PeakAll(cs));
      }
    }
  }

  lemma EntriesOneMore(front: seq<Sample>, last: Sample, b: int)
    ensures var before, after := In(front, b, MONTH_INTERVAL_SECS), In(front + [last], b, MONTH_INTERVAL_SECS);
      PeakAll(after) ==
        if BucketOf(last.t, MONTH_INTERVAL_SECS) == b then Join(PeakAll(before), PeakOf(last.census)) else PeakAll(before)
  {
    InOneMore(front, last, b, MONTH_INTERVAL_SECS);
    var before := In(front, b, MONTH_INTERVAL_SECS);
    assert (before + [last.census])[..|before|] == before;
    assert before + [] == before;
  }

  /** The fine entries of a coarse bucket have the totals of its samples, and their cells stand for
      theirs. */
  lemma FineEntriesStandForSamples(samples: seq<Sample>, mid: seq<Sample>, b: int)
    requires RolledTwice(samples, mid)
    ensures StandsForPeak(PeakAll(In(mid, b, MONTH_INTERVAL_SECS)), PeakAll(In(samples, b, MONTH_INTERVAL_SECS)))
  {
    RolledAreFolds(samples, mid);
    FineEntriesStand(samples, mid, b);
    PartsHaveThePeak(samples, mid, b);
  }

  lemma KeysCompose(samples: seq<Sample>, mid: seq<Sample>, b: int)
    requires RolledTwice(samples, mid)
    ensures In(samples, b, MONTH_INTERVAL_SECS) == [] <==> In(mid, b, MONTH_INTERVAL_SECS) == []
  {
    if In(samples, b, MONTH_INTERVAL_SECS) != [] {
      var c := In(samples, b, MONTH_INTERVAL_SECS)[0];
      InMembers(samples, b, MONTH_INTERVAL_SECS, c);
      var s :| s in samples && BucketOf(s.t, MONTH_INTERVAL_SECS) == b && s.census == c;
      SampleIsInAFineBucket(samples, mid, b, s);
    }
    if In(mid, b, MONTH_INTERVAL_SECS) != [] {
      var c := In(mid, b, MONTH_INTERVAL_SECS)[0];
      InMembers(mid, b, MONTH_INTERVAL_SECS, c);
      var m :| m in mid && BucketOf(m.t, MONTH_INTERVAL_SECS) == b && m.census == c;
      FineBucketIsOfSamples(samples, mid, b, m);
      var d := In(samples, m.t, COARSE_INTERVAL_SECS)[0];
      assert d in In(samples, b, MONTH_INTERVAL_SECS);
    }
  }

  // ---------- One entry or several ----------

  lemma {:induction false} EntryOf(samples: seq<Sample>, b: int, step: int) returns (i: int)
    requires step > 0 && In(samples, b, step) != []
    ensures 0 <= i < |samples| && BucketOf(samples[i].t, step) == b
  {
    var n := |samples| - 1;
    if BucketOf(samples[n].t, step) == b {
      i := n;
    } else {
      i := EntryOf(samples[..n], b, step);
    }
  }

  lemma {:induction false} TwoEntriesOf(samples: seq<Sample>, b: int, step: int) returns (i: int, j: int)
    requires step > 0 && |In(samples, b, step)| >= 2
    ensures 0 <= i < j < |samples| && BucketOf(samples[i].t, step) == b && BucketOf(samples[j].t, step) == b
  {
    var n := |samples| - 1;
    if BucketOf(samples[n].t, step) == b {
      i := EntryOf(samples[..n], b, step);
      j := n;
    } else {
      i, j := TwoEntriesOf(samples[..n], b, step);
    }
  }

  lemma {:induction false} HasEntry(samples: seq<Sample>, b: int, step: int, i: nat)
    requires step > 0 && i < |samples| && BucketOf(samples[i].t, step) == b
    ensures In(samples, b, step) != []
  {
    if i < |samples| - 1 { HasEntry(samples[..|samples| - 1], b, step, i); }
  }

  lemma {:induction false} HasTwoEntries(samples: seq<Sample>, b: int, step: int, i: nat, j: nat)
    requires step > 0 && i < j < |samples| && BucketOf(samples[i].t, step) == b && BucketOf(samples[j].t, step) == b
    ensures |In(samples, b, step)| >= 2
  {
    var n := |samples| - 1;
    if j < n {
      HasTwoEntries(samples[..n], b, step, i, j);
    } else {
      HasEntry(samples[..n], b, step, i);
    }
  }

  // Several fine entries come of several samples.
  lemma SeveralSamples(samples: seq<Sample>, mid: seq<Sample>, b: int)
    requires RolledTwice(samples, mid) && |In(mid, b, MONTH_INTERVAL_SECS)| >= 2
    ensures |In(samples, b, MONTH_INTERVAL_SECS)| >= 2
  {
    var x, y := TwoEntriesOf(mid, b, MONTH_INTERVAL_SECS);
    var i := SampleBehind(samples, mid, b, mid[x]);
    var j := SampleBehind(samples, mid, b, mid[y]);
    assert i != j;
    HasTwoEntries(samples, b, MONTH_INTERVAL_SECS, if i < j then i else j, if i < j then j else i);
  }

  lemma SampleBehind(samples: seq<Sample>, mid: seq<Sample>, b: int, m: Sample) returns (i: int)
    requires RolledTwice(samples, mid) && m in mid && BucketOf(m.t, MONTH_INTERVAL_SECS) == b
    ensures 0 <= i < |samples| && BucketOf(samples[i].t, COARSE_INTERVAL_SECS) == m.t
    ensures BucketOf(samples[i].t, MONTH_INTERVAL_SECS) == b
  {
    FineBucketIsOfSamples(samples, mid, b, m);
    var c := In(samples, m.t, COARSE_INTERVAL_SECS)[0];
    InMembers(samples, m.t, COARSE_INTERVAL_SECS, c);
    i :| 0 <= i < |samples| && BucketOf(samples[i].t, COARSE_INTERVAL_SECS) == m.t && samples[i].census == c;
    BucketsNest(samples[i].t);
  }

  lemma {:induction false} SameBucketSameEntries(samples: seq<Sample>, b: int, f: int)
    requires forall s :: s in samples ==>
      (BucketOf(s.t, MONTH_INTERVAL_SECS) == b <==> BucketOf(s.t, COARSE_INTERVAL_SECS) == f)
    ensures In(samples, b, MONTH_INTERVAL_SECS) == In(samples, f, COARSE_INTERVAL_SECS)
  {
    if samples != [] {
      var front, last := samples[..|samples| - 1], samples[|samples| - 1];
      assert samples == front + [last];
      SameBucketSameEntries(front, b, f);
    }
  }

  // One fine entry holds every sample of the coarse bucket.
  lemma OneFineEntry(samples: seq<Sample>, mid: seq<Sample>, b: int)
    requires RolledTwice(samples, mid) && |In(mid, b, MONTH_INTERVAL_SECS)| == 1
    ensures In(samples, b, MONTH_INTERVAL_SECS) != []
    ensures In(mid, b, MONTH_INTERVAL_SECS)[0] == Fold(In(samples, b, MONTH_INTERVAL_SECS), MAX_GROUPS)
  {
    var c := In(mid, b, MONTH_INTERVAL_SECS)[0];
    InMembers(mid, b, MONTH_INTERVAL_SECS, c);
    var m :| m in mid && BucketOf(m.t, MONTH_INTERVAL_SECS) == b && m.census == c;
    FineBucketIsOfSamples(samples, mid, b, m);
    forall s | s in samples
      ensures BucketOf(s.t, MONTH_INTERVAL_SECS) == b <==> BucketOf(s.t, COARSE_INTERVAL_SECS) == m.t
    {
      BucketsNest(s.t);
      if BucketOf(s.t, MONTH_INTERVAL_SECS) == b { OnlyFineBucket(samples, mid, b, m, s); }
    }
    SameBucketSameEntries(samples, b, m.t);
  }

  lemma OnlyFineBucket(samples: seq<Sample>, mid: seq<Sample>, b: int, m: Sample, s: Sample)
    requires RolledTwice(samples, mid) && |In(mid, b, MONTH_INTERVAL_SECS)| == 1
    requires m in mid && BucketOf(m.t, MONTH_INTERVAL_SECS) == b
    requires s in samples && BucketOf(s.t, MONTH_INTERVAL_SECS) == b
    ensures BucketOf(s.t, COARSE_INTERVAL_SECS) == m.t
  {
    var f := BucketOf(s.t, COARSE_INTERVAL_SECS);
    BucketsNest(s.t);
    InMembers(samples, f, COARSE_INTERVAL_SECS, s.census);
    RollByBucket(samples, COARSE_INTERVAL_SECS, f);
    var n := Sample(f, Roll(samples, COARSE_INTERVAL_SECS)[f]);
    assert n in mid;
    var x :| 0 <= x < |mid| && mid[x] == m;
    var y :| 0 <= y < |mid| && mid[y] == n;
    if x < y { HasTwoEntries(mid, b, MONTH_INTERVAL_SECS, x, y); }
    if y < x { HasTwoEntries(mid, b, MONTH_INTERVAL_SECS, y, x); }
  }

  // ---------- The theorem ----------

  ghost predicate FitsOrAlone(samples: seq<Sample>, mid: seq<Sample>, b: int) {
    Fits(PeakAll(In(samples, b, MONTH_INTERVAL_SECS)).cells, MAX_GROUPS) || |In(mid, b, MONTH_INTERVAL_SECS)| == 1
  }

  // What the two roll-ups of a bucket always have in common.
  ghost predicate Composed(direct: Census, twice: Census) {
    && direct.devices == twice.devices && direct.users == twice.users
    && SameNamed(Cells(direct.groups), Cells(twice.groups))
  }

  /** Rolling up to five minutes and then to thirty gives the buckets of rolling up to thirty directly,
      with the same totals, the same named cells and the same devices in each, whatever the cap; and the
      whole census of a bucket when it has a single fine entry or the union of its cells fits the cap. */
  lemma RollupsCompose(samples: seq<Sample>, mid: seq<Sample>, b: int)
    requires Lists(mid, Roll(samples, COARSE_INTERVAL_SECS))
    ensures var direct, twice := Roll(samples, MONTH_INTERVAL_SECS), Roll(mid, MONTH_INTERVAL_SECS);
      && (b in direct <==> b in twice)
      && (b in direct ==> Composed(direct[b], twice[b]) && (FitsOrAlone(samples, mid, b) ==> direct[b] == twice[b]))
  {
    RollByBucket(samples, MONTH_INTERVAL_SECS, b);
    RollByBucket(mid, MONTH_INTERVAL_SECS, b);
    KeysCompose(samples, mid, b);
    if b in Roll(samples, MONTH_INTERVAL_SECS) { BucketCompose(samples, mid, b); }
  }

  lemma BucketCompose(samples: seq<Sample>, mid: seq<Sample>, b: int)
    requires RolledTwice(samples, mid)
    requires In(samples, b, MONTH_INTERVAL_SECS) != [] && In(mid, b, MONTH_INTERVAL_SECS) != []
    ensures var direct, twice := Fold(In(samples, b, MONTH_INTERVAL_SECS), MAX_GROUPS),
                                 Fold(In(mid, b, MONTH_INTERVAL_SECS), MAX_GROUPS);
      Composed(direct, twice) && (FitsOrAlone(samples, mid, b) ==> direct == twice)
  {
    var ss, ms := In(samples, b, MONTH_INTERVAL_SECS), In(mid, b, MONTH_INTERVAL_SECS);
    if |ms| == 1 {
      OneFineEntry(samples, mid, b);
    } else {
      SeveralSamples(samples, mid, b);
      FineEntriesStandForSamples(samples, mid, b);
      FoldsCompose(ss, ms);
    }
  }

  // Two runs of folds, of which the second folds what stands for the first.
  lemma FoldsCompose(ss: seq<Census>, ms: seq<Census>)
    requires |ss| >= 2 && |ms| >= 2 && StandsForPeak(PeakAll(ms), PeakAll(ss))
    ensures Composed(Fold(ss, MAX_GROUPS), Fold(ms, MAX_GROUPS))
    ensures Fits(PeakAll(ss).cells, MAX_GROUPS) ==> Fold(ss, MAX_GROUPS) == Fold(ms, MAX_GROUPS)
  {
    FoldTotals(ss, MAX_GROUPS);
    FoldTotals(ms, MAX_GROUPS);
    FoldCells(ss, MAX_GROUPS);
    FoldCells(ms, MAX_GROUPS);
    StagedTops(ss, ms);
    TopsAgree(Cells(Fold(ss, MAX_GROUPS).groups), Cells(Fold(ms, MAX_GROUPS).groups), PeakAll(ss).cells, MAX_GROUPS);
  }

  lemma StagedTops(ss: seq<Census>, ms: seq<Census>)
    requires |ms| >= 2 && StandsForPeak(PeakAll(ms), PeakAll(ss))
    ensures Tops(Cells(Fold(ms, MAX_GROUPS).groups), PeakAll(ss).cells, MAX_GROUPS)
  {
    var twice := Cells(Fold(ms, MAX_GROUPS).groups);
    FoldCells(ms, MAX_GROUPS);
    StandsForChains(twice, PeakAll(ms).cells, PeakAll(ss).cells, MAX_GROUPS);
    FoldFits(Fold(ms[..|ms| - 1], MAX_GROUPS), ms[|ms| - 1], MAX_GROUPS);
    StandingWithinTheCap(twice, PeakAll(ss).cells, MAX_GROUPS);
  }

  ghost predicate EveryBucketFits(samples: seq<Sample>) {
    forall b :: Fits(PeakAll(In(samples, b, MONTH_INTERVAL_SECS)).cells, MAX_GROUPS)
  }

  /** So the two answers list the same buckets with the same totals, named cells and devices, always;
      and under the cap they are the same list of samples. */
  lemma RollupsAgree(samples: seq<Sample>, mid: seq<Sample>, direct: seq<Sample>, twice: seq<Sample>)
    requires Lists(mid, Roll(samples, COARSE_INTERVAL_SECS))
    requires Lists(direct, Roll(samples, MONTH_INTERVAL_SECS)) && Lists(twice, Roll(mid, MONTH_INTERVAL_SECS))
    ensures |direct| == |twice|
    ensures forall i :: 0 <= i < |direct| ==>
      direct[i].t == twice[i].t && Composed(direct[i].census, twice[i].census)
    ensures EveryBucketFits(samples) ==> direct == twice
  {
    var d, t := Roll(samples, MONTH_INTERVAL_SECS), Roll(mid, MONTH_INTERVAL_SECS);
    forall b ensures b in d <==> b in t { RollupsCompose(samples, mid, b); }
    SameTimes(direct, twice, d, t);
    forall i | 0 <= i < |direct|
      ensures Composed(direct[i].census, twice[i].census)
      ensures EveryBucketFits(samples) ==> direct[i] == twice[i]
    {
      assert direct[i] in direct && twice[i] in twice;
      RollupsCompose(samples, mid, direct[i].t);
    }
  }

  /** Past the cap both answers still bound every sample from above: the sums over the cells of its
      bucket are at least the sample's own, rolled up directly or in two stages. */
  lemma RollupsBoundEverySample(samples: seq<Sample>, mid: seq<Sample>, s: Sample)
    requires Lists(mid, Roll(samples, COARSE_INTERVAL_SECS)) && s in samples
    ensures var direct, twice := Roll(samples, MONTH_INTERVAL_SECS), Roll(mid, MONTH_INTERVAL_SECS);
      var b := BucketOf(s.t, MONTH_INTERVAL_SECS);
      && b in direct && Below(Weight(s.census), Weight(direct[b]))
      && b in twice && Below(Weight(s.census), Weight(twice[b]))
  {
    var b, f := BucketOf(s.t, MONTH_INTERVAL_SECS), BucketOf(s.t, COARSE_INTERVAL_SECS);
    InMembers(samples, b, MONTH_INTERVAL_SECS, s.census);
    RollByBucket(samples, MONTH_INTERVAL_SECS, b);
    FoldWeighs(In(samples, b, MONTH_INTERVAL_SECS), MAX_GROUPS, s.census);
    SampleIsInAFineBucket(samples, mid, b, s);
    var fine := In(samples, f, COARSE_INTERVAL_SECS);
    FoldWeighs(fine, MAX_GROUPS, s.census);
    RollByBucket(mid, MONTH_INTERVAL_SECS, b);
    FoldWeighs(In(mid, b, MONTH_INTERVAL_SECS), MAX_GROUPS, Fold(fine, MAX_GROUPS));
  }

  // ---------- Past the cap ----------

  lemma InOneMore(samples: seq<Sample>, s: Sample, b: int, step: int)
    requires step > 0
    ensures In(samples + [s], b, step) == In(samples, b, step) + if BucketOf(s.t, step) == b then [s.census] else []
  {
    assert (samples + [s])[..|samples|] == samples;
  }

  lemma InTwo(x: Sample, y: Sample, b: int, step: int)
    requires step > 0
    ensures In([x, y], b, step) ==
      (if BucketOf(x.t, step) == b then [x.census] else []) + (if BucketOf(y.t, step) == b then [y.census] else [])
  {
    InOneMore([], x, b, step);
    InOneMore([x], y, b, step);
    assert [] + [x] == [x] && [x] + [y] == [x, y];
  }

  lemma InThree(x: Sample, y: Sample, z: Sample, b: int, step: int)
    requires step > 0 && BucketOf(y.t, step) == BucketOf(z.t, step)
    ensures In([x, y, z], b, step) == (if BucketOf(x.t, step) == b then [x.census] else []) +
                                      (if BucketOf(y.t, step) == b then [y.census, z.census] else [])
  {
    InTwo(x, y, b, step);
    InOneMore([x, y], z, b, step);
    assert [x, y] + [z] == [x, y, z];
  }

  // Three samples, of which the last two share a fine bucket of their own, and all one coarse bucket.
  ghost predicate Staged(x: Sample, y: Sample, z: Sample, fine: int, coarse: int, fx: int, fy: int, b: int) {
    && fine > 0 && coarse > 0 && fx < fy
    && BucketOf(x.t, fine) == fx && BucketOf(y.t, fine) == fy && BucketOf(z.t, fine) == fy
    && BucketOf(x.t, coarse) == b && BucketOf(y.t, coarse) == b && BucketOf(z.t, coarse) == b
    && BucketOf(fx, coarse) == b && BucketOf(fy, coarse) == b
  }

  lemma FineKey(x: Sample, y: Sample, z: Sample, fine: int, k: int)
    requires fine > 0 && BucketOf(y.t, fine) == BucketOf(z.t, fine)
    ensures k in Roll([x, y, z], fine) <==> k == BucketOf(x.t, fine) || k == BucketOf(y.t, fine)
  {
    RollByBucket([x, y, z], fine, k);
    InThree(x, y, z, k, fine);
  }

  lemma FineEntries(x: Sample, y: Sample, z: Sample, fine: int)
    requires fine > 0 && BucketOf(y.t, fine) == BucketOf(z.t, fine) != BucketOf(x.t, fine)
    ensures var rolled, fx, fy := Roll([x, y, z], fine), BucketOf(x.t, fine), BucketOf(y.t, fine);
      && fx in rolled && rolled[fx] == x.census
      && fy in rolled && rolled[fy] == Fold([y.census, z.census], MAX_GROUPS)
  {
    var fx, fy := BucketOf(x.t, fine), BucketOf(y.t, fine);
    RollByBucket([x, y, z], fine, fx);
    InThree(x, y, z, fx, fine);
    assert [x.census] + [] == [x.census];
    RollByBucket([x, y, z], fine, fy);
    InThree(x, y, z, fy, fine);
    assert [] + [y.census, z.census] == [y.census, z.census];
  }

  lemma FineOfThree(x: Sample, y: Sample, z: Sample, fine: int, coarse: int, fx: int, fy: int, b: int)
    requires Staged(x, y, z, fine, coarse, fx, fy, b)
    ensures Roll([x, y, z], fine) == map[fx := x.census, fy := Fold([y.census, z.census], MAX_GROUPS)]
  {
    forall k ensures k in Roll([x, y, z], fine) <==> k == fx || k == fy { FineKey(x, y, z, fine, k); }
    FineEntries(x, y, z, fine);
  }

  lemma TwoListed(x: Sample, y: Sample, mid: seq<Sample>)
    requires x.t < y.t && Lists(mid, map[x.t := x.census, y.t := y.census])
    ensures mid == [x, y]
  {
    ListingIsUnique(mid, [x, y], map[x.t := x.census, y.t := y.census]);
  }

  lemma CoarseOfThree(x: Sample, y: Sample, z: Sample, coarse: int, b: int)
    requires coarse > 0 && BucketOf(x.t, coarse) == b && BucketOf(y.t, coarse) == b && BucketOf(z.t, coarse) == b
    ensures b in Roll([x, y, z], coarse)
    ensures Roll([x, y, z], coarse)[b] == Merge(Merge(x.census, y.census, MAX_GROUPS), z.census, MAX_GROUPS)
  {
    RollByBucket([x, y, z], coarse, b);
    InThree(x, y, z, b, coarse);
    assert In([x, y, z], b, coarse) == [x.census, y.census, z.census];
    FoldOfThree(x.census, y.census, z.census, MAX_GROUPS);
  }

  lemma CoarseOfTwo(x: Sample, y: Sample, coarse: int, b: int)
    requires coarse > 0 && BucketOf(x.t, coarse) == b && BucketOf(y.t, coarse) == b
    ensures b in Roll([x, y], coarse) && Roll([x, y], coarse)[b] == Merge(x.census, y.census, MAX_GROUPS)
  {
    RollByBucket([x, y], coarse, b);
    InTwo(x, y, b, coarse);
    FoldOfTwo(x.census, y.census, MAX_GROUPS);
  }

  lemma StagesAre(x: Sample, y: Sample, z: Sample, fine: int, coarse: int, fx: int, fy: int, b: int, mid: seq<Sample>)
    requires Staged(x, y, z, fine, coarse, fx, fy, b) && Lists(mid, Roll([x, y, z], fine))
    ensures var direct, twice := Roll([x, y, z], coarse), Roll(mid, coarse);
      && b in direct && direct[b] == Merge(Merge(x.census, y.census, MAX_GROUPS), z.census, MAX_GROUPS)
      && b in twice && twice[b] == Merge(x.census, Merge(y.census, z.census, MAX_GROUPS), MAX_GROUPS)
  {
    FineOfThree(x, y, z, fine, coarse, fx, fy, b);
    FoldOfTwo(y.census, z.census, MAX_GROUPS);
    var later := Sample(fy, Merge(y.census, z.census, MAX_GROUPS));
    TwoListed(Sample(fx, x.census), later, mid);
    CoarseOfThree(x, y, z, coarse, b);
    CoarseOfTwo(Sample(fx, x.census), later, coarse, b);
  }

  // A full bucket and, five minutes later, the same newcomer twice.
  ghost function LateNewcomer(): (samples: seq<Sample>) {
    [Sample(0, FullBucket(MAX_GROUPS)), Sample(300, NEWCOMER), Sample(360, NEWCOMER)]
  }

  lemma LateBuckets()
    ensures BucketOf(0, COARSE_INTERVAL_SECS) == 0 && BucketOf(300, COARSE_INTERVAL_SECS) == 300
    ensures BucketOf(360, COARSE_INTERVAL_SECS) == 300
    ensures BucketOf(0, MONTH_INTERVAL_SECS) == 0 && BucketOf(300, MONTH_INTERVAL_SECS) == 0
    ensures BucketOf(360, MONTH_INTERVAL_SECS) == 0
  {
    BucketsInSeconds(0);
    BucketsInSeconds(300);
    BucketsInSeconds(360);
  }

  lemma IsStaged(x: Sample, y: Sample, z: Sample, fine: int, coarse: int)
    requires fine > 0 && coarse > 0 && x.t < y.t
    requires BucketOf(x.t, fine) == x.t && BucketOf(y.t, fine) == y.t && BucketOf(z.t, fine) == y.t
    requires BucketOf(x.t, coarse) == x.t && BucketOf(y.t, coarse) == x.t && BucketOf(z.t, coarse) == x.t
    ensures Staged(x, y, z, fine, coarse, x.t, y.t, x.t)
  {}

  /** Past the cap the residue does depend on the stages: that series leaves a residue of seven rolled up
      directly, and of five through five minutes. Every other cell is the same. */
  lemma StagesShowPastTheCap(mid: seq<Sample>)
    requires Lists(mid, Roll(LateNewcomer(), COARSE_INTERVAL_SECS))
    ensures var direct, twice := Roll(LateNewcomer(), MONTH_INTERVAL_SECS), Roll(mid, MONTH_INTERVAL_SECS);
      && 0 in direct && 0 in twice
      && var l, r := Cells(direct[0].groups), Cells(twice[0].groups);
         && RESIDUE in l && l[RESIDUE] == Counts(7, 7)
         && RESIDUE in r && r[RESIDUE] == Counts(5, 5)
         && l - {RESIDUE} == r - {RESIDUE}
  {
    var a, b := FullBucket(MAX_GROUPS), NEWCOMER;
    LateBuckets();
    IsStaged(Sample(0, a), Sample(300, b), Sample(360, b), COARSE_INTERVAL_SECS, MONTH_INTERVAL_SECS);
    StagesAre(Sample(0, a), Sample(300, b), Sample(360, b), COARSE_INTERVAL_SECS, MONTH_INTERVAL_SECS, 0, 300, 0, mid);
    AssociationFailsPastTheCap();
  }
}
