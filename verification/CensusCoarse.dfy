/**
  The coarse series: every replica folds the minute it wrote into a five-minute bucket by reading the
  bucket's member, folding the minute into it and swapping it in if nobody changed it meanwhile. Over
  any interleaving of such folds a bucket holds one member at most, and while it is retained that
  member is the fold of exactly the minutes whose replica was told the swap succeeded.
*/
module CensusCoarse {
  import opened Options
  import opened Census
  import opened CensusMerge
  import opened CensusOverflow
  import opened CensusLeaders
  import opened CensusPeaks
  import opened CensusRollup
  import opened CensusSeries
  import opened CensusSums

  const COARSE_RETENTION_SECS := 30 * 24 * 60 * 60
  const COARSE_CAS_ATTEMPTS: nat := 5

  // ---------- The script ----------

  // The first member the store lists at a score; which one, when there are several, is left open.
  predicate IsFirst(first: Option<Sample>, m: Scores, score: int) {
    match first
    case None => !Scored(m, score)
    case Some(s) => s in m && m[s] == score
  }

  function Without(m: Scores, score: int): (r: Scores) {
    map s | s in m && m[s] != score :: m[s]
  }

  // The swap, once the first member at the score is known to be the one the caller read.
  function Swapped(st: Store, now: int, score: int, payload: Sample, keep: int): (r: Store) {
    Store(Newer(Without(Live(st, now), score)[payload := score], now - keep), now + keep + EXPIRY_MARGIN_SECS)
  }

  class CoarseSeries {
    var members: Scores
    var expires: int

    constructor ()
      ensures State() == Store(map[], 0)
    {
      members, expires := map[], 0;
    }

    function State(): Store
      reads this
    {
      Store(members, expires)
    }

    /** Swaps `payload` in for `seen`, unless the score holds something else by now: then nothing is
        written, trimmed or renewed. */
    method Swap(now: int, score: int, seen: Option<Sample>, payload: Sample, keep: int)
      returns (written: Option<bool>, first: Option<Sample>)
      modifies this
      ensures written.None? <==> keep < 1
      ensures keep >= 1 ==> IsFirst(first, Live(old(State()), now), score) && written == Some(first == seen)
      ensures written != Some(true) ==> State() == old(State())
      ensures written == Some(true) ==> State() == Swapped(old(State()), now, score, payload, keep)
    {
      if keep < 1 { return None, None; }
      var live := Live(State(), now);
      first := None;
      if Scored(live, score) {
        var s :| s in live && live[s] == score;
        first := Some(s);
      }
      if first != seen { return Some(false), first; }
      members := Without(live, score);
      members := members[payload := score];
      members := Newer(members, now - keep);
      expires := now + keep + EXPIRY_MARGIN_SECS;
      written := Some(true);
    }
  }

  // ---------- The replicas ----------

  // What a task read, and how many folds had succeeded by then.
  datatype Phase = Reading | Holding(seen: Option<Sample>, since: nat) | Succeeded | GaveUp
  datatype Task = Task(t: int, census: Census, tries: nat, phase: Phase)
  // `won` lists the folds that reported success, in the order of their swaps.
  datatype World = World(now: int, store: Store, tasks: seq<Task>, won: seq<nat>)
  datatype Step = Tick(secs: nat) | Start(t: int, census: Census) | Read(i: nat, first: Option<Sample>)
                | Cas(i: nat, first: Option<Sample>)

  function Bucket(t: int): int {
    BucketOf(t, COARSE_INTERVAL_SECS)
  }

  function Bounded(c: Census): (r: Census) {
    c.(groups := Bound(c.groups, MAX_GROUPS))
  }

  // What a fold writes over the member it read.
  ghost function Folded(seen: Option<Sample>, task: Task): (s: Sample) {
    Sample(Bucket(task.t), if seen.None? then Bounded(task.census) else Merge(seen.value.census, task.census, MAX_GROUPS))
  }

  // A fold starts after its minute was accepted, so that minute is at most one interval ahead.
  predicate Legal(w: World, step: Step) {
    match step
    case Tick(_) => true
    case Start(t, _) => t <= w.now + SAMPLE_INTERVAL_SECS
    case Read(i, first) =>
      i < |w.tasks| && w.tasks[i].phase.Reading? && IsFirst(first, Live(w.store, w.now), Bucket(w.tasks[i].t))
    case Cas(i, first) =>
      i < |w.tasks| && w.tasks[i].phase.Holding? && IsFirst(first, Live(w.store, w.now), Bucket(w.tasks[i].t))
  }

  // A step that is not possible changes nothing.
  ghost function Do(w: World, step: Step): (r: World) {
    if !Legal(w, step) then w
    else
      match step
      case Tick(secs) => w.(now := w.now + secs)
      case Start(t, census) => w.(tasks := w.tasks + [Task(t, census, COARSE_CAS_ATTEMPTS, Reading)])
      case Read(i, first) => w.(tasks := w.tasks[i := w.tasks[i].(phase := Holding(first, |w.won|))])
      case Cas(i, first) => DoCas(w, i, first)
  }

  ghost function DoCas(w: World, i: nat, first: Option<Sample>): (r: World)
    requires i < |w.tasks| && w.tasks[i].phase.Holding?
  {
    var task := w.tasks[i];
    if first != task.phase.seen then w.(tasks := w.tasks[i := Lost(task)]) else Swap(w, i, Folded(first, task))
  }

  function Swap(w: World, i: nat, payload: Sample): (r: World)
    requires i < |w.tasks|
  {
    w.(store := Swapped(w.store, w.now, payload.t, payload, COARSE_RETENTION_SECS),
       tasks := w.tasks[i := w.tasks[i].(phase := Succeeded)], won := w.won + [i])
  }

  // A lost race is tried again, up to the number of attempts.
  function Lost(task: Task): (r: Task) {
    if task.tries <= 1 then task.(tries := 0, phase := GaveUp) else task.(tries := task.tries - 1, phase := Reading)
  }

  ghost function After(now: int, steps: seq<Step>): (w: World) {
    if steps == [] then World(now, Store(map[], now), [], [])
    else Do(After(now, steps[..|steps| - 1]), steps[|steps| - 1])
  }

  // The censuses of the successful folds of a bucket, in the order of their swaps.
  function Won(tasks: seq<Task>, won: seq<nat>, b: int): (cs: seq<Census>)
    requires forall i :: i in won ==> i < |tasks|
  {
    if won == [] then []
    else
      var front, last := won[..|won| - 1], won[|won| - 1];
      assert last in won && forall i :: i in front ==> i in won;
      Won(tasks, front, b) + if Bucket(tasks[last].t) == b then [tasks[last].census] else []
  }

  // The fold is a parameter of most of what follows: only its being one and the same function matters.
  type Folding = seq<Census> -> Census

  // The first census bounded, each later one folded in.
  ghost function FoldOf(cs: seq<Census>): (c: Census) {
    if cs == [] then Census(0, 0, []) else Fold([Bounded(cs[0])] + cs[1..], MAX_GROUPS)
  }

  // ---------- The invariant ----------

  ghost predicate WonOk(w: World) {
    && (forall i :: i in w.won <==> 0 <= i < |w.tasks| && w.tasks[i].phase.Succeeded?)
    && (forall x, y :: 0 <= x < y < |w.won| ==> w.won[x] != w.won[y])
  }

  predicate Indexed(tasks: seq<Task>, won: seq<nat>) {
    forall i :: i in won ==> i < |tasks|
  }

  predicate Started(tasks: seq<Task>, now: int) {
    forall i :: 0 <= i < |tasks| ==> tasks[i].t <= now + SAMPLE_INTERVAL_SECS
  }

  // Every member is the fold of its bucket's successes and lives long enough to be trimmed first.
  ghost predicate MemberOk(fold: Folding, s: Sample, st: Store, cs: seq<Census>) {
    s in st.members ==>
      st.members[s] == s.t && s.t + COARSE_RETENTION_SECS <= st.expires && cs != [] && s.census == fold(cs)
  }

  // Every bucket with a success has its member, while it is retained.
  ghost predicate BucketOk(fold: Folding, b: int, st: Store, cs: seq<Census>, now: int) {
    cs != [] ==> Sample(b, fold(cs)) in st.members || b + COARSE_RETENTION_SECS <= now
  }

  ghost predicate StoreOk(fold: Folding, st: Store, tasks: seq<Task>, won: seq<nat>, now: int)
    requires Indexed(tasks, won)
  {
    && (forall s: Sample :: MemberOk(fold, s, st, Won(tasks, won, s.t)))
    && (forall b :: BucketOk(fold, b, st, Won(tasks, won, b), now))
  }

  ghost predicate Inv(w: World) {
    && WonOk(w)
    && Started(w.tasks, w.now)
    && Indexed(w.tasks, w.won) && StoreOk(FoldOf, w.store, w.tasks, w.won, w.now)
  }

  // ---------- What the folds amount to ----------

  lemma {:induction false} WonFrame(a: seq<Task>, b: seq<Task>, won: seq<nat>, k: int)
    requires Indexed(a, won) && Indexed(b, won)
    requires forall i :: i in won ==> a[i].t == b[i].t && a[i].census == b[i].census
    ensures Won(a, won, k) == Won(b, won, k)
  {
    if won != [] {
      var front, last := won[..|won| - 1], won[|won| - 1];
      assert last in won && forall i :: i in front ==> i in won;
      WonFrame(a, b, front, k);
    }
  }

  lemma WonOneMore(tasks: seq<Task>, won: seq<nat>, i: nat, k: int)
    requires Indexed(tasks, won) && i < |tasks|
    ensures Won(tasks, won + [i], k) == Won(tasks, won, k) + if Bucket(tasks[i].t) == k then [tasks[i].census] else []
  {
    assert (won + [i])[..|won|] == won;
  }

  lemma {:induction false} WonIsStarted(tasks: seq<Task>, won: seq<nat>, k: int, now: int)
    requires Indexed(tasks, won) && Started(tasks, now) && Won(tasks, won, k) != []
    ensures k <= now + SAMPLE_INTERVAL_SECS
  {
    var front, last := won[..|won| - 1], won[|won| - 1];
    assert last in won && forall i :: i in front ==> i in won;
    if Bucket(tasks[last].t) != k { WonIsStarted(tasks, front, k, now); }
  }

  lemma FoldOfOne(c: Census)
    ensures FoldOf([c]) == Bounded(c)
  {
    assert [Bounded(c)] + [c][1..] == [Bounded(c)];
  }

  lemma FoldOneMore(line: seq<Census>, c: Census)
    requires line != []
    ensures Fold(line + [c], MAX_GROUPS) == Merge(Fold(line, MAX_GROUPS), c, MAX_GROUPS)
  {
    assert (line + [c])[..|line|] == line;
  }

  lemma HeadedOneMore<T>(head: T, cs: seq<T>, c: T)
    requires cs != []
    ensures [head] + (cs + [c])[1..] == ([head] + cs[1..]) + [c]
  {}

  lemma FoldOfMore(cs: seq<Census>, c: Census)
    requires cs != []
    ensures FoldOf(cs + [c]) == Merge(FoldOf(cs), c, MAX_GROUPS)
  {
    var head := Bounded(cs[0]);
    assert (cs + [c])[0] == cs[0];
    HeadedOneMore(head, cs, c);
    FoldOneMore([head] + cs[1..], c);
  }

  // ---------- The swap ----------

  // A bucket no live member stands for was never folded into, or is past its retention.
  lemma NothingScored(fold: Folding, st: Store, cs: seq<Census>, b: int, now: int)
    requires BucketOk(fold, b, st, cs, now) && cs != [] && MemberOk(fold, Sample(b, fold(cs)), st, cs)
    ensures Scored(Live(st, now), b) || b + COARSE_RETENTION_SECS <= now
  {
    var s := Sample(b, fold(cs));
    if s in st.members && now < st.expires { assert Live(st, now)[s] == b; }
  }

  // The payload is the fold of the bucket's successes with this one, unless it is trimmed at once.
  lemma PayloadIsTheFold(st: Store, cs: seq<Census>, now: int, task: Task, first: Option<Sample>)
    requires IsFirst(first, Live(st, now), Bucket(task.t))
    requires BucketOk(FoldOf, Bucket(task.t), st, cs, now)
    requires forall s: Sample :: s.t == Bucket(task.t) ==> MemberOk(FoldOf, s, st, cs)
    requires forall s :: s in st.members ==> st.members[s] == s.t
    ensures Folded(first, task).census == FoldOf(cs + [task.census]) ||
            Bucket(task.t) + COARSE_RETENTION_SECS <= now
  {
    var b, c := Bucket(task.t), task.census;
    if first.None? {
      if cs == [] {
        assert cs + [c] == [c];
        FoldOfOne(c);
      } else {
        NothingScored(FoldOf, st, cs, b, now);
      }
    } else {
      var e := first.value;
      assert e.t == b && MemberOk(FoldOf, e, st, cs);
      FoldOfMore(cs, c);
    }
  }

  lemma SwapMember(fold: Folding, st: Store, now: int, b: int, payload: Sample, s: Sample,
                   was: seq<Census>, cs: seq<Census>)
    requires payload.t == b && b <= now + SAMPLE_INTERVAL_SECS && (was != [] ==> s.t <= now + SAMPLE_INTERVAL_SECS)
    requires MemberOk(fold, s, st, was)
    requires if s.t == b then cs != [] && (payload.census == fold(cs) || b + COARSE_RETENTION_SECS <= now) else cs == was
    ensures MemberOk(fold, s, Swapped(st, now, b, payload, COARSE_RETENTION_SECS), cs)
  {}

  lemma SwapBucket(fold: Folding, st: Store, now: int, b: int, payload: Sample, k: int, was: seq<Census>, cs: seq<Census>)
    requires payload.t == b && BucketOk(fold, k, st, was, now)
    requires was != [] ==> MemberOk(fold, Sample(k, fold(was)), st, was)
    requires if k == b then cs != [] && (payload.census == fold(cs) || b + COARSE_RETENTION_SECS <= now) else cs == was
    ensures BucketOk(fold, k, Swapped(st, now, b, payload, COARSE_RETENTION_SECS), cs, now)
  {
    if k != b && was != [] {
      var s := Sample(k, fold(was));
      assert s != payload;
    }
  }

  // What the swap of task `i` leaves, for one member and for one bucket.
  lemma SwapKeepsMember(fold: Folding, st: Store, tasks: seq<Task>, won: seq<nat>, now: int, i: nat,
                        payload: Sample, s: Sample)
    requires Indexed(tasks, won) && Started(tasks, now) && i < |tasks| && payload.t == Bucket(tasks[i].t)
    requires MemberOk(fold, s, st, Won(tasks, won, s.t))
    requires payload.census == fold(Won(tasks, won, payload.t) + [tasks[i].census]) ||
             payload.t + COARSE_RETENTION_SECS <= now
    ensures MemberOk(fold, s, Swapped(st, now, payload.t, payload, COARSE_RETENTION_SECS), Won(tasks, won + [i], s.t))
  {
    WonOneMore(tasks, won, i, s.t);
    if Won(tasks, won, s.t) != [] { WonIsStarted(tasks, won, s.t, now); }
    SwapMember(fold, st, now, payload.t, payload, s, Won(tasks, won, s.t), Won(tasks, won + [i], s.t));
  }

  lemma SwapKeepsBucket(fold: Folding, st: Store, tasks: seq<Task>, won: seq<nat>, now: int, i: nat,
                        payload: Sample, k: int)
    requires Indexed(tasks, won) && i < |tasks| && payload.t == Bucket(tasks[i].t)
    requires StoreOk(fold, st, tasks, won, now)
    requires payload.census == fold(Won(tasks, won, payload.t) + [tasks[i].census]) ||
             payload.t + COARSE_RETENTION_SECS <= now
    ensures BucketOk(fold, k, Swapped(st, now, payload.t, payload, COARSE_RETENTION_SECS), Won(tasks, won + [i], k), now)
  {
    WonOneMore(tasks, won, i, k);
    assert BucketOk(fold, k, st, Won(tasks, won, k), now);
    SwapBucket(fold, st, now, payload.t, payload, k, Won(tasks, won, k), Won(tasks, won + [i], k));
  }

  lemma SwapKeepsStore(fold: Folding, st: Store, tasks: seq<Task>, won: seq<nat>, now: int, i: nat, payload: Sample)
    requires Indexed(tasks, won) && Started(tasks, now) && StoreOk(fold, st, tasks, won, now) && i < |tasks|
    requires payload.t == Bucket(tasks[i].t)
    requires payload.census == fold(Won(tasks, won, payload.t) + [tasks[i].census]) ||
             payload.t + COARSE_RETENTION_SECS <= now
    ensures StoreOk(fold, Swapped(st, now, payload.t, payload, COARSE_RETENTION_SECS), tasks, won + [i], now)
  {
    var after := Swapped(st, now, payload.t, payload, COARSE_RETENTION_SECS);
    forall s: Sample ensures MemberOk(fold, s, after, Won(tasks, won + [i], s.t)) {
      SwapKeepsMember(fold, st, tasks, won, now, i, payload, s);
    }
    forall k ensures BucketOk(fold, k, after, Won(tasks, won + [i], k), now) {
      SwapKeepsBucket(fold, st, tasks, won, now, i, payload, k);
    }
  }

  lemma StoreFrame(fold: Folding, st: Store, a: seq<Task>, b: seq<Task>, won: seq<nat>, now: int)
    requires Indexed(a, won) && Indexed(b, won) && StoreOk(fold, st, a, won, now)
    requires forall i :: i in won ==> a[i].t == b[i].t && a[i].census == b[i].census
    ensures StoreOk(fold, st, b, won, now)
  {
    forall k ensures Won(a, won, k) == Won(b, won, k) { WonFrame(a, b, won, k); }
    forall s: Sample ensures MemberOk(fold, s, st, Won(b, won, s.t)) { assert MemberOk(fold, s, st, Won(a, won, s.t)); }
    forall k ensures BucketOk(fold, k, st, Won(b, won, k), now) { assert BucketOk(fold, k, st, Won(a, won, k), now); }
  }

  lemma LaterIsOk(fold: Folding, st: Store, tasks: seq<Task>, won: seq<nat>, was: int, now: int)
    requires Indexed(tasks, won) && StoreOk(fold, st, tasks, won, was) && was <= now
    ensures StoreOk(fold, st, tasks, won, now)
  {
    forall k ensures BucketOk(fold, k, st, Won(tasks, won, k), now) {
      assert BucketOk(fold, k, st, Won(tasks, won, k), was);
    }
  }

  lemma FoldedIsTheFold(w: World, i: nat, first: Option<Sample>)
    requires Inv(w) && Legal(w, Cas(i, first))
    ensures var b := Bucket(w.tasks[i].t);
      Folded(first, w.tasks[i]).census == FoldOf(Won(w.tasks, w.won, b) + [w.tasks[i].census]) ||
      b + COARSE_RETENTION_SECS <= w.now
  {
    forall s | s in w.store.members ensures w.store.members[s] == s.t {
      assert MemberOk(FoldOf, s, w.store, Won(w.tasks, w.won, s.t));
    }
    PayloadIsTheFold(w.store, Won(w.tasks, w.won, Bucket(w.tasks[i].t)), w.now, w.tasks[i], first);
  }

  lemma LostKeepsInv(w: World, i: nat)
    requires Inv(w) && i < |w.tasks| && w.tasks[i].phase.Holding?
    ensures Inv(w.(tasks := w.tasks[i := Lost(w.tasks[i])]))
  {
    StoreFrame(FoldOf, w.store, w.tasks, w.tasks[i := Lost(w.tasks[i])], w.won, w.now);
  }

  lemma WonKeepsInv(w: World, i: nat, store: Store)
    requires Inv(w) && i < |w.tasks| && w.tasks[i].phase.Holding?
    requires Indexed(w.tasks, w.won + [i]) && StoreOk(FoldOf, store, w.tasks, w.won + [i], w.now)
    ensures Inv(w.(store := store, tasks := w.tasks[i := w.tasks[i].(phase := Succeeded)], won := w.won + [i]))
  {
    assert i !in w.won;
    StoreFrame(FoldOf, store, w.tasks, w.tasks[i := w.tasks[i].(phase := Succeeded)], w.won + [i], w.now);
  }

  lemma SwapKeepsInv(w: World, i: nat, payload: Sample)
    requires Inv(w) && i < |w.tasks| && w.tasks[i].phase.Holding? && payload.t == Bucket(w.tasks[i].t)
    requires payload.census == FoldOf(Won(w.tasks, w.won, payload.t) + [w.tasks[i].census]) ||
             payload.t + COARSE_RETENTION_SECS <= w.now
    ensures Inv(Swap(w, i, payload))
  {
    SwapKeepsStore(FoldOf, w.store, w.tasks, w.won, w.now, i, payload);
    WonKeepsInv(w, i, Swapped(w.store, w.now, payload.t, payload, COARSE_RETENTION_SECS));
  }

  lemma CasKeepsInv(w: World, i: nat, first: Option<Sample>)
    requires Inv(w) && Legal(w, Cas(i, first))
    ensures Inv(DoCas(w, i, first))
  {
    if first != w.tasks[i].phase.seen {
      LostKeepsInv(w, i);
    } else {
      FoldedIsTheFold(w, i, first);
      SwapKeepsInv(w, i, Folded(first, w.tasks[i]));
    }
  }

  lemma DoKeepsInv(w: World, step: Step)
    requires Inv(w)
    ensures Inv(Do(w, step))
  {
    if Legal(w, step) {
      match step
      case Tick(secs) => LaterIsOk(FoldOf, w.store, w.tasks, w.won, w.now, w.now + secs);
      case Start(_, _) => StoreFrame(FoldOf, w.store, w.tasks, Do(w, step).tasks, w.won, w.now);
      case Read(_, _) => StoreFrame(FoldOf, w.store, w.tasks, Do(w, step).tasks, w.won, w.now);
      case Cas(i, first) => CasKeepsInv(w, i, first);
    }
  }

  lemma {:induction false} RunKeepsInv(now: int, steps: seq<Step>)
    ensures Inv(After(now, steps))
  {
    if steps != [] {
      RunKeepsInv(now, steps[..|steps| - 1]);
      DoKeepsInv(After(now, steps[..|steps| - 1]), steps[|steps| - 1]);
    }
  }

  // ---------- The theorems ----------

  /** In every run a bucket holds at most one member. */
  lemma AtMostOneMember(now: int, steps: seq<Step>, s: Sample, r: Sample)
    requires var m := After(now, steps).store.members; s in m && r in m && m[s] == m[r]
    ensures s == r
  {
    var w := After(now, steps);
    RunKeepsInv(now, steps);
    assert MemberOk(FoldOf, s, w.store, Won(w.tasks, w.won, s.t)) && MemberOk(FoldOf, r, w.store, Won(w.tasks, w.won, r.t));
  }

  lemma SuccessesAreListedOnce(now: int, steps: seq<Step>)
    ensures var w := After(now, steps);
      && (forall i :: i in w.won <==> 0 <= i < |w.tasks| && w.tasks[i].phase.Succeeded?)
      && (forall x, y :: 0 <= x < y < |w.won| ==> w.won[x] != w.won[y])
  {
    RunKeepsInv(now, steps);
  }

  lemma PeakOfHead(head: Census, cs: seq<Census>)
    requires cs != [] && head.devices == cs[0].devices && head.users == cs[0].users
    ensures var p, q := PeakAll([head] + cs[1..]), PeakAll(cs); p.devices == q.devices && p.users == q.users
  {
    var a := [head] + cs[1..];
    var p, q := PeakAll(a), PeakAll(cs);
    TotalsAreLeast(p.devices, p.users, a);
    TotalsAreLeast(q.devices, q.users, cs);
    forall c | c in a ensures c.devices <= q.devices && c.users <= q.users {
      assert cs[0] in cs && (c == head || c in cs);
    }
    forall c | c in cs ensures c.devices <= p.devices && c.users <= p.users {
      assert a[0] in a && (c == cs[0] || c in cs[1..]);
    }
    TotalsAreLeast(q.devices, q.users, a);
    TotalsAreLeast(p.devices, p.users, cs);
  }

  lemma FoldOfTotals(cs: seq<Census>)
    requires cs != []
    ensures FoldOf(cs).devices == PeakAll(cs).devices && FoldOf(cs).users == PeakAll(cs).users
  {
    FoldTotals([Bounded(cs[0])] + cs[1..], MAX_GROUPS);
    PeakOfHead(Bounded(cs[0]), cs);
  }

  /** In every run, while a bucket is retained, it has a live member exactly when some fold of it
      reported success, and the member's totals are the maxima over all the folds that did. */
  lemma TotalsAreTheMaximum(now: int, steps: seq<Step>, b: int)
    requires After(now, steps).now < b + 30 * 86400
    ensures var w := After(now, steps);
      && Indexed(w.tasks, w.won)
      && (Scored(Live(w.store, w.now), b) <==> Won(w.tasks, w.won, b) != [])
      && forall s :: s in Live(w.store, w.now) && s.t == b ==>
           var p := PeakAll(Won(w.tasks, w.won, b)); s.census.devices == p.devices && s.census.users == p.users
  {
    var w := After(now, steps);
    RunKeepsInv(now, steps);
    var cs := Won(w.tasks, w.won, b);
    assert BucketOk(FoldOf, b, w.store, cs, w.now);
    forall s | s in Live(w.store, w.now)
      ensures w.store.members[s] == s.t && MemberOk(FoldOf, s, w.store, Won(w.tasks, w.won, s.t))
    {
      assert MemberOk(FoldOf, s, w.store, Won(w.tasks, w.won, s.t));
    }
    if cs != [] {
      var s := Sample(b, FoldOf(cs));
      assert MemberOk(FoldOf, s, w.store, cs);
      assert Live(w.store, w.now)[s] == b;
      FoldOfTotals(cs);
    }
  }

  lemma BoundedStands(c: Census)
    requires Distinct(c.groups)
    ensures StandsFor(Cells(Bounded(c).groups), Cells(c.groups), MAX_GROUPS)
    ensures |Cells(Bounded(c).groups)| <= MAX_GROUPS
  {
    BoundOfCells(c.groups, MAX_GROUPS);
    CutStandsFor(Cells(c.groups), MAX_GROUPS);
    CutSize(Cells(c.groups), MAX_GROUPS);
  }

  lemma StandsOneMore(line: seq<Census>, cs: seq<Census>, c: Census)
    requires StandsFor(PeakAll(line).cells, PeakAll(cs).cells, MAX_GROUPS)
    ensures StandsFor(PeakAll(line + [c]).cells, PeakAll(cs + [c]).cells, MAX_GROUPS)
  {
    PeakOneMore(line, c);
    PeakOneMore(cs, c);
    StandsForItself(Cells(c.groups), MAX_GROUPS);
    MaxStandsForMax(PeakAll(line).cells, PeakAll(cs).cells, Cells(c.groups), Cells(c.groups), MAX_GROUPS);
  }

  lemma HeadAloneStands(head: Census, c: Census)
    requires StandsFor(Cells(head.groups), Cells(c.groups), MAX_GROUPS)
    ensures StandsFor(PeakAll([head]).cells, PeakAll([c]).cells, MAX_GROUPS)
  {
    PeakOfOne(head);
    PeakOfOne(c);
  }

  // A first census that stands for the given one leaves a peak that stands for the given peak.
  lemma {:induction false} HeadStands(head: Census, cs: seq<Census>)
    requires cs != [] && StandsFor(Cells(head.groups), Cells(cs[0].groups), MAX_GROUPS)
    ensures StandsFor(PeakAll([head] + cs[1..]).cells, PeakAll(cs).cells, MAX_GROUPS)
  {
    if |cs| == 1 {
      HeadAloneStands(head, cs[0]);
      assert cs == [cs[0]] && [head] + cs[1..] == [head];
    } else {
      var front, last := cs[..|cs| - 1], cs[|cs| - 1];
      HeadStands(head, front);
      assert cs == front + [last];
      HeadedOneMore(head, front, last);
      StandsOneMore([head] + front[1..], front, last);
    }
  }

  lemma FoldWithinTheCap(line: seq<Census>)
    requires line != [] && |Cells(line[0].groups)| <= MAX_GROUPS
    ensures |Cells(Fold(line, MAX_GROUPS).groups)| <= MAX_GROUPS
  {
    if |line| > 1 { FoldFits(Fold(line[..|line| - 1], MAX_GROUPS), line[|line| - 1], MAX_GROUPS); }
  }

  lemma FoldOfTops(cs: seq<Census>)
    requires cs != [] && Distinct(cs[0].groups)
    ensures Tops(Cells(FoldOf(cs).groups), PeakAll(cs).cells, MAX_GROUPS)
  {
    var line := [Bounded(cs[0])] + cs[1..];
    BoundedStands(cs[0]);
    HeadStands(Bounded(cs[0]), cs);
    FoldCells(line, MAX_GROUPS);
    StandsForChains(Cells(FoldOf(cs).groups), PeakAll(line).cells, PeakAll(cs).cells, MAX_GROUPS);
    FoldWithinTheCap(line);
    StandingWithinTheCap(Cells(FoldOf(cs).groups), PeakAll(cs).cells, MAX_GROUPS);
  }

  /** The cells of a member are the maxima over the minutes folded into it, which have one group per cell:
      all of them while their union fits the cap, and past it the leaders of the union with its device
      counts, beside the residue. Order and races leave no other trace. */
  lemma CellsAreTheMaximum(now: int, steps: seq<Step>, s: Sample)
    requires var w := After(now, steps);
      && s in w.store.members && Indexed(w.tasks, w.won)
      && forall c :: c in Won(w.tasks, w.won, s.t) ==> Distinct(c.groups)
    ensures var w := After(now, steps);
      var peak := PeakAll(Won(w.tasks, w.won, s.t));
      && Tops(Cells(s.census.groups), peak.cells, MAX_GROUPS)
      && (Fits(peak.cells, MAX_GROUPS) ==> PeakOf(s.census) == peak)
      && |Cells(s.census.groups)| <= 64
  {
    var w := After(now, steps);
    var cs := Won(w.tasks, w.won, s.t);
    RunKeepsInv(now, steps);
    assert MemberOk(FoldOf, s, w.store, cs);
    assert cs[0] in cs;
    FoldOfTops(cs);
    FoldOfTotals(cs);
  }

  lemma BoundedWeighs(c: Census)
    requires Distinct(c.groups)
    ensures Weight(Bounded(c)) == Weight(c) == Sum(c.groups)
  {
    BoundLaws(c.groups, MAX_GROUPS);
    SumIsCellSum(c.groups);
    SumIsCellSum(Bounded(c).groups);
  }

  lemma FoldOfWeighs(cs: seq<Census>, c: Census)
    requires c in cs && Distinct(cs[0].groups)
    ensures Below(Weight(c), Weight(FoldOf(cs)))
  {
    var line := [Bounded(cs[0])] + cs[1..];
    BoundedWeighs(cs[0]);
    if c == cs[0] {
      assert line[0] in line;
      FoldWeighs(line, MAX_GROUPS, Bounded(cs[0]));
    } else {
      assert c in cs[1..];
      FoldWeighs(line, MAX_GROUPS, c);
    }
  }

  /** Whatever the cap, the sums over the cells of a member are at least those of every minute folded
      into it, the minutes having one group per cell: the cap loses names, never counts. */
  lemma SumsAreUpperBounds(now: int, steps: seq<Step>, s: Sample, c: Census)
    requires var w := After(now, steps);
      && s in w.store.members && Indexed(w.tasks, w.won) && c in Won(w.tasks, w.won, s.t)
      && forall x :: x in Won(w.tasks, w.won, s.t) ==> Distinct(x.groups)
    ensures Below(Sum(c.groups), Weight(s.census))
  {
    var w := After(now, steps);
    var cs := Won(w.tasks, w.won, s.t);
    RunKeepsInv(now, steps);
    assert MemberOk(FoldOf, s, w.store, cs);
    assert cs[0] in cs;
    FoldOfWeighs(cs, c);
    SumIsCellSum(c.groups);
  }

  // ---------- Who wins ----------

  /** A swap that finds what its caller read replaces it at that score, drops what is past the retention
      and renews the expiry; every other member stays. */
  lemma WhatASwapLeaves(st: Store, now: int, score: int, payload: Sample, keep: int, s: Sample)
    ensures var t := Swapped(st, now, score, payload, keep);
      && t.expires == now + keep + 3600
      && (payload in t.members <==> score > now - keep) && (payload in t.members ==> t.members[payload] == score)
      && (s != payload ==>
            (s in t.members <==>
               now < st.expires && s in st.members && st.members[s] != score && st.members[s] > now - keep))
      && (s != payload && s in t.members ==> t.members[s] == st.members[s])
  {}

  /** The clock runs on, and a fold of a minute that was accepted begins at its first attempt of five,
      reading. */
  lemma AFoldBegins(now: int, steps: seq<Step>, secs: nat, t: int, census: Census)
    requires t <= After(now, steps).now + 60
    ensures var w := After(now, steps);
      && After(now, steps + [Tick(secs)]) == w.(now := w.now + secs)
      && After(now, steps + [Start(t, census)]) == w.(tasks := w.tasks + [Task(t, census, 5, Reading)])
  {
    AfterOneMore(now, steps, Tick(secs));
    AfterOneMore(now, steps, Start(t, census));
  }

  /** A fold that nobody comes in between succeeds: it reads, it swaps, and its minute is the last of the
      successes of its bucket. */
  lemma AFoldLeftAloneSucceeds(now: int, steps: seq<Step>, i: nat, first: Option<Sample>)
    requires Legal(After(now, steps), Read(i, first))
    ensures var w, t := After(now, steps), After(now, steps + [Read(i, first), Cas(i, first)]);
      && i < |t.tasks| && t.tasks[i] == w.tasks[i].(phase := Succeeded) && t.won == w.won + [i]
      && Indexed(w.tasks, w.won) && Indexed(t.tasks, t.won)
      && Won(t.tasks, t.won, Bucket(w.tasks[i].t)) == Won(w.tasks, w.won, Bucket(w.tasks[i].t)) + [w.tasks[i].census]
      && (forall j :: 0 <= j < |w.tasks| && j != i ==> j < |t.tasks| && t.tasks[j] == w.tasks[j])
  {
    var read := steps + [Read(i, first)];
    AfterOneMore(now, steps, Read(i, first));
    AfterOneMore(now, read, Cas(i, first));
    assert steps + [Read(i, first), Cas(i, first)] == read + [Cas(i, first)];
    RunKeepsInv(now, steps);
    ReadThenCas(After(now, steps), i, first);
    WonByOne(After(now, steps).tasks, After(now, steps).won, i);
  }

  lemma AfterOneMore(now: int, steps: seq<Step>, step: Step)
    ensures After(now, steps + [step]) == Do(After(now, steps), step)
  {
    assert (steps + [step])[..|steps|] == steps;
  }

  lemma WonByOne(tasks: seq<Task>, won: seq<nat>, i: nat)
    requires Indexed(tasks, won) && i < |tasks|
    ensures var after := tasks[i := tasks[i].(phase := Succeeded)];
      && Indexed(after, won + [i])
      && Won(after, won + [i], Bucket(tasks[i].t)) == Won(tasks, won, Bucket(tasks[i].t)) + [tasks[i].census]
  {
    var after := tasks[i := tasks[i].(phase := Succeeded)];
    WonFrame(tasks, after, won, Bucket(tasks[i].t));
    WonOneMore(after, won, i, Bucket(tasks[i].t));
  }

  lemma ReadThenCas(w: World, i: nat, first: Option<Sample>)
    requires Legal(w, Read(i, first))
    ensures var t := Do(Do(w, Read(i, first)), Cas(i, first));
      t.tasks == w.tasks[i := w.tasks[i].(phase := Succeeded)] && t.won == w.won + [i]
  {
    var read := Do(w, Read(i, first));
    assert Legal(read, Cas(i, first)) && read.tasks[i].phase == Holding(first, |w.won|);
  }

  // ---------- Who loses a race ----------

  // The member a read of bucket `b` finds: the fold of the successes up to then, or nothing where there
  // was none or the bucket is past its retention.
  ghost predicate SeenOk(fold: Folding, seen: Option<Sample>, cs: seq<Census>, b: int, now: int) {
    if seen.None? then cs == [] || b + COARSE_RETENTION_SECS <= now
    else cs != [] && seen.value == Sample(b, fold(cs))
  }

  lemma FirstIsTheFold(w: World, b: int, first: Option<Sample>)
    requires Inv(w) && IsFirst(first, Live(w.store, w.now), b)
    ensures SeenOk(FoldOf, first, Won(w.tasks, w.won, b), b, w.now)
  {
    var cs := Won(w.tasks, w.won, b);
    if first.None? {
      if cs != [] {
        assert BucketOk(FoldOf, b, w.store, cs, w.now) && MemberOk(FoldOf, Sample(b, FoldOf(cs)), w.store, cs);
        NothingScored(FoldOf, w.store, cs, b, w.now);
      }
    } else {
      assert MemberOk(FoldOf, first.value, w.store, Won(w.tasks, w.won, first.value.t));
    }
  }

  // What a task holds is what the successes before its read amount to.
  ghost predicate HeldOk(fold: Folding, w: World, i: nat)
    requires i < |w.tasks| && Indexed(w.tasks, w.won)
  {
    var task := w.tasks[i];
    task.phase.Holding? ==>
      && task.phase.since <= |w.won| && Indexed(w.tasks, w.won[..task.phase.since])
      && SeenOk(fold, task.phase.seen, Won(w.tasks, w.won[..task.phase.since], Bucket(task.t)), Bucket(task.t), w.now)
  }

  // A task the step leaves alone still holds the same.
  lemma HeldFrame(fold: Folding, w: World, t: World, i: nat)
    requires Indexed(w.tasks, w.won) && Indexed(t.tasks, t.won) && i < |w.tasks| <= |t.tasks|
    requires HeldOk(fold, w, i) && t.tasks[i] == w.tasks[i] && w.won <= t.won && w.now <= t.now
    requires forall j :: 0 <= j < |w.tasks| ==> t.tasks[j].t == w.tasks[j].t && t.tasks[j].census == w.tasks[j].census
    ensures HeldOk(fold, t, i)
  {
    if w.tasks[i].phase.Holding? {
      var won := w.won[..w.tasks[i].phase.since];
      assert t.won[..|won|] == won;
      assert forall j :: j in won ==> j in w.won;
      WonFrame(w.tasks, t.tasks, won, Bucket(w.tasks[i].t));
    }
  }

  lemma StepShape(w: World, step: Step)
    requires Inv(w)
    ensures var t := Do(w, step);
      && |w.tasks| <= |t.tasks| && w.won <= t.won && w.now <= t.now
      && (forall j :: 0 <= j < |w.tasks| ==> t.tasks[j].t == w.tasks[j].t && t.tasks[j].census == w.tasks[j].census)
      && (forall j :: 0 <= j < |w.tasks| && t.tasks[j].phase.Holding? && !(step.Read? && step.i == j) ==>
            t.tasks[j] == w.tasks[j])
      && (forall j :: |w.tasks| <= j < |t.tasks| ==> !t.tasks[j].phase.Holding?)
  {}

  lemma ReadHolds(fold: Folding, w: World, i: nat, first: Option<Sample>)
    requires Indexed(w.tasks, w.won) && Legal(w, Read(i, first))
    requires SeenOk(fold, first, Won(w.tasks, w.won, Bucket(w.tasks[i].t)), Bucket(w.tasks[i].t), w.now)
    ensures var t := Do(w, Read(i, first)); Indexed(t.tasks, t.won) && HeldOk(fold, t, i)
  {
    var t := Do(w, Read(i, first));
    assert t.won[..|w.won|] == w.won;
    WonFrame(w.tasks, t.tasks, w.won, Bucket(w.tasks[i].t));
  }

  lemma {:induction false} RunKeepsHeld(now: int, steps: seq<Step>, i: nat)
    requires i < |After(now, steps).tasks|
    ensures Inv(After(now, steps)) && HeldOk(FoldOf, After(now, steps), i)
  {
    RunKeepsInv(now, steps);
    var front, step := steps[..|steps| - 1], steps[|steps| - 1];
    var w := After(now, front);
    RunKeepsInv(now, front);
    StepShape(w, step);
    if step.Read? && step.i == i && Legal(w, step) {
      FirstIsTheFold(w, Bucket(w.tasks[i].t), step.first);
      ReadHolds(FoldOf, w, i, step.first);
    } else if i < |w.tasks| && After(now, steps).tasks[i].phase.Holding? {
      RunKeepsHeld(now, front, i);
      HeldFrame(FoldOf, w, After(now, steps), i);
    }
  }

  // Some fold of bucket `b` succeeded after the first `since` successes.
  ghost predicate WonLater(tasks: seq<Task>, won: seq<nat>, since: nat, b: int) {
    exists x :: since <= x < |won| && won[x] < |tasks| && Bucket(tasks[won[x]].t) == b
  }

  lemma {:induction false} WonSince(tasks: seq<Task>, won: seq<nat>, since: nat, b: int)
    requires Indexed(tasks, won) && since <= |won| && Indexed(tasks, won[..since]) && !WonLater(tasks, won, since, b)
    ensures Won(tasks, won, b) == Won(tasks, won[..since], b)
    decreases |won|
  {
    if since == |won| {
      assert won[..since] == won;
    } else {
      var n := |won| - 1;
      var front := won[..n];
      assert front[..since] == won[..since] && (forall j :: j in front ==> j in won) && won[n] in won;
      assert Bucket(tasks[won[n]].t) != b;
      assert forall x :: since <= x < n ==> front[x] == won[x];
      WonSince(tasks, front, since, b);
    }
  }

  lemma {:induction false} WonHas(tasks: seq<Task>, won: seq<nat>, since: nat, b: int)
    requires Indexed(tasks, won) && WonLater(tasks, won, since, b)
    ensures Won(tasks, won, b) != []
  {
    var x :| since <= x < |won| && won[x] < |tasks| && Bucket(tasks[won[x]].t) == b;
    var n := |won| - 1;
    var front := won[..n];
    assert (forall j :: j in front ==> j in won) && won[n] in won;
    if x < n {
      assert front[x] == won[x];
      WonHas(tasks, front, since, b);
    }
  }

  // With no success of the bucket in between, the swap finds what the read found.
  lemma UnbeatenSeesTheSame(fold: Folding, w: World, i: nat, first: Option<Sample>)
    requires Indexed(w.tasks, w.won) && i < |w.tasks| && w.tasks[i].phase.Holding? && HeldOk(fold, w, i)
    requires w.now < Bucket(w.tasks[i].t) + COARSE_RETENTION_SECS
    requires SeenOk(fold, first, Won(w.tasks, w.won, Bucket(w.tasks[i].t)), Bucket(w.tasks[i].t), w.now)
    ensures first == w.tasks[i].phase.seen || WonLater(w.tasks, w.won, w.tasks[i].phase.since, Bucket(w.tasks[i].t))
  {
    var b, since := Bucket(w.tasks[i].t), w.tasks[i].phase.since;
    if !WonLater(w.tasks, w.won, since, b) { WonSince(w.tasks, w.won, since, b); }
  }

  // Another fold of its bucket succeeded after the read of task `i`.
  ghost predicate AnotherWon(w: World, i: nat)
    requires i < |w.tasks| && w.tasks[i].phase.Holding?
  {
    i !in w.won && WonLater(w.tasks, w.won, w.tasks[i].phase.since, Bucket(w.tasks[i].t))
  }

  // What a lost race of task `i` comes to, and what its next read may find.
  ghost predicate LostTo(fold: Folding, w: World, t: World, i: nat, next: Option<Sample>)
    requires i < |w.tasks| && w.tasks[i].phase.Holding?
  {
    && t.store == w.store && t.won == w.won && i < |t.tasks| && !t.tasks[i].phase.Succeeded?
    && Indexed(t.tasks, t.won)
    && (w.now < Bucket(w.tasks[i].t) + COARSE_RETENTION_SECS ==>
          AnotherWon(w, i) && (Legal(t, Read(i, next)) ==> ReadsTheFold(fold, t, Bucket(w.tasks[i].t), next)))
  }

  ghost predicate ReadsTheFold(fold: Folding, t: World, b: int, next: Option<Sample>)
    requires Indexed(t.tasks, t.won)
  {
    var cs := Won(t.tasks, t.won, b);
    cs != [] && next == Some(Sample(b, fold(cs)))
  }

  lemma NextReadsWhatWon(fold: Folding, w: World, t: World, b: int, since: nat, next: Option<Sample>)
    requires Indexed(w.tasks, w.won) && t.won == w.won && t.now == w.now && |t.tasks| == |w.tasks|
    requires forall j :: 0 <= j < |w.tasks| ==> t.tasks[j].t == w.tasks[j].t && t.tasks[j].census == w.tasks[j].census
    requires WonLater(w.tasks, w.won, since, b) && w.now < b + COARSE_RETENTION_SECS
    requires Indexed(t.tasks, t.won) && SeenOk(fold, next, Won(t.tasks, t.won, b), b, t.now)
    ensures ReadsTheFold(fold, t, b, next)
  {
    WonFrame(w.tasks, t.tasks, w.won, b);
    WonHas(w.tasks, w.won, since, b);
  }

  lemma LostStep(fold: Folding, w: World, t: World, i: nat, first: Option<Sample>, next: Option<Sample>)
    requires Indexed(w.tasks, w.won) && i < |w.tasks| && w.tasks[i].phase.Holding? && i !in w.won
    requires HeldOk(fold, w, i) && first != w.tasks[i].phase.seen && t == w.(tasks := w.tasks[i := Lost(w.tasks[i])])
    requires var b := Bucket(w.tasks[i].t); SeenOk(fold, first, Won(w.tasks, w.won, b), b, w.now)
    requires Indexed(t.tasks, t.won)
    requires var b := Bucket(w.tasks[i].t);
      Legal(t, Read(i, next)) ==> SeenOk(fold, next, Won(t.tasks, t.won, b), b, t.now)
    ensures LostTo(fold, w, t, i, next)
  {
    var b := Bucket(w.tasks[i].t);
    if w.now < b + COARSE_RETENTION_SECS {
      UnbeatenSeesTheSame(fold, w, i, first);
      if Legal(t, Read(i, next)) { NextReadsWhatWon(fold, w, t, b, w.tasks[i].phase.since, next); }
    }
  }

  // Whatever a read of the store finds is the fold of the successes.
  ghost predicate StoreTells(fold: Folding, w: World)
    requires Indexed(w.tasks, w.won)
  {
    forall b, first :: IsFirst(first, Live(w.store, w.now), b) ==>
      SeenOk(fold, first, Won(w.tasks, w.won, b), b, w.now)
  }

  lemma InvTells(w: World)
    requires Inv(w)
    ensures StoreTells(FoldOf, w)
  {
    forall b, first | IsFirst(first, Live(w.store, w.now), b)
      ensures SeenOk(FoldOf, first, Won(w.tasks, w.won, b), b, w.now)
    {
      FirstIsTheFold(w, b, first);
    }
  }

  lemma LostFrom(fold: Folding, w: World, t: World, i: nat, first: Option<Sample>, next: Option<Sample>)
    requires Indexed(w.tasks, w.won) && Legal(w, Cas(i, first)) && i !in w.won && HeldOk(fold, w, i)
    requires first != w.tasks[i].phase.seen && t == w.(tasks := w.tasks[i := Lost(w.tasks[i])])
    requires Indexed(t.tasks, t.won) && StoreTells(fold, w) && StoreTells(fold, t)
    ensures LostTo(fold, w, t, i, next)
  {
    LostStep(fold, w, t, i, first, next);
  }

  lemma LostCas(w: World, i: nat, first: Option<Sample>, next: Option<Sample>)
    requires Inv(w) && Legal(w, Cas(i, first)) && HeldOk(FoldOf, w, i) && first != w.tasks[i].phase.seen
    ensures LostTo(FoldOf, w, w.(tasks := w.tasks[i := Lost(w.tasks[i])]), i, next)
  {
    var t := w.(tasks := w.tasks[i := Lost(w.tasks[i])]);
    LostKeepsInv(w, i);
    InvTells(w);
    InvTells(t);
    assert i !in w.won;
    LostFrom(FoldOf, w, t, i, first, next);
  }

  /** A lost compare-and-swap writes nothing and reports no success; it was lost to a fold of the same
      bucket that succeeded after the loser read it, unless the bucket is past its retention; and the
      next attempt reads what won. */
  lemma ALostRaceWasWon(now: int, steps: seq<Step>, i: nat, first: Option<Sample>, next: Option<Sample>)
    requires Legal(After(now, steps), Cas(i, first)) && first != After(now, steps).tasks[i].phase.seen
    ensures LostTo(FoldOf, After(now, steps), After(now, steps + [Cas(i, first)]), i, next)
  {
    assert (steps + [Cas(i, first)])[..|steps|] == steps;
    RunKeepsHeld(now, steps, i);
    LostCas(After(now, steps), i, first, next);
  }

  // ---------- Giving up ----------

  // Task `i` loses its race at this step.
  ghost predicate LosesNow(w: World, step: Step, i: nat) {
    step.Cas? && step.i == i && Legal(w, step) && step.first != w.tasks[i].phase.seen
  }

  // The races that task `i` lost in the run.
  ghost function LostBy(now: int, steps: seq<Step>, i: nat): (n: nat) {
    if steps == [] then 0
    else
      var front := steps[..|steps| - 1];
      LostBy(now, front, i) + if LosesNow(After(now, front), steps[|steps| - 1], i) then 1 else 0
  }

  ghost predicate TriesOk(task: Task, lost: nat) {
    && task.tries + lost == COARSE_CAS_ATTEMPTS
    && (task.phase.GaveUp? <==> task.tries == 0)
  }

  lemma TriesStep(w: World, step: Step, i: nat, lost: nat)
    requires i < |w.tasks| && TriesOk(w.tasks[i], lost)
    ensures i < |Do(w, step).tasks| && TriesOk(Do(w, step).tasks[i], lost + if LosesNow(w, step, i) then 1 else 0)
  {}

  lemma FreshTries(w: World, step: Step, i: nat)
    requires |w.tasks| <= i < |Do(w, step).tasks|
    ensures TriesOk(Do(w, step).tasks[i], 0) && !LosesNow(w, step, i)
  {}

  lemma TasksGrow(w: World, step: Step)
    ensures |w.tasks| <= |Do(w, step).tasks|
  {}

  lemma {:induction false} NobodyLostYet(now: int, steps: seq<Step>, i: nat)
    requires i >= |After(now, steps).tasks|
    ensures LostBy(now, steps, i) == 0
  {
    if steps != [] {
      var front := steps[..|steps| - 1];
      TasksGrow(After(now, front), steps[|steps| - 1]);
      NobodyLostYet(now, front, i);
    }
  }

  lemma {:induction false} RunKeepsTries(now: int, steps: seq<Step>, i: nat)
    requires i < |After(now, steps).tasks|
    ensures TriesOk(After(now, steps).tasks[i], LostBy(now, steps, i))
  {
    var front, last := steps[..|steps| - 1], steps[|steps| - 1];
    if i < |After(now, front).tasks| {
      RunKeepsTries(now, front, i);
      TriesStep(After(now, front), last, i, LostBy(now, front, i));
    } else {
      NobodyLostYet(now, front, i);
      FreshTries(After(now, front), last, i);
    }
  }

  /** A fold gives up exactly when it has lost five races; until then it tries again. */
  lemma GivesUpAfterFiveRaces(now: int, steps: seq<Step>, i: nat)
    requires i < |After(now, steps).tasks|
    ensures var task, lost := After(now, steps).tasks[i], LostBy(now, steps, i);
      lost <= COARSE_CAS_ATTEMPTS && (task.phase.GaveUp? <==> lost == COARSE_CAS_ATTEMPTS)
  {
    RunKeepsTries(now, steps, i);
  }
}
