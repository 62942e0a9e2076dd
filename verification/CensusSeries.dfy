/**
  The minute series: a sorted set of samples by minute, written by any number of replicas through one
  script that checks the minute against the store's own clock, keeps the first sample of each minute,
  trims what is too old and renews the key's expiry. Whatever the replicas' clocks say, a read answers
  the first acceptable sample of every minute of its window that the trim has left; and with its clock
  no further behind than the retention leaves room for, neither the trim nor the expiry shows.
*/
module CensusSeries {
  import opened Census
  import opened CensusRollup

  const SAMPLE_INTERVAL_SECS := 60
  const RETENTION_SECS := 24 * 60 * 60
  // How long past its retention an untouched series is kept.
  const EXPIRY_MARGIN_SECS := 3600

  type Scores = map<Sample, int>

  datatype Store = Store(members: Scores, expires: int)
  datatype Reply = Failed | Refused(now: int) | Taken(now: int) | Wrote(now: int)

  function Distance(a: int, b: int): (d: nat) {
    if a < b then b - a else a - b
  }

  // The members of the key at `now`: none once it has expired.
  function Live(st: Store, now: int): (m: Scores) {
    if now < st.expires then st.members else map[]
  }

  predicate Scored(m: Scores, t: int) {
    exists s :: s in m && m[s] == t
  }

  function Newer(m: Scores, floor: int): (r: Scores) {
    map s | s in m && m[s] > floor :: m[s]
  }

  function Record(st: Store, now: int, s: Sample, keep: int, step: int): (r: (Store, Reply)) {
    if keep < 1 || step < 1 then (st, Failed)
    else if Distance(s.t, now) > step then (st, Refused(now))
    else
      var live := Live(st, now);
      var taken := Scored(live, s.t);
      var added := if taken then live else live[s := s.t];
      (Store(Newer(added, now - keep), now + keep + EXPIRY_MARGIN_SECS), if taken then Taken(now) else Wrote(now))
  }

  // What a read of `(now - window, now]` finds at the instant `at`, `now` having been asked for before.
  function Window(st: Store, at: int, now: int, window: int): (m: Scores) {
    var live := Live(st, at);
    map s | s in live && now - window < live[s] <= now :: live[s]
  }

  // The answer of a range read: every member once, by score.
  ghost predicate ByScore(r: seq<Sample>, m: Scores) {
    && (forall s :: s in r <==> s in m)
    && (forall i, j :: 0 <= i < j < |r| ==> r[i] != r[j] && m[r[i]] <= m[r[j]])
  }

  /** The sorted set as the scripts change it. */
  class Series {
    var members: Scores
    var expires: int

    constructor ()
      ensures State() == Store(map[], 0)
    {
      members, expires := map[], 0;
    }

    function State(): Store
      reads this
    {
      Store(members, expires)
    }

    method RecordSample(now: int, s: Sample, keep: int, step: int) returns (reply: Reply)
      modifies this
      ensures (State(), reply) == Record(old(State()), now, s, keep, step)
    {
      if keep < 1 || step < 1 { return Failed; }
      if Distance(s.t, now) > step { return Refused(now); }
      if now >= expires { members := map[]; }
      reply := Taken(now);
      if !Scored(members, s.t) {
        members := members[s := s.t];
        reply := Wrote(now);
      }
      members := Newer(members, now - keep);
      expires := now + keep + EXPIRY_MARGIN_SECS;
    }
  }

  /** The script fails exactly on a retention or an interval below one, refuses exactly a minute further
      than one interval away, and in both cases leaves the key as it was; otherwise the key holds
      nothing older than the retention, and the minute it was given unless that is. */
  lemma WhatTheScriptAnswers(st: Store, now: int, s: Sample, keep: int, step: int)
    ensures var (after, reply) := Record(st, now, s, keep, step);
      && (reply == Failed <==> keep < 1 || step < 1)
      && (reply == Refused(now) <==> keep >= 1 && step >= 1 && (s.t < now - step || s.t > now + step))
      && (reply.Failed? || reply.Refused? ==> after == st)
      && (reply.Taken? || reply.Wrote? ==>
            && (forall x :: x in after.members ==> after.members[x] > now - keep)
            && (s.t > now - keep ==> Scored(after.members, s.t)))
  {
    var (after, reply) := Record(st, now, s, keep, step);
    if (reply.Taken? || reply.Wrote?) && s.t > now - keep {
      var live := Live(st, now);
      var x := if reply.Wrote? then s else var y :| y in live && live[y] == s.t; y;
      assert x in after.members && after.members[x] == s.t;
    }
  }

  // ---------- Runs ----------

  // One replica's attempt: the store's clock when the script runs, and the sample it offers.
  datatype Attempt = Attempt(now: int, sample: Sample)

  predicate Timely(run: seq<Attempt>) {
    forall i, j :: 0 <= i < j < |run| ==> run[i].now <= run[j].now
  }

  function After(run: seq<Attempt>): (st: Store) {
    if run == [] then Store(map[], 0)
    else
      var last := run[|run| - 1];
      Record(After(run[..|run| - 1]), last.now, last.sample, RETENTION_SECS, SAMPLE_INTERVAL_SECS).0
  }

  function ReplyTo(front: seq<Attempt>, a: Attempt): (r: Reply) {
    Record(After(front), a.now, a.sample, RETENTION_SECS, SAMPLE_INTERVAL_SECS).1
  }

  predicate Acceptable(a: Attempt) {
    Distance(a.sample.t, a.now) <= SAMPLE_INTERVAL_SECS
  }

  // For each minute the census of the first acceptable attempt at it.
  function First(run: seq<Attempt>): (m: map<int, Census>) {
    if run == [] then map[]
    else
      var front, last := First(run[..|run| - 1]), run[|run| - 1];
      if Acceptable(last) && last.sample.t !in front then front[last.sample.t := last.sample.census] else front
  }

  function Between(m: map<int, Census>, floor: int, top: int): (r: map<int, Census>) {
    map t | t in m && floor < t <= top :: m[t]
  }

  // The store's clock at the last acceptable attempt.
  function LastAccepted(run: seq<Attempt>): (t: int) {
    if run == [] then 0
    else if Acceptable(run[|run| - 1]) then run[|run| - 1].now
    else LastAccepted(run[..|run| - 1])
  }

  predicate IsHistory(s: Sample, hist: map<int, Census>, floor: int) {
    s.t in hist && hist[s.t] == s.census && s.t > floor
  }

  // The store holds the history younger than the retention at `clock`, when the script last wrote.
  ghost predicate Agrees(st: Store, hist: map<int, Census>, clock: int) {
    && (forall s :: s in st.members <==> IsHistory(s, hist, clock - RETENTION_SECS))
    && (forall s :: s in st.members ==> st.members[s] == s.t)
    && (forall t :: t in hist ==> t <= clock + SAMPLE_INTERVAL_SECS)
    && (hist != map[] ==> st.expires == clock + RETENTION_SECS + EXPIRY_MARGIN_SECS)
  }

  lemma TakenIsHistory(st: Store, hist: map<int, Census>, clock: int, a: Attempt)
    requires Agrees(st, hist, clock) && (hist != map[] ==> clock <= a.now) && Acceptable(a)
    ensures Scored(Live(st, a.now), a.sample.t) <==> a.sample.t in hist
  {
    var live, t := Live(st, a.now), a.sample.t;
    if t in hist {
      var s := Sample(t, hist[t]);
      assert IsHistory(s, hist, clock - RETENTION_SECS);
      assert live[s] == t;
    }
    if Scored(live, t) {
      var s :| s in live && live[s] == t;
      assert IsHistory(s, hist, clock - RETENTION_SECS);
    }
  }

  // What the key still has at a later attempt: the history that attempt will not trim, and older.
  lemma LiveIsHistory(st: Store, hist: map<int, Census>, clock: int, now: int, s: Sample)
    requires Agrees(st, hist, clock) && (hist != map[] ==> clock <= now)
    ensures s in Live(st, now) && s.t > now - RETENTION_SECS <==> IsHistory(s, hist, now - RETENTION_SECS)
  {
    if IsHistory(s, hist, now - RETENTION_SECS) { assert IsHistory(s, hist, clock - RETENTION_SECS); }
    if s in st.members { assert IsHistory(s, hist, clock - RETENTION_SECS); }
  }

  // The history with the attempt in it.
  function Noted(hist: map<int, Census>, s: Sample): (r: map<int, Census>) {
    if s.t in hist then hist else hist[s.t := s.census]
  }

  lemma WrittenIsHistory(st: Store, hist: map<int, Census>, clock: int, a: Attempt, s: Sample)
    requires Agrees(st, hist, clock) && (hist != map[] ==> clock <= a.now) && Acceptable(a)
    ensures var after := Record(st, a.now, a.sample, RETENTION_SECS, SAMPLE_INTERVAL_SECS).0.members;
      && (s in after <==> IsHistory(s, Noted(hist, a.sample), a.now - RETENTION_SECS))
      && (s in after ==> after[s] == s.t)
  {
    TakenIsHistory(st, hist, clock, a);
    LiveIsHistory(st, hist, clock, a.now, s);
  }

  lemma AttemptAgrees(st: Store, hist: map<int, Census>, clock: int, a: Attempt)
    requires Agrees(st, hist, clock) && (hist != map[] ==> clock <= a.now) && Acceptable(a)
    ensures Agrees(Record(st, a.now, a.sample, RETENTION_SECS, SAMPLE_INTERVAL_SECS).0, Noted(hist, a.sample), a.now)
  {
    var after := Record(st, a.now, a.sample, RETENTION_SECS, SAMPLE_INTERVAL_SECS).0;
    var noted := Noted(hist, a.sample);
    forall s
      ensures s in after.members <==> IsHistory(s, noted, a.now - RETENTION_SECS)
      ensures s in after.members ==> after.members[s] == s.t
    {
      WrittenIsHistory(st, hist, clock, a, s);
    }
    assert forall t :: t in noted ==> t in hist || t == a.sample.t;
  }

  ghost function ClockOf(run: seq<Attempt>): int
    requires run != []
  {
    run[|run| - 1].now
  }

  lemma TimelyFront(run: seq<Attempt>)
    requires Timely(run) && run != []
    ensures Timely(run[..|run| - 1])
    ensures |run| > 1 ==> ClockOf(run[..|run| - 1]) <= ClockOf(run)
  {}

  lemma {:induction false} AcceptedBefore(run: seq<Attempt>)
    requires Timely(run) && First(run) != map[]
    ensures run != [] && LastAccepted(run) <= ClockOf(run)
  {
    if !Acceptable(run[|run| - 1]) {
      TimelyFront(run);
      AcceptedBefore(run[..|run| - 1]);
    }
  }

  lemma {:induction false} RunAgrees(run: seq<Attempt>)
    requires Timely(run)
    ensures Agrees(After(run), First(run), LastAccepted(run))
  {
    if run != [] {
      var front, last := run[..|run| - 1], run[|run| - 1];
      TimelyFront(run);
      RunAgrees(front);
      if First(front) != map[] { AcceptedBefore(front); }
      if Acceptable(last) { AttemptAgrees(After(front), First(front), LastAccepted(front), last); }
    }
  }

  /** The first acceptable attempt at a minute is the one that writes it; every later acceptable one
      finds it taken; an attempt further than one interval from the store's clock is refused, and
      neither stores nor trims. */
  lemma FirstWriterWins(front: seq<Attempt>, a: Attempt)
    requires Timely(front + [a])
    ensures ReplyTo(front, a) == Wrote(a.now) <==> Acceptable(a) && a.sample.t !in First(front)
    ensures ReplyTo(front, a) == Taken(a.now) <==> Acceptable(a) && a.sample.t in First(front)
    ensures ReplyTo(front, a) == Refused(a.now) <==> !Acceptable(a)
    ensures !Acceptable(a) ==> After(front + [a]) == After(front)
    ensures a.sample.t in First(front) ==> First(front + [a])[a.sample.t] == First(front)[a.sample.t]
  {
    assert (front + [a])[..|front|] == front;
    TimelyFront(front + [a]);
    RunAgrees(front);
    if First(front) != map[] { AcceptedBefore(front); }
    if Acceptable(a) { TakenIsHistory(After(front), First(front), LastAccepted(front), a); }
  }

  // ---------- Reads ----------

  // The minute up to which nothing is left at the instant `at`: what the last script trimmed, or the
  // retention itself once the key has expired.
  function GoneUpTo(run: seq<Attempt>, at: int): (t: int) {
    if at < LastAccepted(run) + RETENTION_SECS + EXPIRY_MARGIN_SECS then LastAccepted(run) - RETENTION_SECS
    else at - RETENTION_SECS
  }

  function Later(a: int, b: int): (c: int) {
    if a < b then b else a
  }

  lemma LeftAt(run: seq<Attempt>, at: int, s: Sample)
    requires Timely(run)
    ensures s in Live(After(run), at) <==> IsHistory(s, First(run), GoneUpTo(run, at))
    ensures s in Live(After(run), at) ==> Live(After(run), at)[s] == s.t
  {
    RunAgrees(run);
  }

  lemma WindowIsHistory(m: Scores, hist: map<int, Census>, floor: int, top: int, r: seq<Sample>)
    requires forall s :: s in m <==> IsHistory(s, hist, floor) && s.t <= top
    requires (forall s :: s in m ==> m[s] == s.t) && ByScore(r, m)
    ensures Lists(r, Between(hist, floor, top))
  {
    var told := Between(hist, floor, top);
    forall i, j | 0 <= i < j < |r| ensures r[i].t < r[j].t {
      assert r[i] in r && r[j] in r && IsHistory(r[i], hist, floor) && IsHistory(r[j], hist, floor);
    }
    forall s | s in r ensures s.t in told && s.census == told[s.t] { assert IsHistory(s, hist, floor); }
    forall t | t in told ensures Sample(t, told[t]) in r { assert IsHistory(Sample(t, told[t]), hist, floor); }
  }

  // Every minute of the window that was ever written is still there.
  predicate NoneGone(run: seq<Attempt>, at: int, now: int, window: int) {
    forall t :: t in First(run) && now - window < t <= now ==> t > GoneUpTo(run, at)
  }

  lemma BetweenLess(hist: map<int, Census>, floor: int, higher: int, top: int)
    requires floor <= higher
    ensures Between(hist, higher, top) == Between(hist, floor, top) <==>
            forall t :: t in hist && floor < t <= top ==> t > higher
  {
    var less, all := Between(hist, higher, top), Between(hist, floor, top);
    if less == all {
      forall t | t in hist && floor < t <= top ensures t > higher { assert t in all && t in less; }
    }
    if forall t :: t in hist && floor < t <= top ==> t > higher {
      assert less.Keys == all.Keys;
    }
  }

  lemma ListsOneMap(r: seq<Sample>, m: map<int, Census>, n: map<int, Census>)
    requires Lists(r, m) && Lists(r, n)
    ensures m == n
  {
    forall t ensures t in m <==> t in n {
      if t in m { assert Sample(t, m[t]) in r; }
      if t in n { assert Sample(t, n[t]) in r; }
    }
    forall t | t in m ensures m[t] == n[t] { assert Sample(t, m[t]) in r; }
  }

  lemma ReadIs(run: seq<Attempt>, at: int, now: int, window: int, r: seq<Sample>)
    requires Timely(run) && ByScore(r, Window(After(run), at, now, window))
    ensures Lists(r, Between(First(run), Later(now - window, GoneUpTo(run, at)), now))
  {
    var m, floor := Window(After(run), at, now, window), Later(now - window, GoneUpTo(run, at));
    forall s ensures (s in m <==> IsHistory(s, First(run), floor) && s.t <= now) && (s in m ==> m[s] == s.t) {
      LeftAt(run, at, s);
    }
    WindowIsHistory(m, First(run), floor, now, r);
  }

  /** A read asks the store for its clock and then, at the instant `at`, for the window before that
      clock; scripts may run in between. It answers, oldest first and one per minute, the first
      acceptable sample of every minute of the window that the trim and the key's expiry have left. That
      is the whole window if and only if none of its minutes is gone, and so in every run in which the
      window and the delay together stay within the retention. */
  lemma AReadIsTheHistory(run: seq<Attempt>, at: int, now: int, window: int, r: seq<Sample>)
    requires Timely(run) && ByScore(r, Window(After(run), at, now, window))
    ensures Lists(r, Between(First(run), Later(now - window, GoneUpTo(run, at)), now))
    ensures Lists(r, Between(First(run), now - window, now)) <==> NoneGone(run, at, now, window)
    ensures (run != [] ==> ClockOf(run) <= at) && window + at - now <= 86400 ==> NoneGone(run, at, now, window)
  {
    var hist, floor := First(run), Later(now - window, GoneUpTo(run, at));
    ReadIs(run, at, now, window, r);
    BetweenLess(hist, now - window, floor, now);
    if Lists(r, Between(hist, now - window, now)) {
      ListsOneMap(r, Between(hist, now - window, now), Between(hist, floor, now));
    }
    if hist != map[] { AcceptedBefore(run); }
  }

  lemma NotedInTurn(front: seq<Attempt>, a: Attempt)
    requires Acceptable(a)
    ensures First(front + [a]) == Noted(First(front), a.sample) && LastAccepted(front + [a]) == a.now
  {
    assert (front + [a])[..|front|] == front;
  }

  /** A day's read does miss its oldest minute when a script trims between its two commands: a minute
      written at the start of the day, the clock read a second before the day is over, and the next
      minute's script before the range is read. */
  lemma ADaysReadCanMissAMinute(census: Census)
    ensures var run := [Attempt(0, Sample(0, census)), Attempt(RETENTION_SECS, Sample(RETENTION_SECS, census))];
      var at, now := RETENTION_SECS, RETENTION_SECS - 1;
      && Timely(run) && 0 in First(run) && now - RETENTION_SECS < 0 <= now
      && Window(After(run), at, now, RETENTION_SECS) == map[]
  {
    var first, second := Attempt(0, Sample(0, census)), Attempt(RETENTION_SECS, Sample(RETENTION_SECS, census));
    var run := [first, second];
    NotedInTurn([], first);
    NotedInTurn([first], second);
    assert [] + [first] == [first] && [first] + [second] == run;
    assert First(run).Keys == {0, RETENTION_SECS};
    var m := Window(After(run), RETENTION_SECS, RETENTION_SECS - 1, RETENTION_SECS);
    forall s ensures s !in m { LeftAt(run, RETENTION_SECS, s); }
  }
}
