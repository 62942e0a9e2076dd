/**
  The two counters of a call socket's loop. A keepalive tick counts one more unanswered ping (Ping and
  Pong of sections 5.5.2 and 5.5.3 of RFC 6455) and any frame clears the count; two unanswered pings
  are death at the next tick. Text frames are counted per window of a second; the fifty-first closes
  the socket. Both are proved against what happened on the line, not against the counters.
*/
module SocketLiveness {
  import opened Options

  const MISSED_PONGS_LIMIT: nat := 2
  const FRAMES_PER_WINDOW: nat := 50

  // ---------- Liveness ----------

  // What the loop served, in the order it served it.
  datatype Event = Frame(t: int) | Tick(t: int)

  function LastTick(start: int, es: seq<Event>): (t: int) {
    if es == [] then start
    else if es[|es| - 1].Tick? then es[|es| - 1].t
    else LastTick(start, es[..|es| - 1])
  }

  // The moment of the last frame, or of the connection when none came.
  function LastFrame(start: int, es: seq<Event>): (t: int) {
    if es == [] then start
    else if es[|es| - 1].Frame? then es[|es| - 1].t
    else LastFrame(start, es[..|es| - 1])
  }

  // The pings sent since the last frame.
  function PingsSince(es: seq<Event>): (n: nat) {
    if es == [] || es[|es| - 1].Frame? then 0 else PingsSince(es[..|es| - 1]) + 1
  }

  // Time does not go back, and each tick is served one period after the one before it.
  predicate OnTime(start: int, period: int, es: seq<Event>) {
    && (forall i :: 0 <= i < |es| ==> start <= es[i].t)
    && (forall i, j :: 0 <= i < j < |es| ==> es[i].t <= es[j].t)
    && (forall i :: 0 <= i < |es| && es[i].Tick? ==> es[i].t == LastTick(start, es[..i]) + period)
  }

  // The tick that held the socket dead: the first to find two pings unanswered.
  ghost predicate HeldDeadAt(es: seq<Event>, k: nat) {
    && k < |es| && es[k].Tick? && PingsSince(es[..k]) >= MISSED_PONGS_LIMIT
    && forall j :: 0 <= j < k && es[j].Tick? ==> PingsSince(es[..j]) < MISSED_PONGS_LIMIT
  }

  /** The loop: the index of the tick that held the socket dead, if one did. */
  method Watch(events: seq<Event>) returns (dead: Option<nat>)
    ensures dead.Some? ==> HeldDeadAt(events, dead.value)
    ensures dead.None? ==> forall k :: !HeldDeadAt(events, k)
  {
    var unanswered: nat := 0;
    for i := 0 to |events|
      invariant unanswered == PingsSince(events[..i])
      invariant forall k :: 0 <= k < i && events[k].Tick? ==> PingsSince(events[..k]) < MISSED_PONGS_LIMIT
    {
      assert events[..i + 1][..i] == events[..i];
      match events[i]
      case Frame(_) => unanswered := 0;
      case Tick(_) =>
        if unanswered >= MISSED_PONGS_LIMIT { return Some(i); }
        unanswered := unanswered + 1;
    }
    dead := None;
  }

  lemma OnTimeFront(start: int, period: int, es: seq<Event>, n: nat)
    requires OnTime(start, period, es) && n <= |es|
    ensures OnTime(start, period, es[..n])
  {
    forall i | 0 <= i < n && es[i].Tick? ensures es[i].t == LastTick(start, es[..n][..i]) + period {
      assert es[..n][..i] == es[..i];
    }
  }

  lemma {:induction false} LastsAreEarlier(start: int, period: int, es: seq<Event>, t: int)
    requires OnTime(start, period, es) && start <= t && forall e :: e in es ==> e.t <= t
    ensures LastTick(start, es) <= t && LastFrame(start, es) <= t
  {
    if es != [] {
      var front := es[..|es| - 1];
      assert es[|es| - 1] in es && forall e :: e in front ==> e in es;
      OnTimeFront(start, period, es, |es| - 1);
      LastsAreEarlier(start, period, front, t);
    }
  }

  // The last frame came after the tick before the pings since it, and before the first of them.
  lemma {:induction false} FrameBehindPings(start: int, period: int, es: seq<Event>)
    requires OnTime(start, period, es)
    ensures var n, tick, frame := PingsSince(es), LastTick(start, es), LastFrame(start, es);
      && (n == 0 ==> tick <= frame)
      && (n == 1 ==> tick - period <= frame <= tick)
      && (n == 2 ==> tick - 2 * period <= frame <= tick - period)
  {
    if es != [] {
      var front, last := es[..|es| - 1], es[|es| - 1];
      OnTimeFront(start, period, es, |es| - 1);
      FrameBehindPings(start, period, front);
      assert forall e :: e in front ==> e.t <= last.t;
      LastsAreEarlier(start, period, front, last.t);
      assert last.Tick? ==> LastTick(start, es) == LastTick(start, front) + period;
    }
  }

  lemma TwoPingsBefore(es: seq<Event>, k: nat)
    requires HeldDeadAt(es, k)
    ensures k >= 2 && es[k - 1].Tick? && es[k - 2].Tick? && PingsSince(es[..k]) == 2 && PingsSince(es[..k - 2]) == 0
  {
    assert es[..k][..k - 1] == es[..k - 1];
    assert es[..k - 1] == [] || es[..k - 1][..k - 2] == es[..k - 2];
  }

  /** A socket held dead was pinged at the two ticks before, had sent nothing since the first of those
      pings, and its last frame lies at least two and at most three periods back; more than two unless
      that frame and a ping share their instant. */
  lemma HeldDeadInTime(start: int, period: int, es: seq<Event>, k: nat)
    requires OnTime(start, period, es) && HeldDeadAt(es, k)
    ensures var dead, frame := es[k].t, LastFrame(start, es[..k]);
      && k >= 2 && es[k - 2] == Tick(dead - 2 * period) && es[k - 1] == Tick(dead - period)
      && LastFrame(start, es[..k - 2]) == frame
      && 2 * period <= dead - frame <= 3 * period
      && (frame != es[k - 2].t ==> dead - frame > 2 * period)
  {
    TwoPingsBefore(es, k);
    OnTimeFront(start, period, es, k);
    FrameBehindPings(start, period, es[..k]);
    assert es[..k][..k - 1] == es[..k - 1] && es[..k - 1][..k - 2] == es[..k - 2];
  }

  /** A socket that passes a tick sent a frame, or was connected, at most two periods before it; so a
      silent one passes no tick more than two periods after its last frame. */
  lemma SurvivorsWereHeard(start: int, period: int, es: seq<Event>, k: nat)
    requires OnTime(start, period, es) && period >= 0 && k < |es| && es[k].Tick? && PingsSince(es[..k]) < MISSED_PONGS_LIMIT
    ensures es[k].t - LastFrame(start, es[..k]) <= 2 * period
  {
    OnTimeFront(start, period, es, k);
    FrameBehindPings(start, period, es[..k]);
  }

  /** A frame served at the instant of a ping, just before it, is followed by death after exactly two
      periods. */
  lemma DeadAfterExactlyTwoPeriods(start: int, period: int)
    requires period > 0
    ensures var t := start + period;
      var es := [Frame(t), Tick(t), Tick(t + period), Tick(t + 2 * period)];
      && OnTime(start, period, es) && HeldDeadAt(es, 3)
      && es[3].t - LastFrame(start, es[..3]) == 2 * period
  {
    var t := start + period;
    var es := [Frame(t), Tick(t), Tick(t + period), Tick(t + 2 * period)];
    TieDies(start, period, es);
  }

  // A frame and three ticks.
  predicate IsTie(es: seq<Event>) {
    |es| == 4 && es[0].Frame? && es[1].Tick? && es[2].Tick? && es[3].Tick?
  }

  lemma TieFacts(start: int, es: seq<Event>)
    requires IsTie(es)
    ensures LastTick(start, es[..1]) == start && LastTick(start, es[..2]) == es[1].t && LastTick(start, es[..3]) == es[2].t
    ensures PingsSince(es[..1]) == 0 && PingsSince(es[..2]) == 1 && PingsSince(es[..3]) == 2
    ensures LastFrame(start, es[..3]) == es[0].t
  {
    ServedPrefix(start, es, 0);
    ServedPrefix(start, es, 1);
    ServedPrefix(start, es, 2);
  }

  lemma TieOnTime(start: int, period: int, es: seq<Event>)
    requires IsTie(es) && start <= es[0].t <= es[1].t <= es[2].t <= es[3].t
    requires LastTick(start, es[..1]) + period == es[1].t && LastTick(start, es[..2]) + period == es[2].t
    requires LastTick(start, es[..3]) + period == es[3].t
    ensures OnTime(start, period, es)
  {
    forall i | 0 <= i < |es| && es[i].Tick? ensures es[i].t == LastTick(start, es[..i]) + period {
      assert i == 1 || i == 2 || i == 3;
    }
  }

  lemma TieDies(start: int, period: int, es: seq<Event>)
    requires IsTie(es) && period > 0 && es[0].t == es[1].t == start + period
    requires es[2].t == es[1].t + period && es[3].t == es[2].t + period
    ensures OnTime(start, period, es) && HeldDeadAt(es, 3) && es[3].t - LastFrame(start, es[..3]) == 2 * period
  {
    TieFacts(start, es);
    TieOnTime(start, period, es);
    TieHeldDead(es);
  }

  lemma TieHeldDead(es: seq<Event>)
    requires IsTie(es) && PingsSince(es[..1]) == 0 && PingsSince(es[..2]) == 1 && PingsSince(es[..3]) == 2
    ensures HeldDeadAt(es, 3)
  {
    forall j | 0 <= j < 3 && es[j].Tick? ensures PingsSince(es[..j]) < MISSED_PONGS_LIMIT { assert j == 1 || j == 2; }
  }

  lemma ServedPrefix(start: int, es: seq<Event>, i: nat)
    requires i < |es|
    ensures i == 0 ==> LastTick(start, es[..i]) == start == LastFrame(start, es[..i]) && PingsSince(es[..i]) == 0
    ensures LastTick(start, es[..i + 1]) == if es[i].Tick? then es[i].t else LastTick(start, es[..i])
    ensures LastFrame(start, es[..i + 1]) == if es[i].Frame? then es[i].t else LastFrame(start, es[..i])
    ensures PingsSince(es[..i + 1]) == if es[i].Tick? then PingsSince(es[..i]) + 1 else 0
  {
    assert es[..i + 1] == es[..i] + [es[i]];
    Served(start, es[..i], es[i]);
  }

  lemma Served(start: int, es: seq<Event>, e: Event)
    ensures LastTick(start, es + [e]) == if e.Tick? then e.t else LastTick(start, es)
    ensures LastFrame(start, es + [e]) == if e.Frame? then e.t else LastFrame(start, es)
    ensures PingsSince(es + [e]) == if e.Tick? then PingsSince(es) + 1 else 0
  {
    assert (es + [e])[..|es|] == es;
  }

  // ---------- Rate ----------

  // The clock counts nanoseconds.
  const SECOND := 1_000_000_000

  predicate Ordered(start: int, times: seq<int>) {
    && (forall i :: 0 <= i < |times| ==> start <= times[i])
    && (forall i, j :: 0 <= i <= j < |times| ==> times[i] <= times[j])
  }

  datatype Meter = Meter(count: nat, window: int, limited: Option<nat>)

  // The counter after one more frame, the `n`-th, unless the socket is closed already.
  function Next(m: Meter, now: int, n: nat): (r: Meter) {
    if m.limited.Some? then m
    else
      var count := if now - m.window > SECOND then 1 else m.count + 1;
      Meter(count, if now - m.window > SECOND then now else m.window,
            if count > FRAMES_PER_WINDOW then Some(n) else None)
  }

  function Metered(start: int, times: seq<int>): (m: Meter) {
    if times == [] then Meter(0, start, None)
    else Next(Metered(start, times[..|times| - 1]), times[|times| - 1], |times| - 1)
  }

  // Of frames not yet limited, the last `count` are in the window, none of the others is, and all but
  // fifty of the others are more than a second before it.
  ghost predicate WindowOk(times: seq<int>, count: nat, window: int) {
    && count <= |times|
    && (forall i :: |times| - count <= i < |times| ==> window <= times[i] <= window + SECOND)
    && (forall i :: 0 <= i < |times| - count ==> times[i] < window)
    && (forall i :: 0 <= i < |times| - count - FRAMES_PER_WINDOW ==> times[i] + SECOND < window)
  }

  // Any hundred and one of the first `n` frames span more than a second.
  ghost predicate Spread(times: seq<int>, n: nat)
    requires n <= |times|
  {
    forall i, j :: 0 <= i && i + 100 <= j < n ==> times[j] - times[i] > SECOND
  }

  lemma WindowMoves(times: seq<int>, count: nat, window: int, now: int)
    requires WindowOk(times, count, window) && count <= FRAMES_PER_WINDOW && now - window > SECOND
    ensures WindowOk(times, 0, now)
  {}

  lemma WindowGrows(times: seq<int>, count: nat, window: int, now: int)
    requires WindowOk(times, count, window) && count < FRAMES_PER_WINDOW && window <= now <= window + SECOND
    requires Spread(times, |times|) && forall i :: 0 <= i < |times| ==> times[i] <= now
    ensures WindowOk(times + [now], count + 1, window) && Spread(times + [now], |times| + 1)
  {
    var all := times + [now];
    forall i, j | 0 <= i && i + 100 <= j < |all| ensures all[j] - all[i] > SECOND {
      assert all[i] == times[i];
      if j == |times| { assert times[i] + SECOND < window; }
    }
  }

  ghost predicate RateOk(start: int, times: seq<int>, m: Meter) {
    match m.limited
    case None =>
      && m.count <= FRAMES_PER_WINDOW && start <= m.window <= (if times == [] then start else times[|times| - 1])
      && WindowOk(times, m.count, m.window) && Spread(times, |times|)
    case Some(k) =>
      && FRAMES_PER_WINDOW <= k < |times| && times[k] - times[k - FRAMES_PER_WINDOW] <= SECOND
      && Spread(times, k)
  }

  lemma ClosedStaysOk(start: int, times: seq<int>, m: Meter, now: int)
    requires RateOk(start, times, m) && m.limited.Some?
    ensures RateOk(start, times + [now], m)
  {
    var k, all := m.limited.value, times + [now];
    assert all[k] == times[k] && all[k - FRAMES_PER_WINDOW] == times[k - FRAMES_PER_WINDOW];
    forall i, j | 0 <= i && i + 100 <= j < k ensures all[j] - all[i] > SECOND {
      assert all[i] == times[i] && all[j] == times[j];
    }
  }

  lemma ClosingIsOk(start: int, times: seq<int>, m: Meter, now: int)
    requires RateOk(start, times, m) && m.limited.None? && m.count == FRAMES_PER_WINDOW && now - m.window <= SECOND
    ensures RateOk(start, times + [now], Next(m, now, |times|))
  {
    var all := times + [now];
    assert all[|times| - FRAMES_PER_WINDOW] == times[|times| - FRAMES_PER_WINDOW];
    forall i, j | 0 <= i && i + 100 <= j < |times| ensures all[j] - all[i] > SECOND {
      assert all[i] == times[i] && all[j] == times[j];
    }
  }

  lemma NextIsOk(start: int, times: seq<int>, m: Meter, now: int)
    requires RateOk(start, times, m) && start <= now && forall i :: 0 <= i < |times| ==> times[i] <= now
    ensures RateOk(start, times + [now], Next(m, now, |times|))
  {
    if m.limited.Some? {
      ClosedStaysOk(start, times, m, now);
    } else if now - m.window > SECOND {
      WindowMoves(times, m.count, m.window, now);
      WindowGrows(times, 0, now, now);
    } else if m.count < FRAMES_PER_WINDOW {
      WindowGrows(times, m.count, m.window, now);
    } else {
      ClosingIsOk(start, times, m, now);
    }
  }

  lemma OrderedFront(start: int, times: seq<int>)
    requires times != [] && Ordered(start, times)
    ensures var front, now := times[..|times| - 1], times[|times| - 1];
      Ordered(start, front) && start <= now && forall i :: 0 <= i < |front| ==> front[i] <= now
  {}

  /** Of the frames dispatched any hundred and one span more than a second; and a socket is closed only
      on the last of fifty-one frames within a second. */
  lemma {:induction false} RateBounds(start: int, times: seq<int>)
    requires Ordered(start, times)
    ensures RateOk(start, times, Metered(start, times))
  {
    if times != [] {
      var front, now := times[..|times| - 1], times[|times| - 1];
      OrderedFront(start, times);
      RateBounds(start, front);
      NextIsOk(start, front, Metered(start, front), now);
      assert times == front + [now] && Metered(start, times) == Next(Metered(start, front), now, |front|);
    }
  }

  lemma {:induction false} LimitStays(start: int, times: seq<int>, n: nat)
    requires n <= |times| && Metered(start, times[..n]).limited.Some?
    ensures Metered(start, times) == Metered(start, times[..n])
    decreases |times|
  {
    if n == |times| {
      assert times[..n] == times;
    } else {
      assert times[..|times| - 1][..n] == times[..n];
      LimitStays(start, times[..|times| - 1], n);
    }
  }

  /** The loop over text frames: the index of the one that closed the socket, if one did. */
  method LimitRate(start: int, times: seq<int>) returns (limited: Option<nat>)
    requires Ordered(start, times)
    ensures limited == Metered(start, times).limited
    ensures limited.Some? ==> FRAMES_PER_WINDOW <= limited.value < |times| &&
                              times[limited.value] - times[limited.value - FRAMES_PER_WINDOW] <= SECOND
    ensures Spread(times, if limited.Some? then limited.value else |times|)
  {
    RateBounds(start, times);
    var count: nat, window := 0, start;
    for n := 0 to |times|
      invariant Metered(start, times[..n]) == Meter(count, window, None)
    {
      assert times[..n + 1][..n] == times[..n];
      if times[n] - window > SECOND { count, window := 0, times[n]; }
      count := count + 1;
      if count > FRAMES_PER_WINDOW {
        LimitStays(start, times, n + 1);
        return Some(n);
      }
    }
    assert times[..|times|] == times;
    limited := None;
  }

  // ---------- When more than fifty pass ----------

  lemma OneMoreFrame(start: int, times: seq<int>, n: nat)
    requires n < |times|
    ensures Metered(start, times[..n + 1]) == Next(Metered(start, times[..n]), times[n], n)
  {
    assert times[..n + 1][..n] == times[..n];
  }

  lemma {:induction false} OpenBefore(start: int, times: seq<int>, m: nat, n: nat)
    requires m <= n <= |times| && Metered(start, times[..n]).limited.None?
    ensures Metered(start, times[..m]).limited.None?
    decreases n - m
  {
    if m < n {
      OneMoreFrame(start, times, n - 1);
      OpenBefore(start, times, m, n - 1);
    }
  }

  // The frame `n` finds the socket open and its window over: the counter starts again.
  ghost predicate Renews(start: int, times: seq<int>, n: nat)
    requires n < |times|
  {
    var m := Metered(start, times[..n]);
    m.limited.None? && times[n] - m.window > SECOND
  }

  lemma {:induction false} CountsUp(start: int, times: seq<int>, m: nat, n: nat)
    requires m <= n <= |times| && Metered(start, times[..n]).limited.None?
    requires forall k :: m <= k < n ==> !Renews(start, times, k)
    ensures Metered(start, times[..n]).count == Metered(start, times[..m]).count + (n - m)
    decreases n - m
  {
    if m < n {
      OneMoreFrame(start, times, n - 1);
      OpenBefore(start, times, n - 1, n);
      CountsUp(start, times, m, n - 1);
      assert !Renews(start, times, n - 1);
    }
  }

  // After a renewal the frames of the next second are counted from one.
  lemma {:induction false} CountsFromRenewal(start: int, times: seq<int>, r: nat, n: nat)
    requires Ordered(start, times) && r < n <= |times| && n - r <= FRAMES_PER_WINDOW
    requires Renews(start, times, r) && times[n - 1] - times[r] <= SECOND
    ensures Metered(start, times[..n]) == Meter(n - r, times[r], None)
    decreases n - r
  {
    OneMoreFrame(start, times, n - 1);
    if r < n - 1 { CountsFromRenewal(start, times, r, n - 1); }
  }

  /** The documented limit of fifty frames per second is kept except across a renewal: the last of
      fifty-one frames within a second passes exactly when one of the last fifty of them found its
      window over and started a new one. */
  lemma FiftyOnePassIff(start: int, times: seq<int>, j: nat)
    requires Ordered(start, times) && FRAMES_PER_WINDOW <= j < |times|
    requires times[j] - times[j - FRAMES_PER_WINDOW] <= SECOND
    ensures Metered(start, times[..j + 1]).limited.None? <==>
      exists n :: j - FRAMES_PER_WINDOW < n <= j && Renews(start, times, n)
  {
    var first := j - FRAMES_PER_WINDOW;
    if n :| first < n <= j && Renews(start, times, n) {
      CountsFromRenewal(start, times, n, j + 1);
    } else if Metered(start, times[..j + 1]).limited.None? {
      OpenBefore(start, times, first, j + 1);
      OneMoreFrame(start, times, first);
      OpenBefore(start, times, first + 1, j + 1);
      CountsUp(start, times, first + 1, j + 1);
      OneMoreFrame(start, times, j);
    }
  }

  // ---------- The bound is reached ----------

  // `n` frames at one moment and `k` at another.
  function Burst(t: int, n: nat, u: int, k: nat): (times: seq<int>) {
    seq(n + k, i => if i < n then t else u)
  }

  lemma {:induction false} BurstIsCounted(start: int, t: int, u: int, n: nat, k: nat)
    requires n <= FRAMES_PER_WINDOW && k <= FRAMES_PER_WINDOW && start <= t <= start + SECOND < u
    ensures Metered(start, Burst(t, n, u, k)) == if k == 0 then Meter(n, start, None) else Meter(k, u, None)
    decreases n + k
  {
    var times := Burst(t, n, u, k);
    if k > 0 {
      assert times[..n + k - 1] == Burst(t, n, u, k - 1);
      BurstIsCounted(start, t, u, n, k - 1);
    } else if n > 0 {
      assert times[..n - 1] == Burst(t, n - 1, u, 0);
      BurstIsCounted(start, t, u, n - 1, 0);
    }
  }

  /** A hundred frames a nanosecond apart can pass: fifty at the end of a window and fifty at the
      start of the next. */
  lemma AHundredCanPass(start: int)
    ensures Metered(start, Burst(start + SECOND, 50, start + SECOND + 1, 50)).limited.None?
  {
    BurstIsCounted(start, start + SECOND, start + SECOND + 1, 50, 50);
  }
}
