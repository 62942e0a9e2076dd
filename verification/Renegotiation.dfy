/**
  The debounce of renegotiation offers. Every subscription to a new track raises its subscriber's
  generation and then starts a timer; a timer that wakes with a stale generation stops, the newest one
  goes on to look the peer up and make an offer. Raising, starting, waking and offering are separate
  steps, and any interleaving of them, with time passing and peers coming and going, is allowed.
*/
module Renegotiation {
  const DEBOUNCE_MS: nat := 300

  type Peer = nat

  // A timer remembers where the log records its schedule, its waking and its end.
  datatype Phase = Spawning | Sleeping(due: int) | Cleared(woken: nat) | Finished(woken: nat, ended: nat) | Stale
  datatype Timer = Timer(peer: Peer, gen: nat, born: nat, phase: Phase)

  datatype Kind = Scheduled | Woken | Attempted | Dropped
  datatype Entry = Entry(kind: Kind, timer: nat, at: int)

  datatype World = World(now: int, gens: map<Peer, nat>, peers: set<Peer>, timers: seq<Timer>, log: seq<Entry>)

  datatype Step = Pass(ms: nat) | Arrive(peer: Peer) | Depart(peer: Peer)
                | Schedule(peer: Peer) | Spawn(k: nat) | Wake(k: nat) | Offer(k: nat)

  function GenOf(w: World, p: Peer): (g: nat) {
    if p in w.gens then w.gens[p] else 0
  }

  predicate Legal(w: World, step: Step) {
    match step
    case Spawn(k) => k < |w.timers| && w.timers[k].phase.Spawning?
    case Wake(k) => k < |w.timers| && w.timers[k].phase.Sleeping? && w.timers[k].phase.due <= w.now
    case Offer(k) => k < |w.timers| && w.timers[k].phase.Cleared?
    case _ => true
  }

  function Note(w: World, kind: Kind, k: nat): (log: seq<Entry>) {
    w.log + [Entry(kind, k, w.now)]
  }

  // A step that is not possible changes nothing.
  function Do(w: World, step: Step): (r: World) {
    if !Legal(w, step) then w
    else
      match step
      case Pass(ms) => w.(now := w.now + ms)
      case Arrive(p) => w.(peers := w.peers + {p})
      case Depart(p) => w.(peers := w.peers - {p})
      case Schedule(p) =>
        var t := Timer(p, GenOf(w, p) + 1, |w.log|, Spawning);
        w.(gens := w.gens[p := t.gen], timers := w.timers + [t], log := Note(w, Scheduled, |w.timers|))
      case Spawn(k) => w.(timers := w.timers[k := w.timers[k].(phase := Sleeping(w.now + DEBOUNCE_MS))])
      case Wake(k) =>
        var t := w.timers[k];
        if t.gen != GenOf(w, t.peer) then w.(timers := w.timers[k := t.(phase := Stale)])
        else w.(timers := w.timers[k := t.(phase := Cleared(|w.log|))], log := Note(w, Woken, k))
      case Offer(k) =>
        var t := w.timers[k];
        w.(timers := w.timers[k := t.(phase := Finished(t.phase.woken, |w.log|))],
           log := Note(w, if t.peer in w.peers then Attempted else Dropped, k))
  }

  function After(start: int, steps: seq<Step>): (w: World) {
    if steps == [] then World(start, map[], {}, [], [])
    else Do(After(start, steps[..|steps| - 1]), steps[|steps| - 1])
  }

  // ---------- The invariant ----------

  // Times in the log do not go back.
  ghost predicate Dated(log: seq<Entry>, now: int) {
    && (forall i :: 0 <= i < |log| ==> log[i].at <= now)
    && (forall i, j :: 0 <= i < j < |log| ==> log[i].at <= log[j].at)
  }

  predicate HasWoken(t: Timer) {
    t.phase.Cleared? || t.phase.Finished?
  }

  // Every entry is the one its timer remembers.
  ghost predicate EntryOk(w: World, j: nat)
    requires j < |w.log|
  {
    var e := w.log[j];
    && e.timer < |w.timers|
    && match e.kind
       case Scheduled => w.timers[e.timer].born == j
       case Woken => HasWoken(w.timers[e.timer]) && w.timers[e.timer].phase.woken == j
       case _ => w.timers[e.timer].phase.Finished? && w.timers[e.timer].phase.ended == j
  }

  // And every timer's record is in the log; it woke a debounce after its schedule, or later.
  ghost predicate TimerOk(w: World, k: nat)
    requires k < |w.timers|
  {
    var t := w.timers[k];
    && t.born < |w.log| && w.log[t.born].kind.Scheduled? && w.log[t.born].timer == k
    && (t.phase.Sleeping? ==> w.log[t.born].at + DEBOUNCE_MS <= t.phase.due)
    && 1 <= t.gen <= GenOf(w, t.peer)
    && (t.phase.Stale? ==> t.gen < GenOf(w, t.peer))
    && (HasWoken(t) ==> t.born < t.phase.woken < |w.log| && w.log[t.phase.woken].kind.Woken? &&
                        w.log[t.phase.woken].timer == k && w.log[t.born].at + DEBOUNCE_MS <= w.log[t.phase.woken].at)
    && (t.phase.Finished? ==> t.phase.woken < t.phase.ended < |w.log| && w.log[t.phase.ended].timer == k &&
                              (w.log[t.phase.ended].kind.Attempted? || w.log[t.phase.ended].kind.Dropped?))
  }

  // A peer's timers are numbered in the order they were scheduled.
  ghost predicate Numbered(timers: seq<Timer>) {
    && (forall k, l :: 0 <= k < l < |timers| ==> timers[k].born < timers[l].born)
    && (forall k, l :: 0 <= k < l < |timers| && timers[k].peer == timers[l].peer ==> timers[k].gen < timers[l].gen)
  }

  // The newest generation of a peer has its timer.
  ghost predicate Newest(w: World, p: Peer) {
    GenOf(w, p) > 0 ==> exists k :: 0 <= k < |w.timers| && w.timers[k].peer == p && w.timers[k].gen == GenOf(w, p)
  }

  // A timer woke only if no timer of its peer was scheduled between it and its waking.
  ghost predicate WokeNewest(timers: seq<Timer>, k: nat)
    requires k < |timers|
  {
    HasWoken(timers[k]) ==> forall l :: k < l < |timers| && timers[l].peer == timers[k].peer ==>
                                          timers[k].phase.woken < timers[l].born
  }

  ghost predicate Inv(w: World) {
    && Dated(w.log, w.now) && Numbered(w.timers)
    && (forall k :: 0 <= k < |w.timers| ==> TimerOk(w, k))
    && (forall k :: 0 <= k < |w.timers| ==> WokeNewest(w.timers, k))
    && (forall j :: 0 <= j < |w.log| ==> EntryOk(w, j))
    && (forall p :: Newest(w, p))
  }

  // ---------- Each step keeps it ----------

  lemma NewestFrame(w: World, after: World, p: Peer)
    requires Newest(w, p) && GenOf(after, p) == GenOf(w, p) && |w.timers| <= |after.timers|
    requires forall k :: 0 <= k < |w.timers| ==>
      after.timers[k].peer == w.timers[k].peer && after.timers[k].gen == w.timers[k].gen
    ensures Newest(after, p)
  {
    if GenOf(w, p) > 0 {
      var k :| 0 <= k < |w.timers| && w.timers[k].peer == p && w.timers[k].gen == GenOf(w, p);
      assert after.timers[k].peer == p;
    }
  }

  // A timer the step leaves alone stays right, whatever the log gains.
  lemma TimerFrame(w: World, after: World, k: nat)
    requires k < |w.timers| && TimerOk(w, k) && |w.timers| <= |after.timers| && after.timers[k] == w.timers[k]
    requires w.log <= after.log && GenOf(w, w.timers[k].peer) <= GenOf(after, w.timers[k].peer)
    ensures TimerOk(after, k)
  {}

  // The timer a step moves keeps what identifies it, and where it woke if it had.
  ghost predicate Moved(w: World, after: World, k: nat) {
    && k < |w.timers| == |after.timers| && after.gens == w.gens && after.now == w.now && w.log <= after.log
    && after.timers == w.timers[k := after.timers[k]]
    && after.timers[k] == w.timers[k].(phase := after.timers[k].phase)
    && !w.timers[k].phase.Finished?
    && (w.timers[k].phase.Cleared? ==> HasWoken(after.timers[k]) && after.timers[k].phase.woken == w.timers[k].phase.woken)
  }

  lemma EntryFrame(w: World, after: World, k: nat, j: nat)
    requires Moved(w, after, k) && j < |w.log| && EntryOk(w, j)
    ensures EntryOk(after, j)
  {}

  lemma MovedKeepsInv(w: World, after: World, k: nat)
    requires Inv(w) && Moved(w, after, k)
    requires TimerOk(after, k) && WokeNewest(after.timers, k) && Dated(after.log, after.now)
    requires forall j :: |w.log| <= j < |after.log| ==> EntryOk(after, j)
    ensures Inv(after)
  {
    forall l | 0 <= l < |after.timers| ensures TimerOk(after, l) {
      if l != k { TimerFrame(w, after, l); }
    }
    forall l | 0 <= l < |after.timers| ensures WokeNewest(after.timers, l) {
      assert WokeNewest(w.timers, l);
    }
    forall j | 0 <= j < |after.log| ensures EntryOk(after, j) {
      if j < |w.log| { EntryFrame(w, after, k, j); }
    }
    forall p ensures Newest(after, p) { NewestFrame(w, after, p); }
  }

  lemma NewestHasNoLater(w: World, k: nat)
    requires Inv(w) && k < |w.timers| && w.timers[k].gen == GenOf(w, w.timers[k].peer)
    ensures forall m :: k < m < |w.timers| ==> w.timers[m].peer != w.timers[k].peer
  {
    forall m | k < m < |w.timers| ensures w.timers[m].peer != w.timers[k].peer { assert TimerOk(w, m); }
  }

  lemma SpawnKeepsInv(w: World, k: nat)
    requires Inv(w) && Legal(w, Spawn(k))
    ensures Inv(Do(w, Spawn(k)))
  {
    assert TimerOk(w, k);
    MovedKeepsInv(w, Do(w, Spawn(k)), k);
  }

  lemma WakeKeepsInv(w: World, k: nat)
    requires Inv(w) && Legal(w, Wake(k))
    ensures Inv(Do(w, Wake(k)))
  {
    assert TimerOk(w, k);
    if w.timers[k].gen == GenOf(w, w.timers[k].peer) { NewestHasNoLater(w, k); }
    MovedKeepsInv(w, Do(w, Wake(k)), k);
  }

  lemma OfferKeepsInv(w: World, k: nat)
    requires Inv(w) && Legal(w, Offer(k))
    ensures Inv(Do(w, Offer(k)))
  {
    assert TimerOk(w, k) && WokeNewest(w.timers, k);
    MovedKeepsInv(w, Do(w, Offer(k)), k);
  }

  lemma ScheduleKeepsTimers(w: World, p: Peer)
    requires Inv(w)
    ensures var after := Do(w, Schedule(p));
      && (forall k :: 0 <= k < |after.timers| ==> TimerOk(after, k))
      && Numbered(after.timers)
  {
    var after, n := Do(w, Schedule(p)), |w.timers|;
    forall k | 0 <= k < n ensures TimerOk(after, k) && w.timers[k].born < |w.log| { TimerFrame(w, after, k); }
    forall k | 0 <= k < n && w.timers[k].peer == p ensures w.timers[k].gen <= GenOf(w, p) { assert TimerOk(w, k); }
  }

  lemma ScheduleKeepsWoken(w: World, p: Peer)
    requires Inv(w)
    ensures var after := Do(w, Schedule(p)); forall k :: 0 <= k < |after.timers| ==> WokeNewest(after.timers, k)
  {
    var after := Do(w, Schedule(p));
    forall k | 0 <= k < |after.timers| ensures WokeNewest(after.timers, k) {
      if k < |w.timers| { assert WokeNewest(w.timers, k) && TimerOk(w, k); }
    }
  }

  lemma ScheduleKeepsInv(w: World, p: Peer)
    requires Inv(w)
    ensures Inv(Do(w, Schedule(p)))
  {
    var after := Do(w, Schedule(p));
    ScheduleKeepsTimers(w, p);
    ScheduleKeepsWoken(w, p);
    forall j | 0 <= j < |after.log| ensures EntryOk(after, j) {
      if j < |w.log| { assert EntryOk(w, j); }
    }
    forall q ensures Newest(after, q) {
      if q == p { assert after.timers[|w.timers|].peer == p; } else { NewestFrame(w, after, q); }
    }
  }

  lemma QuietKeepsInv(w: World, after: World)
    requires Inv(w) && after == w.(now := after.now, peers := after.peers) && w.now <= after.now
    ensures Inv(after)
  {
    forall k | 0 <= k < |w.timers| ensures TimerOk(after, k) { TimerFrame(w, after, k); }
    forall j | 0 <= j < |w.log| ensures EntryOk(after, j) { assert EntryOk(w, j); }
    forall p ensures Newest(after, p) { NewestFrame(w, after, p); }
  }

  lemma DoKeepsInv(w: World, step: Step)
    requires Inv(w)
    ensures Inv(Do(w, step))
  {
    if Legal(w, step) {
      match step
      case Spawn(k) => SpawnKeepsInv(w, k);
      case Wake(k) => WakeKeepsInv(w, k);
      case Offer(k) => OfferKeepsInv(w, k);
      case Schedule(p) => ScheduleKeepsInv(w, p);
      case _ => QuietKeepsInv(w, Do(w, step));
    }
  }

  // Whether a peer is in the room after the steps: what it did last decides.
  predicate InRoom(steps: seq<Step>, p: Peer) {
    steps != [] &&
    var last := steps[|steps| - 1];
    if last == Arrive(p) then true else if last == Depart(p) then false else InRoom(steps[..|steps| - 1], p)
  }

  lemma {:induction false} RunKeepsInv(start: int, steps: seq<Step>)
    ensures Inv(After(start, steps))
    ensures start <= After(start, steps).now && forall p :: p in After(start, steps).peers <==> InRoom(steps, p)
  {
    if steps != [] {
      RunKeepsInv(start, steps[..|steps| - 1]);
      DoKeepsInv(After(start, steps[..|steps| - 1]), steps[|steps| - 1]);
    }
  }

  // ---------- The theorems ----------

  // The newest timer of a peer has not finished yet.
  ghost predicate Pending(w: World, p: Peer) {
    exists k :: 0 <= k < |w.timers| && w.timers[k].peer == p && w.timers[k].gen == GenOf(w, p) &&
                (w.timers[k].phase.Spawning? || w.timers[k].phase.Sleeping? || w.timers[k].phase.Cleared?)
  }

  // After place `i` of the log an offer to the peer was tried, or dropped since the peer was gone.
  ghost predicate ServedAfter(w: World, p: Peer, i: nat) {
    exists j :: i < j < |w.log| && (w.log[j].kind.Attempted? || w.log[j].kind.Dropped?) &&
                w.log[j].timer < |w.timers| && w.timers[w.log[j].timer].peer == p
  }

  /** Every schedule is followed by an offer attempt, or by the peer being found gone, unless the
      newest timer of that peer is still pending: no subscription is forgotten. */
  lemma EveryScheduleIsServed(start: int, steps: seq<Step>, k: nat)
    requires k < |After(start, steps).timers|
    ensures var w := After(start, steps); Pending(w, w.timers[k].peer) || ServedAfter(w, w.timers[k].peer, w.timers[k].born)
  {
    var w := After(start, steps);
    RunKeepsInv(start, steps);
    var p := w.timers[k].peer;
    assert TimerOk(w, k) && Newest(w, p);
    var n :| 0 <= n < |w.timers| && w.timers[n].peer == p && w.timers[n].gen == GenOf(w, p);
    assert TimerOk(w, n);
    assert k <= n;
    if w.timers[n].phase.Finished? { assert w.log[w.timers[n].phase.ended].timer == n; }
  }

  /** An offer is only made by a timer that woke, at least a debounce after every schedule of its peer
      up to then, its own being the last of them: a stale timer sends nothing. */
  lemma OffersAreOfTheNewest(start: int, steps: seq<Step>, j: nat)
    requires var w := After(start, steps); j < |w.log| && (w.log[j].kind.Attempted? || w.log[j].kind.Dropped?)
    ensures var w := After(start, steps);
      && w.log[j].timer < |w.timers|
      && var k := w.log[j].timer; var t := w.timers[k];
      && HasWoken(t) && t.phase.woken < j && w.log[t.phase.woken] == Entry(Woken, k, w.log[t.phase.woken].at)
      && (forall l :: 0 <= l < |w.timers| && w.timers[l].peer == t.peer && w.timers[l].born < t.phase.woken ==>
            l <= k && w.timers[l].gen <= t.gen &&
            w.timers[l].born < |w.log| && w.log[w.timers[l].born].at + DEBOUNCE_MS <= w.log[t.phase.woken].at)
  {
    var w := After(start, steps);
    RunKeepsInv(start, steps);
    assert EntryOk(w, j);
    var k := w.log[j].timer;
    assert TimerOk(w, k) && WokeNewest(w.timers, k);
    var t := w.timers[k];
    forall l | 0 <= l < |w.timers| && w.timers[l].peer == t.peer && w.timers[l].born < t.phase.woken
      ensures l <= k && w.timers[l].gen <= t.gen
      ensures w.timers[l].born < |w.log| && w.log[w.timers[l].born].at + DEBOUNCE_MS <= w.log[t.phase.woken].at
    {
      assert TimerOk(w, l);
      assert w.timers[l].born <= t.born;
    }
  }

  /** Two timers of one peer that woke did so a debounce apart or more: a burst of tracks is one
      offer. */
  lemma WakingsAreADebounceApart(start: int, steps: seq<Step>, i: nat, j: nat)
    requires var w := After(start, steps);
      && i < j < |w.log| && w.log[i].kind.Woken? && w.log[j].kind.Woken?
      && w.log[i].timer < |w.timers| && w.log[j].timer < |w.timers|
      && w.timers[w.log[i].timer].peer == w.timers[w.log[j].timer].peer
    ensures var w := After(start, steps); w.log[i].at + DEBOUNCE_MS <= w.log[j].at
  {
    var w := After(start, steps);
    RunKeepsInv(start, steps);
    assert EntryOk(w, i) && EntryOk(w, j);
    var k, l := w.log[i].timer, w.log[j].timer;
    assert TimerOk(w, k) && TimerOk(w, l) && WokeNewest(w.timers, k) && WokeNewest(w.timers, l);
    assert k < l;
    assert w.log[i].at <= w.log[w.timers[l].born].at;
  }

  // No later timer of its peer has been scheduled.
  predicate IsNewest(timers: seq<Timer>, k: nat)
    requires k < |timers|
  {
    forall l :: k < l < |timers| ==> timers[l].peer != timers[k].peer
  }

  lemma NewestIffNoLater(w: World, k: nat)
    requires Inv(w) && k < |w.timers|
    ensures w.timers[k].gen == GenOf(w, w.timers[k].peer) <==> IsNewest(w.timers, k)
  {
    var p := w.timers[k].peer;
    if w.timers[k].gen == GenOf(w, p) { NewestHasNoLater(w, k); }
    if IsNewest(w.timers, k) {
      assert Newest(w, p) && TimerOk(w, k);
      var n :| 0 <= n < |w.timers| && w.timers[n].peer == p && w.timers[n].gen == GenOf(w, p);
      assert n <= k;
    }
  }

  /** A schedule adds the newest timer of its peer, to be started, and is noted. */
  lemma AScheduleAddsTheNewest(start: int, steps: seq<Step>, p: Peer)
    ensures var w, t := After(start, steps), After(start, steps + [Schedule(p)]);
      var k := |w.timers|;
      && |t.timers| == k + 1 && t.timers[..k] == w.timers && t.timers[k].peer == p
      && IsNewest(t.timers, k) && Legal(t, Spawn(k)) && t.log == w.log + [Entry(Scheduled, k, w.now)]
  {
    OneMoreStep(start, steps, Schedule(p));
  }

  /** A timer that wakes goes on exactly when no later one of its peer was scheduled, and is noted then;
      otherwise it stops, and nothing else changes. */
  lemma AWakingDecides(start: int, steps: seq<Step>, k: nat)
    requires Legal(After(start, steps), Wake(k))
    ensures var w, t := After(start, steps), After(start, steps + [Wake(k)]);
      && |t.timers| == |w.timers|
      && (if IsNewest(w.timers, k)
          then t.timers[k].phase.Cleared? && t.log == w.log + [Entry(Woken, k, w.now)]
          else t.timers[k].phase.Stale? && t.log == w.log)
      && t.timers == w.timers[k := w.timers[k].(phase := t.timers[k].phase)]
  {
    RunKeepsInv(start, steps);
    NewestIffNoLater(After(start, steps), k);
    assert (steps + [Wake(k)])[..|steps|] == steps;
  }

  /** A timer that was started sleeps for 300 ms, whatever happens meanwhile: while it sleeps it may wake
      exactly from then on. */
  lemma {:induction false} ATimerSleepsForTheDebounce(start: int, steps: seq<Step>, k: nat, more: seq<Step>)
    requires Legal(After(start, steps), Spawn(k))
    ensures var w, t := After(start, steps), After(start, steps + [Spawn(k)] + more);
      && k < |t.timers|
      && (t.timers[k].phase.Sleeping? ==>
            t.timers[k].phase.due == w.now + 300 && (Legal(t, Wake(k)) <==> t.now >= w.now + 300))
      && !t.timers[k].phase.Spawning?
  {
    var all := steps + [Spawn(k)] + more;
    if more == [] {
      assert all == steps + [Spawn(k)];
      OneMoreStep(start, steps, Spawn(k));
    } else {
      var front := more[..|more| - 1];
      ATimerSleepsForTheDebounce(start, steps, k, front);
      assert all == (steps + [Spawn(k)] + front) + [more[|more| - 1]];
      OneMoreStep(start, steps + [Spawn(k)] + front, more[|more| - 1]);
      SleepsOn(After(start, steps + [Spawn(k)] + front), more[|more| - 1], k);
    }
  }

  /** So a peer is served by its newest timer alone: started, left to sleep, woken and gone on, it makes
      its attempt, or finds the peer gone. */
  lemma TheNewestTimerServes(start: int, steps: seq<Step>, k: nat)
    requires Legal(After(start, steps), Spawn(k)) && IsNewest(After(start, steps).timers, k)
    ensures var w, t := After(start, steps), After(start, steps + [Spawn(k), Pass(300), Wake(k), Offer(k)]);
      t.log == w.log + [Entry(Woken, k, w.now + 300),
                        Entry(if InRoom(steps, w.timers[k].peer) then Attempted else Dropped, k, w.now + 300)]
  {
    var one := steps + [Spawn(k)];
    var two := one + [Pass(300)];
    var three := two + [Wake(k)];
    OneMoreStep(start, steps, Spawn(k));
    OneMoreStep(start, one, Pass(300));
    OneMoreStep(start, two, Wake(k));
    OneMoreStep(start, three, Offer(k));
    assert steps + [Spawn(k), Pass(300), Wake(k), Offer(k)] == three + [Offer(k)];
    RunKeepsInv(start, steps);
    NewestIffNoLater(After(start, steps), k);
    ServedInFour(After(start, steps), k);
  }

  lemma OneMoreStep(start: int, steps: seq<Step>, step: Step)
    ensures After(start, steps + [step]) == Do(After(start, steps), step)
  {
    assert (steps + [step])[..|steps|] == steps;
  }

  // A timer leaves its sleep only by waking.
  lemma SleepsOn(w: World, step: Step, k: nat)
    requires k < |w.timers| && !w.timers[k].phase.Spawning?
    ensures var t := Do(w, step);
      && k < |t.timers| && !t.timers[k].phase.Spawning?
      && (t.timers[k].phase.Sleeping? ==> t.timers[k].phase == w.timers[k].phase)
  {}

  lemma ServedInFour(w: World, k: nat)
    requires Legal(w, Spawn(k)) && w.timers[k].gen == GenOf(w, w.timers[k].peer)
    ensures var t := Do(Do(Do(Do(w, Spawn(k)), Pass(300)), Wake(k)), Offer(k));
      t.log == w.log + [Entry(Woken, k, w.now + 300),
                        Entry(if w.timers[k].peer in w.peers then Attempted else Dropped, k, w.now + 300)]
  {
    var slept := Do(Do(w, Spawn(k)), Pass(300));
    var woken := Do(slept, Wake(k));
    assert woken.timers[k].phase.Cleared? && woken.log == w.log + [Entry(Woken, k, w.now + 300)];
  }

  /** A timer that goes on makes its offer attempt exactly when its peer is in the room; the attempt or
      the drop is recorded once, and the timer is finished. */
  lemma AnOfferIsDroppedOnlyForTheGone(start: int, steps: seq<Step>, k: nat)
    requires Legal(After(start, steps), Offer(k))
    ensures var w := After(start, steps + [Offer(k)]);
      var p := After(start, steps).timers[k].peer;
      && |w.log| == |After(start, steps).log| + 1 && k < |w.timers| && w.timers[k].phase.Finished?
      && (InRoom(steps, p) ==> w.log[|w.log| - 1] == Entry(Attempted, k, w.now))
      && (!InRoom(steps, p) ==> w.log[|w.log| - 1] == Entry(Dropped, k, w.now))
  {
    RunKeepsInv(start, steps);
    assert (steps + [Offer(k)])[..|steps|] == steps;
  }
}
