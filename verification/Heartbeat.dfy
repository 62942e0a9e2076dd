/**
  The heartbeat of one gateway socket, and why its presence never lapses while it is open. The send
  task pings every 15 s and closes the socket once five pings in a row went unanswered; every frame
  of the client resets the count and refreshes the session's fields for 90 s.

  Pings are served on time and Redis answers at once; both are assumptions of the arithmetic.
*/
module Heartbeat {
  import opened Options
  import opened SessionStore
  import opened SessionRuns

  const PING_SECS: nat := 15
  const MAX_MISSED: nat := 4
  const DETECTION_SECS: nat := PING_SECS * (MAX_MISSED + 1)

  // ---------- The send task ----------

  // A frame of the client, and whether it is served before a ping of its own instant: the two tasks
  // may run in either order.
  datatype Heard = Heard(at: Instant, first: bool)

  predicate Precedes(f: Heard, ping: Instant) {
    f.at < ping || (f.at == ping && f.first)
  }

  predicate InOrder(frames: seq<Heard>) {
    forall i, j :: 0 <= i < j < |frames| ==>
      frames[i].at < frames[j].at || (frames[i].at == frames[j].at && (frames[j].first ==> frames[i].first))
  }

  // The frames served before the ping reset the count; the others are still to come.
  method Hear(frames: seq<Heard>, from: nat, ping: Instant) returns (heard: nat)
    requires from <= |frames| && InOrder(frames)
    ensures from <= heard <= |frames|
    ensures forall i :: from <= i < heard ==> Precedes(frames[i], ping)
    ensures forall i :: heard <= i < |frames| ==> !Precedes(frames[i], ping)
  {
    heard := from;
    while heard < |frames| && Precedes(frames[heard], ping)
      invariant from <= heard <= |frames|
      invariant forall i :: from <= i < heard ==> Precedes(frames[i], ping)
    {
      heard := heard + 1;
    }
  }

  // The last instant the client was heard, or the start of the loop.
  function LastHeard(start: Instant, frames: seq<Heard>, heard: nat): (t: Instant)
    requires heard <= |frames|
  {
    if heard == 0 then start else frames[heard - 1].at
  }

  /** Runs the ping loop against a client that sends its frames at the given instants, the loop having
      started at `start`. It closes the socket at a ping with no frame since the four last ones: at least
      60 s and at most 75 s after the client's last word, and exactly 60 s only if that word was served
      at the instant of a ping, just before it; and not before the client has been silent that long. */
  method SendTask(start: Instant, frames: seq<Heard>) returns (closedAt: Instant, heard: nat)
    requires InOrder(frames) && forall i :: 0 <= i < |frames| ==> start <= frames[i].at
    ensures heard <= |frames|
    ensures forall i :: 0 <= i < heard ==> Precedes(frames[i], closedAt)
    ensures forall i :: heard <= i < |frames| ==> !Precedes(frames[i], closedAt)
    ensures var last := LastHeard(start, frames, heard);
      && last + 60 <= closedAt <= last + DETECTION_SECS
      && (closedAt == last + 60 ==> heard > 0 && frames[heard - 1].first)
    ensures forall i :: 0 <= i < heard ==> frames[i].at <= LastHeard(start, frames, i) + DETECTION_SECS
  {
    var ping: Instant, awaiting: nat := start + 15, 0;
    heard := 0;
    while true
      invariant heard <= |frames| && awaiting <= MAX_MISSED
      invariant Waited(LastHeard(start, frames, heard), ping, awaiting, heard > 0 && frames[heard - 1].first)
      invariant forall i :: 0 <= i < heard ==> Precedes(frames[i], ping)
      invariant forall i :: heard <= i < |frames| ==> ping - 15 <= frames[i].at
      invariant InTime(start, frames, heard)
      decreases |frames| - heard, MAX_MISSED - awaiting
    {
      var more := Hear(frames, heard, ping);
      if more > heard {
        HeardInTime(start, frames, heard, more, ping, awaiting);
        awaiting := 0;
      } else {
        StillWaiting(LastHeard(start, frames, heard), ping, awaiting, heard > 0 && frames[heard - 1].first);
      }
      heard := more;
      awaiting := awaiting + 1;
      if awaiting > MAX_MISSED { return ping, heard; }
      ping := ping + 15;
    }
  }

  // With `awaiting` pings sent since the last word, that word lies between the ping before them and the
  // first of them, and at the instant of that first one only if it was served before it.
  predicate Waited(last: Instant, ping: Instant, awaiting: nat, first: bool) {
    && last + 15 * awaiting <= ping <= last + 15 * (awaiting + 1)
    && (ping == last + 15 * awaiting ==> first)
  }

  // No silence before a frame so far was longer than the detection takes.
  ghost predicate InTime(start: Instant, frames: seq<Heard>, heard: nat)
    requires heard <= |frames|
  {
    forall i :: 0 <= i < heard ==> frames[i].at <= LastHeard(start, frames, i) + DETECTION_SECS
  }

  lemma StillWaiting(last: Instant, ping: Instant, awaiting: nat, first: bool)
    requires Waited(last, ping, awaiting, first)
    ensures Waited(last, ping + 15, awaiting + 1, first) && ping <= last + 15 * (awaiting + 1)
  {}

  lemma HeardInTime(start: Instant, frames: seq<Heard>, heard: nat, more: nat, ping: Instant, awaiting: nat)
    requires heard < more <= |frames| && awaiting <= MAX_MISSED && InTime(start, frames, heard)
    requires ping <= LastHeard(start, frames, heard) + 15 * (awaiting + 1)
    requires forall i :: heard <= i < more ==> Precedes(frames[i], ping) && ping - 15 <= frames[i].at
    ensures InTime(start, frames, more)
    ensures Waited(LastHeard(start, frames, more), ping + 15, 1, frames[more - 1].first)
  {
    assert Precedes(frames[more - 1], ping);
    forall i | heard <= i < more ensures frames[i].at <= LastHeard(start, frames, i) + DETECTION_SECS {
      assert Precedes(frames[i], ping);
      if i > heard { assert ping - 15 <= frames[i - 1].at; }
    }
  }

  // ---------- The socket beside every other session of its device ----------

  datatype Phase =
    | Starting                                  // fields written, tasks not running yet
    | Beating(nextPing: Instant, awaiting: nat)
    | Closed

  // `refreshed` is the instant of the last write of the socket's fields; `lead` how long its tasks
  // took to start after the first one, until a frame refreshes it.
  datatype Gateway = Gateway(world: World, f: Field, phase: Phase, refreshed: Instant, lead: nat, caps: Caps)

  datatype Event =
    | Wait(secs: nat)
    | Start
    | Frame
    | Ping
    | Hangup
    | Other(e: SessionRuns.Event)

  ghost function Connect(w: World, f: Field, caps: Caps): (g: Gateway) {
    Gateway(SessionRuns.Apply(w, WriteSession(f, caps)), f, Starting, w.now, 0, caps)
  }

  // Time does not run past a ping that is due, nor past the start of its tasks.
  predicate MayWait(g: Gateway, secs: nat) {
    match g.phase
    case Starting => g.world.now + secs < g.refreshed + PING_SECS
    case Beating(nextPing, _) => g.world.now + secs <= nextPing
    case Closed => true
  }

  // Another session of the device: it neither touches this field nor moves the clock.
  predicate MayHappen(g: Gateway, e: SessionRuns.Event) {
    && !IsOlder(e) && !e.Pass?
    && (e.WriteSession? || e.LeaveSession? ==> e.f != g.f)
  }

  ghost function Apply(g: Gateway, e: Event): (t: Gateway) {
    match e
    case Wait(secs) => if MayWait(g, secs) then g.(world := SessionRuns.Apply(g.world, Pass(secs))) else g
    case Start =>
      if g.phase.Starting? && g.refreshed <= g.world.now
      then g.(phase := Beating(g.world.now + PING_SECS, 0), lead := g.world.now - g.refreshed) else g
    case Frame =>
      if g.phase.Beating? then
        g.(phase := Beating(g.phase.nextPing, 0), refreshed := g.world.now, lead := 0,
           world := SessionRuns.Apply(g.world, WriteSession(g.f, g.caps)))
      else g
    case Ping =>
      if g.phase.Beating? && g.world.now == g.phase.nextPing then
        if g.phase.awaiting + 1 > MAX_MISSED then g.(phase := Closed)
        else g.(phase := Beating(g.phase.nextPing + PING_SECS, g.phase.awaiting + 1))
      else g
    case Hangup => g.(phase := Closed)
    case Other(x) => if MayHappen(g, x) then g.(world := SessionRuns.Apply(g.world, x)) else g
  }

  ghost function RunFrom(g: Gateway, es: seq<Event>): (t: Gateway) {
    if es == [] then g else Apply(RunFrom(g, es[..|es| - 1]), es[|es| - 1])
  }

  // While open: the field expires 90 s after the last refresh, and the next ping falls within the
  // window that refresh and the pings since leave.
  ghost predicate Inv(g: Gateway) {
    && Covered(g.world) && g.f != ""
    && g.refreshed <= g.world.now && g.lead < PING_SECS
    && (!g.phase.Closed? ==>
          && g.f !in g.world.store.left
          && g.f in g.world.store.sessions && g.world.store.sessions[g.f].expiry == g.refreshed + TTL_SECS)
    && (g.phase.Starting? ==> g.world.now < g.refreshed + PING_SECS)
    && (g.phase.Beating? ==>
          && g.phase.awaiting <= MAX_MISSED
          && g.world.now <= g.phase.nextPing <= g.world.now + PING_SECS
          && g.phase.nextPing <= g.refreshed + g.lead + PING_SECS * (g.phase.awaiting + 1)
          && g.refreshed + PING_SECS * g.phase.awaiting <= g.phase.nextPing)
  }

  lemma WaitKeepsInv(g: Gateway, secs: nat)
    requires Inv(g)
    ensures Inv(Apply(g, Wait(secs)))
  {
    ApplyKeepsCovered(g.world, Pass(secs));
  }

  lemma FrameKeepsInv(g: Gateway)
    requires Inv(g)
    ensures Inv(Apply(g, Frame))
  {
    ApplyKeepsCovered(g.world, WriteSession(g.f, g.caps));
  }

  lemma PingKeepsInv(g: Gateway)
    requires Inv(g)
    ensures Inv(Apply(g, Ping))
  {}

  lemma OtherKeepsInv(g: Gateway, x: SessionRuns.Event)
    requires Inv(g)
    ensures Inv(Apply(g, Other(x)))
  {
    if MayHappen(g, x) { ApplyKeepsCovered(g.world, x); }
  }

  lemma ApplyKeepsInv(g: Gateway, e: Event)
    requires Inv(g)
    ensures Inv(Apply(g, e))
  {
    match e
    case Wait(secs) => WaitKeepsInv(g, secs);
    case Frame => FrameKeepsInv(g);
    case Ping => PingKeepsInv(g);
    case Other(x) => OtherKeepsInv(g, x);
    case _ =>
  }

  // A world in which the session `f` is new: no older gateway has been there.
  ghost predicate Fresh(w: World, f: Field) {
    f != "" && Covered(w) && f !in w.store.left
  }

  lemma {:induction false} RunKeepsInv(w: World, f: Field, caps: Caps, es: seq<Event>)
    requires Fresh(w, f)
    ensures Inv(RunFrom(Connect(w, f, caps), es))
  {
    if es == [] {
      ApplyKeepsCovered(w, WriteSession(f, caps));
    } else {
      RunKeepsInv(w, f, caps, es[..|es| - 1]);
      ApplyKeepsInv(RunFrom(Connect(w, f, caps), es[..|es| - 1]), es[|es| - 1]);
    }
  }

  /** Whatever the other sessions of the device do, an open socket's field is live, its twin too, and
      the device is present; and a client silent since its last refresh is never kept longer than the
      detection window of 75 s, plus the time its tasks took to start if it never spoke. */
  lemma AnOpenSocketIsPresent(w: World, f: Field, caps: Caps, es: seq<Event>)
    requires Fresh(w, f) && Twins(w.store)
    ensures var g := RunFrom(Connect(w, f, caps), es);
      !g.phase.Closed? ==>
        && HasLive(g.world.store.sessions, f, g.world.now)
        && HasLive(g.world.store.joinAsk, f, g.world.now)
        && Read(g.world.store.presence, g.world.now) == Some(PRESENCE_SESSIONS)
        && g.world.now <= g.refreshed + DETECTION_SECS + g.lead < g.refreshed + TTL_SECS
  {
    RunKeepsInv(w, f, caps, es);
    RunKeepsTwins(w, f, caps, es);
  }

  lemma {:induction false} RunKeepsTwins(w: World, f: Field, caps: Caps, es: seq<Event>)
    requires Twins(w.store)
    ensures Twins(RunFrom(Connect(w, f, caps), es).world.store)
    ensures RunFrom(Connect(w, f, caps), es).f == f
  {
    if es == [] {
      ApplyKeepsTwins(w, WriteSession(f, caps));
    } else {
      RunKeepsTwins(w, f, caps, es[..|es| - 1]);
      var g := RunFrom(Connect(w, f, caps), es[..|es| - 1]);
      match es[|es| - 1]
      case Wait(secs) => ApplyKeepsTwins(g.world, Pass(secs));
      case Frame => ApplyKeepsTwins(g.world, WriteSession(g.f, g.caps));
      case Other(x) => ApplyKeepsTwins(g.world, x);
      case _ =>
    }
  }

  /** The phases of a socket: its tasks start within 15 s and ping 15 s later; a ping that is not the last
      is one more unanswered and is followed by the next after 15 s; a frame leaves none unanswered and
      refreshes the session at once. */
  lemma ThePhasesOfASocket(w: World, f: Field, caps: Caps, es: seq<Event>, secs: nat)
    requires Fresh(w, f)
    ensures var g := RunFrom(Connect(w, f, caps), es);
      && (MayWait(g, secs) ==> Apply(g, Wait(secs)).world.now == g.world.now + secs)
      && (g.phase.Starting? ==> Apply(g, Start).phase == Beating(g.world.now + 15, 0))
      && (g.phase.Beating? ==> Apply(g, Frame).phase == Beating(g.phase.nextPing, 0) &&
                               Apply(g, Frame).refreshed == g.world.now)
      && (g.phase.Beating? && g.world.now == g.phase.nextPing && g.phase.awaiting < 4 ==>
            Apply(g, Ping).phase == Beating(g.phase.nextPing + 15, g.phase.awaiting + 1))
      && (g.phase.Beating? && g.world.now == g.phase.nextPing && g.phase.awaiting == 4 ==> Apply(g, Ping).phase.Closed?)
  {
    RunKeepsInv(w, f, caps, es);
  }

  /** The heartbeat closes the socket at a ping at least 60 s and at most 75 s (and its tasks' lead) after
      the last refresh, at which instant its fields have still not expired. */
  lemma TheClosingPingIsInTime(w: World, f: Field, caps: Caps, es: seq<Event>)
    requires Fresh(w, f)
    ensures var g := RunFrom(Connect(w, f, caps), es);
      var t := Apply(g, Ping);
      !g.phase.Closed? && t.phase.Closed? ==>
        && g.refreshed + 60 <= t.world.now <= g.refreshed + 75 + g.lead
        && HasLive(t.world.store.sessions, g.f, t.world.now)
  {
    RunKeepsInv(w, f, caps, es);
  }
}
