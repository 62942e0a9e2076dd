/**
  Every interleaving of sessions, on any number of gateway processes, over the shared record of one
  device. Each event is one script run by some process, an older gateway's own write, or the passing
  of time; refreshes may still be in flight when their session is retired.
*/
module SessionRuns {
  import opened Options
  import opened SessionStore

  // The one ttl every call of the gateway passes.
  const TTL_SECS: nat := 90
  const TTL := Number(90.0)

  // What a session declared on its socket.
  datatype Caps = Caps(addressedHistory: bool, joinAsk: bool)

  function HistoryValue(c: Caps): string { if c.addressedHistory then ADDRESSED_HISTORY else UNDECLARED }
  function JoinAskValue(c: Caps): string { if c.joinAsk then JOIN_ASK else UNDECLARED }

  datatype Event =
    | Pass(secs: nat)
    | WriteSession(f: Field, caps: Caps)
    | LeaveSession(f: Field)
    | AskAgain
    | NoteClient(value: string)
    | OlderGatewaySets(secs: nat)
    | OlderGatewayDeletes

  // The record, the clock of Redis, and two facts of the past: the sessions that ever wrote, and
  // when each session was first retired.
  datatype World = World(store: Store, now: Instant, written: set<Field>, retiredAt: map<Field, Instant>)

  const INIT := World(EMPTY, 0, {}, map[])

  ghost function Apply(w: World, e: Event): (t: World) {
    match e
    case Pass(secs) => w.(now := w.now + secs)
    case WriteSession(f, caps) =>
      if f == "" then w
      else w.(store := Write(w.store, w.now, f, HistoryValue(caps), TTL, JoinAskValue(caps)).0, written := w.written + {f})
    case LeaveSession(f) =>
      if f == "" then w
      else w.(store := Leave(w.store, w.now, f, TTL).0,
              retiredAt := if f in w.retiredAt then w.retiredAt else w.retiredAt[f := w.now])
    case AskAgain => w.(store := Leave(w.store, w.now, "", TTL).0)
    case NoteClient(v) => w.(store := w.store.(client := Some(Entry(v, w.now + TTL_SECS))))
    case OlderGatewaySets(secs) => w.(store := w.store.(presence := Some(Entry(PRESENCE_OLDER, w.now + secs))))
    case OlderGatewayDeletes => w.(store := w.store.(presence := None))
  }

  ghost function Run(es: seq<Event>): (w: World) {
    if es == [] then INIT else Apply(Run(es[..|es| - 1]), es[|es| - 1])
  }

  predicate IsOlder(e: Event) {
    e.OlderGatewaySets? || e.OlderGatewayDeletes?
  }

  // No older gateway takes part.
  predicate Uniform(es: seq<Event>) {
    forall i :: 0 <= i < |es| ==> !IsOlder(es[i])
  }

  // A write that comes after its session was retired comes less than one ttl after.
  ghost predicate InTime(w: World, e: Event) {
    e.WriteSession? && e.f in w.retiredAt ==> w.now < w.retiredAt[e.f] + TTL_SECS
  }

  ghost predicate Timely(es: seq<Event>) {
    forall i :: 0 <= i < |es| ==> InTime(Run(es[..i]), es[i])
  }

  // ---------- The invariants ----------

  // A retired session is in neither hash, and its name is held for a ttl from its retirement.
  ghost predicate RetiredOk(w: World, f: Field) {
    f in w.retiredAt ==>
      && w.retiredAt[f] <= w.now && f !in w.store.sessions && f !in w.store.joinAsk
      && f in w.store.left && w.store.left[f].expiry >= w.retiredAt[f] + TTL_SECS
  }

  ghost predicate Inv(w: World) {
    && (forall f :: RetiredOk(w, f))
    && w.store.sessions.Keys <= w.written
    && (w.store.presence.Some? && w.store.presence.value.value == PRESENCE_SESSIONS ==> exists f :: f in w.store.sessions)
  }

  lemma ApplyKeepsInv(w: World, e: Event)
    requires Inv(w) && InTime(w, e)
    ensures Inv(Apply(w, e))
  {
    var t := Apply(w, e);
    forall f ensures RetiredOk(t, f) { assert RetiredOk(w, f); }
    if e.WriteSession? && e.f in t.store.sessions { assert exists f :: f in t.store.sessions; }
  }

  lemma {:induction false} RunKeepsInv(es: seq<Event>)
    requires Timely(es)
    ensures Inv(Run(es))
  {
    if es != [] {
      var front := es[..|es| - 1];
      assert forall i :: 0 <= i < |front| ==> front[..i] == es[..i];
      RunKeepsInv(front);
      ApplyKeepsInv(Run(front), es[|es| - 1]);
    }
  }

  // The two hashes hold the same fields, with the same expiries, and only values they may hold.
  ghost predicate Twins(s: Store) {
    && s.sessions.Keys == s.joinAsk.Keys
    && forall f :: f in s.sessions ==>
         && s.sessions[f].expiry == s.joinAsk[f].expiry
         && (s.sessions[f].value == ADDRESSED_HISTORY || s.sessions[f].value == UNDECLARED)
         && (s.joinAsk[f].value == JOIN_ASK || s.joinAsk[f].value == UNDECLARED)
  }

  // No field outlives the presence key, which is this gateway's.
  ghost predicate Covered(w: World) {
    && (w.store.presence.Some? ==> w.store.presence.value.value == PRESENCE_SESSIONS)
    && forall f :: f in w.store.sessions ==>
         && w.store.sessions[f].expiry <= w.now + TTL_SECS
         && (Live(w.store.sessions[f], w.now) ==>
               w.store.presence.Some? && w.store.presence.value.expiry >= w.store.sessions[f].expiry)
  }

  lemma ApplyKeepsTwins(w: World, e: Event)
    requires Twins(w.store)
    ensures Twins(Apply(w, e).store)
  {}

  lemma ApplyKeepsCovered(w: World, e: Event)
    requires Covered(w) && !IsOlder(e)
    ensures Covered(Apply(w, e))
  {
    if e.LeaveSession? || e.AskAgain? {
      var t := Apply(w, e);
      forall f | f in t.store.sessions ensures f in w.store.sessions && t.store.sessions[f] == w.store.sessions[f] {}
    }
  }

  // ---------- The hashes are the history ----------

  ghost function Clock(es: seq<Event>): (now: Instant) {
    if es == [] then 0
    else Clock(es[..|es| - 1]) + if es[|es| - 1].Pass? then es[|es| - 1].secs else 0
  }

  // When the session was last retired.
  ghost function LastLeft(es: seq<Event>, f: Field): (t: Option<Instant>) {
    if es == [] then None
    else
      var front, last := es[..|es| - 1], es[|es| - 1];
      if last == LeaveSession(f) then Some(Clock(front)) else LastLeft(front, f)
  }

  datatype Declaration = Declaration(caps: Caps, at: Instant)

  // What the session last declared since it was retired, in a write that came not within a ttl after.
  ghost function LastDeclared(es: seq<Event>, f: Field): (d: Option<Declaration>) {
    if es == [] then None
    else
      var front, last := es[..|es| - 1], es[|es| - 1];
      match last
      case WriteSession(g, caps) =>
        if g == f && (LastLeft(front, f).None? || LastLeft(front, f).value + 90 <= Clock(front))
        then Some(Declaration(caps, Clock(front))) else LastDeclared(front, f)
      case LeaveSession(g) => if g == f then None else LastDeclared(front, f)
      case _ => LastDeclared(front, f)
  }

  // The two fields of a session say what it declared, in the words of the two hashes, for 90 s; and its
  // name is held for 90 s from its retirement.
  ghost predicate FieldIs(s: Store, f: Field, d: Option<Declaration>, left: Option<Instant>) {
    && (f in s.sessions <==> d.Some?) && (f in s.joinAsk <==> d.Some?)
    && (d.Some? ==>
          && s.sessions[f] == Entry(if d.value.caps.addressedHistory then "addressed-history-1" else "-", d.value.at + 90)
          && s.joinAsk[f] == Entry(if d.value.caps.joinAsk then "join-ask-1" else "-", d.value.at + 90))
    && (f in s.left <==> left.Some?) && (left.Some? ==> s.left[f].expiry == left.value + 90)
  }

  lemma TtlIsNinety()
    ensures WholePositive(TTL) && Seconds(TTL) == 90
  {}

  lemma WriteIsDeclared(w: World, f: Field, g: Field, caps: Caps, d: Option<Declaration>, left: Option<Instant>)
    requires f != "" && FieldIs(w.store, f, d, left)
    ensures FieldIs(Apply(w, WriteSession(g, caps)).store, f,
                    if g == f && (left.None? || left.value + 90 <= w.now) then Some(Declaration(caps, w.now)) else d, left)
  {
    TtlIsNinety();
  }

  lemma LeaveIsDeclared(w: World, f: Field, g: Field, d: Option<Declaration>, left: Option<Instant>)
    requires f != "" && FieldIs(w.store, f, d, left)
    ensures FieldIs(Apply(w, LeaveSession(g)).store, f, if g == f then None else d, if g == f then Some(w.now) else left)
  {
    TtlIsNinety();
  }

  /** In every run, older gateways and late refreshes included, a session's two fields are exactly its last
      declaration that was taken since it was retired: each hash says what that hash is about, for 90 s
      from that write. A session that declared nothing since, or whose write came within a ttl of its
      retirement, has neither. */
  lemma {:induction false} TheFieldsAreTheDeclaration(es: seq<Event>, f: Field)
    requires f != ""
    ensures Run(es).now == Clock(es)
    ensures FieldIs(Run(es).store, f, LastDeclared(es, f), LastLeft(es, f))
  {
    if es != [] {
      var front, last := es[..|es| - 1], es[|es| - 1];
      TheFieldsAreTheDeclaration(front, f);
      var w, d, left := Run(front), LastDeclared(front, f), LastLeft(front, f);
      match last
      case WriteSession(g, caps) => WriteIsDeclared(w, f, g, caps, d, left);
      case LeaveSession(g) => LeaveIsDeclared(w, f, g, d, left);
      case _ =>
    }
  }

  // ---------- Theorems about every run ----------

  /** A retired session is never brought back, in either hash, however many refreshes were in flight. */
  lemma RetiredIsNeverBroughtBack(es: seq<Event>, f: Field)
    requires Timely(es) && f in Run(es).retiredAt
    ensures f !in Run(es).store.sessions && f !in Run(es).store.joinAsk
  {
    RunKeepsInv(es);
    assert RetiredOk(Run(es), f);
  }

  /** Once every session that wrote has retired, nothing of them is left: no field, no twin, and no
      presence but one an older gateway wrote. */
  lemma AllRetiredLeavesNothing(es: seq<Event>)
    requires Timely(es) && Run(es).written <= Run(es).retiredAt.Keys
    ensures Run(es).store.sessions == map[] && Run(es).store.joinAsk == map[]
    ensures Uniform(es) ==> Run(es).store.presence.None?
    ensures Run(es).store.presence.Some? ==> Run(es).store.presence.value.value == PRESENCE_OLDER
  {
    RunKeepsInv(es);
    var w := Run(es);
    forall f ensures f !in w.store.sessions { assert RetiredOk(w, f); }
    TwinsAgree(es);
    PresenceIsNamed(es);
    if Uniform(es) { LiveFieldsAreCovered(es); }
  }

  lemma PresenceStaysNamed(w: World, e: Event)
    ensures Apply(w, e).store.presence.Some? ==>
      || Apply(w, e).store.presence == w.store.presence
      || Apply(w, e).store.presence.value.value in {PRESENCE_SESSIONS, PRESENCE_OLDER}
  {}

  lemma {:induction false} PresenceIsNamed(es: seq<Event>)
    ensures var p := Run(es).store.presence;
      p.Some? ==> p.value.value == PRESENCE_SESSIONS || p.value.value == PRESENCE_OLDER
  {
    if es != [] {
      PresenceIsNamed(es[..|es| - 1]);
      PresenceStaysNamed(Run(es[..|es| - 1]), es[|es| - 1]);
    }
  }

  /** The sessions hash and the join-ask hash always hold the same fields, each pair expiring at the
      same instant, and each value its hash's capability or the undeclared marker. */
  lemma {:induction false} TwinsAgree(es: seq<Event>)
    ensures Twins(Run(es).store)
  {
    if es != [] {
      TwinsAgree(es[..|es| - 1]);
      ApplyKeepsTwins(Run(es[..|es| - 1]), es[|es| - 1]);
    }
  }

  /** With one ttl and no older gateway, a device with a live session is present: its presence key
      holds this gateway's marker and expires no earlier than any live field. */
  lemma {:induction false} LiveFieldsAreCovered(es: seq<Event>)
    requires Uniform(es)
    ensures Covered(Run(es))
  {
    if es != [] {
      LiveFieldsAreCovered(es[..|es| - 1]);
      ApplyKeepsCovered(Run(es[..|es| - 1]), es[|es| - 1]);
    }
  }

  /** With older gateways in the run, no event of this gateway changes or deletes their `true`. */
  lemma OlderTrueSurvivesThisGateway(w: World, e: Event)
    requires Read(w.store.presence, w.now) == Some(PRESENCE_OLDER) && !IsOlder(e)
    ensures Apply(w, e).store.presence == w.store.presence
  {}

  /** The bound on late refreshes is the exact one: a refresh a full ttl late brings its session
      back, and the device is left present with nobody retiring it. */
  lemma ALateRefreshBringsItBack(f: Field, caps: Caps)
    requires f != ""
    ensures var es := [WriteSession(f, caps), LeaveSession(f), Pass(TTL_SECS), WriteSession(f, caps)];
      !Timely(es) && Run(es).written <= Run(es).retiredAt.Keys && HasLive(Run(es).store.sessions, f, Run(es).now)
  {
    var e1, e2, e3 := WriteSession(f, caps), LeaveSession(f), Pass(TTL_SECS);
    var es := [e1, e2, e3, e1];
    assert es[..0] == [] && es[..1] == [e1] && es[..2] == [e1, e2] && es[..3] == [e1, e2, e3];
    assert [e1, e2, e3][..2] == [e1, e2] && [e1, e2][..1] == [e1] && [e1][..0] == [];
    assert Run([e1]) == Apply(INIT, e1);
    assert Run([e1, e2]) == Apply(Run([e1]), e2);
    assert Run([e1, e2, e3]) == Apply(Run([e1, e2]), e3);
    assert Run(es) == Apply(Run([e1, e2, e3]), e1);
    assert !InTime(Run(es[..3]), es[3]);
  }
}
