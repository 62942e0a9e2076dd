/**
  The shared record of one device's sessions, and the two scripts that change it. A field or key
  carries the instant it expires at; expired ones are never seen again, so keeping them in the map
  is harmless. Redis runs each script alone, so a script is one step.
*/
module SessionStore {
  import opened Options

  type Instant = nat
  type Field = string

  const ADDRESSED_HISTORY := "addressed-history-1"
  const JOIN_ASK := "join-ask-1"
  const UNDECLARED := "-"
  const PRESENCE_SESSIONS := "sessions-1"
  const PRESENCE_OLDER := "true"

  datatype Entry = Entry(value: string, expiry: Instant)

  predicate Live(e: Entry, now: Instant) {
    now < e.expiry
  }

  // The keys of one device: its presence, its sessions, their join-ask twins, the sessions that
  // left, and what its client declared.
  datatype Store = Store(presence: Option<Entry>, sessions: map<Field, Entry>, joinAsk: map<Field, Entry>,
                         left: map<Field, Entry>, client: Option<Entry>)

  const EMPTY := Store(None, map[], map[], map[], None)

  // A script's argument read as a number: it may be none, or a fractional one.
  datatype Number = NotANumber | Number(value: real)

  predicate WholePositive(ttl: Number) {
    ttl.Number? && ttl.value >= 1.0 && ttl.value == ttl.value.Floor as real
  }

  function Seconds(ttl: Number): (n: nat)
    requires WholePositive(ttl)
    ensures n >= 1
  {
    ttl.value.Floor
  }

  datatype Reply = Error | Zero | One

  // What `GET` answers.
  function Read(key: Option<Entry>, now: Instant): (v: Option<string>) {
    if key.Some? && Live(key.value, now) then Some(key.value.value) else None
  }

  predicate HasLive(hash: map<Field, Entry>, f: Field, now: Instant) {
    f in hash && Live(hash[f], now)
  }

  ghost predicate NoneLive(hash: map<Field, Entry>, now: Instant) {
    forall f :: f in hash ==> !Live(hash[f], now)
  }

  // The arguments of a write are in order: a name, a whole positive ttl, and in each hash that
  // hash's capability or the undeclared marker.
  predicate WriteAccepted(f: Field, history: string, ttl: Number, joinAsk: string) {
    && f != "" && WholePositive(ttl)
    && (history == ADDRESSED_HISTORY || history == UNDECLARED)
    && (joinAsk == JOIN_ASK || joinAsk == UNDECLARED)
  }

  // ---------- What the two scripts do ----------

  ghost function Write(s: Store, now: Instant, f: Field, history: string, ttl: Number, joinAsk: string)
    : (r: (Store, Reply))
  {
    if !WriteAccepted(f, history, ttl, joinAsk) then (s, Error)
    else if HasLive(s.left, f, now) then (s, Zero)
    else
      var expiry := now + Seconds(ttl);
      (s.(sessions := s.sessions[f := Entry(history, expiry)],
          joinAsk := s.joinAsk[f := Entry(joinAsk, expiry)],
          presence := if Read(s.presence, now) == Some(PRESENCE_OLDER) then s.presence
                      else Some(Entry(PRESENCE_SESSIONS, expiry))),
       One)
  }

  // `f == ""` retires nobody and only asks again whether the device is still there.
  ghost function Leave(s: Store, now: Instant, f: Field, ttl: Number): (r: (Store, Reply)) {
    if !WholePositive(ttl) then (s, Error)
    else
      var gone := if f == "" then s
                  else s.(left := s.left[f := Entry("1", now + Seconds(ttl))],
                          sessions := s.sessions - {f}, joinAsk := s.joinAsk - {f});
      if NoneLive(gone.sessions, now) && Read(gone.presence, now) != Some(PRESENCE_OLDER)
      then (gone.(presence := None, client := None), One)
      else (gone, One)
  }

  // ---------- The scripts, key by key ----------

  class DeviceStore {
    var presence: Option<Entry>
    var sessions: map<Field, Entry>
    var joinAsk: map<Field, Entry>
    var left: map<Field, Entry>
    var client: Option<Entry>

    function State(): (s: Store)
      reads this
    {
      Store(presence, sessions, joinAsk, left, client)
    }

    constructor ()
      ensures State() == EMPTY
    {
      presence, sessions, joinAsk, left, client := None, map[], map[], map[], None;
    }

    method WriteSession(now: Instant, f: Field, history: string, ttl: Number, joinAskValue: string) returns (reply: Reply)
      modifies this
      ensures (State(), reply) == Write(old(State()), now, f, history, ttl, joinAskValue)
      ensures reply != One ==> State() == old(State())
    {
      if f == "" || !WholePositive(ttl) { return Error; }
      if history != ADDRESSED_HISTORY && history != UNDECLARED { return Error; }
      if joinAskValue != JOIN_ASK && joinAskValue != UNDECLARED { return Error; }
      if HasLive(left, f, now) { return Zero; }
      sessions := sessions[f := Entry(history, now + Seconds(ttl))];
      joinAsk := joinAsk[f := Entry(joinAskValue, now + Seconds(ttl))];
      if Read(presence, now) != Some(PRESENCE_OLDER) {
        presence := Some(Entry(PRESENCE_SESSIONS, now + Seconds(ttl)));
      }
      return One;
    }

    // How many fields of the sessions hash `HKEYS` lists, counted down to whether there is one.
    method AnyLive(now: Instant) returns (any: bool)
      ensures any <==> !NoneLive(sessions, now)
    {
      var fields := sessions.Keys;
      while fields != {}
        invariant fields <= sessions.Keys
        invariant forall f :: f in sessions && f !in fields ==> !Live(sessions[f], now)
        decreases |fields|
      {
        var f :| f in fields;
        if Live(sessions[f], now) { return true; }
        fields := fields - {f};
      }
      return false;
    }

    method LeaveSession(now: Instant, f: Field, ttl: Number) returns (reply: Reply)
      modifies this
      ensures (State(), reply) == Leave(old(State()), now, f, ttl)
    {
      if !WholePositive(ttl) { return Error; }
      if f != "" {
        left := left[f := Entry("1", now + Seconds(ttl))];
        sessions := sessions - {f};
        joinAsk := joinAsk - {f};
      }
      var any := AnyLive(now);
      if !any && Read(presence, now) != Some(PRESENCE_OLDER) {
        presence := None;
        client := None;
      }
      return One;
    }
  }

  // ---------- One call ----------

  /** A script that is refused changes nothing, and so does a write of a session that left. */
  lemma RefusedChangesNothing(s: Store, now: Instant, f: Field, history: string, ttl: Number, joinAsk: string)
    ensures Write(s, now, f, history, ttl, joinAsk).1 != One ==> Write(s, now, f, history, ttl, joinAsk).0 == s
    ensures Leave(s, now, f, ttl).1 != One ==> Leave(s, now, f, ttl).0 == s
    ensures Write(s, now, f, history, ttl, joinAsk).1 == One <==>
      WriteAccepted(f, history, ttl, joinAsk) && !HasLive(s.left, f, now)
  {}

  /** A write that is taken leaves in each hash the value that hash was given, for one ttl, and the
      presence this gateway's for as long, unless an older gateway's `true` lives; nothing else changes. */
  lemma WhatAWriteLeaves(s: Store, now: Instant, f: Field, history: string, ttl: Number, joinAsk: string)
    requires Write(s, now, f, history, ttl, joinAsk).1 == One
    ensures var t := Write(s, now, f, history, ttl, joinAsk).0;
      && WholePositive(ttl)
      && t.sessions.Keys == s.sessions.Keys + {f} && t.joinAsk.Keys == s.joinAsk.Keys + {f}
      && t.sessions[f] == Entry(history, now + Seconds(ttl)) && t.joinAsk[f] == Entry(joinAsk, now + Seconds(ttl))
      && (forall g :: g in s.sessions && g != f ==> t.sessions[g] == s.sessions[g])
      && (forall g :: g in s.joinAsk && g != f ==> t.joinAsk[g] == s.joinAsk[g])
      && (Read(s.presence, now) != Some("true") ==> t.presence == Some(Entry("sessions-1", now + Seconds(ttl))))
      && t.left == s.left && t.client == s.client
  {}

  /** An older gateway's `true` is never changed nor deleted by either script while it lives. */
  lemma OlderPresenceIsKept(s: Store, now: Instant, f: Field, history: string, ttl: Number, joinAsk: string)
    requires Read(s.presence, now) == Some(PRESENCE_OLDER)
    ensures Write(s, now, f, history, ttl, joinAsk).0.presence == s.presence
    ensures Leave(s, now, f, ttl).0.presence == s.presence
  {}

  /** A retired session can be written again exactly from one ttl after its retirement on. */
  lemma RefreshAfterRetirement(s: Store, now: Instant, f: Field, ttl: Number, later: Instant,
                               history: string, joinAsk: string)
    requires WholePositive(ttl) && f != "" && WriteAccepted(f, history, ttl, joinAsk) && now <= later
    ensures var gone := Leave(s, now, f, ttl).0;
      var (t, reply) := Write(gone, later, f, history, ttl, joinAsk);
      && !HasLive(gone.sessions, f, now) && !HasLive(gone.joinAsk, f, now)
      && (HasLive(t.sessions, f, later) <==> later >= now + Seconds(ttl))
      && (later < now + Seconds(ttl) ==> t == gone && reply == Zero)
  {}

  /** A retirement takes the presence, and with it what the client declared, exactly when no other
      session lives and no older gateway's `true` does; otherwise both stay as they were. The other
      sessions are untouched either way. */
  lemma PresenceGoesWithTheLastSession(s: Store, now: Instant, f: Field, ttl: Number)
    requires WholePositive(ttl)
    ensures var t := Leave(s, now, f, ttl).0;
      var stays := (exists g :: g != f && HasLive(s.sessions, g, now)) || (f == "" && HasLive(s.sessions, f, now)) ||
                   Read(s.presence, now) == Some(PRESENCE_OLDER);
      && (if stays then t.presence == s.presence && t.client == s.client else t.presence.None? && t.client.None?)
      && forall g :: g != f ==> (HasLive(t.sessions, g, now) <==> HasLive(s.sessions, g, now))
  {
    var t := Leave(s, now, f, ttl).0;
    forall g ensures HasLive(t.sessions, g, now) <==> HasLive(s.sessions, g, now) && (g != f || f == "") {}
    if g :| g in t.sessions && Live(t.sessions[g], now) { assert HasLive(t.sessions, g, now); }
    if g :| g != f && HasLive(s.sessions, g, now) { assert HasLive(t.sessions, g, now); }
  }
}
