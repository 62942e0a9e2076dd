/**
  What the `resumed` flag of a pairing means: a room remembers whether it ever held both parties
  present since it was created, and a resume tells exactly that. A join that pairs does not: it always
  tells `false`, which is the room's history only where the room never held both.
*/
module CallHistory {
  import opened Options
  import opened Seating
  import opened RoomMap
  import opened CallService

  // The room maps along a run.
  ghost function Trace(es: seq<Event>): (trace: seq<Rooms>) {
    seq(|es| + 1, j requires 0 <= j <= |es| => Run(es[..j]).rooms)
  }

  // Whether the room `r`, in its present life, held both parties present at some moment of the run.
  ghost predicate HeldBoth(es: seq<Event>, r: RoomId) {
    HeldBothIn(Trace(es), r)
  }

  lemma ApplyStepsTheFlag(s: Service, e: Event, r: RoomId)
    requires Inv(s)
    ensures FlagStepAt(s.rooms, Apply(s, e).rooms, r)
  {
    var nobody := Peer(0, 0, 0);
    HandlersStepTheFlag(s.rooms, 0, nobody, 0, r);
    match e
    case Connect(_) =>
    case RelayFrame(_, _) =>
    case JoinFrame(p, room, group) =>
      if MayJoin(s, p) { HandlersStepTheFlag(s.rooms, room, Peer(p, s.sockets[p].user, group), 0, r); }
    case ResumeFrame(p, room, group, seat) =>
      if MayJoin(s, p) { HandlersStepTheFlag(s.rooms, room, Peer(p, s.sockets[p].user, group), seat, r); }
    case SocketEnds(p, _) =>
      if p < |s.sockets| && s.sockets[p].session.Some? {
        HandlersStepTheFlag(s.rooms, s.sockets[p].session.value.room, nobody, p, r);
      }
    case GraceEnds(room, p) => HandlersStepTheFlag(s.rooms, room, nobody, p, r);
  }

  lemma TraceSteps(es: seq<Event>, r: RoomId, j: nat)
    requires j < |es|
    ensures FlagStepAt(Trace(es)[j], Trace(es)[j + 1], r)
  {
    assert es[..j + 1][..j] == es[..j];
    ApplyStepsTheFlag(Run(es[..j]), es[j], r);
  }

  /** The flag of a room is exactly its history: it is set iff the room held both parties present
      at some moment since it was last created. */
  lemma PairedOnceIsHistory(es: seq<Event>, r: RoomId)
    requires r in Run(es).rooms
    ensures Run(es).rooms[r].pairedOnce <==> HeldBoth(es, r)
  {
    var trace := Trace(es);
    forall j | 0 <= j < |es| ensures FlagStepAt(trace[j], trace[j + 1], r) { TraceSteps(es, r, j); }
    assert es[..|es|] == es;
    FlagIsHistory(trace, r);
  }

  // What a resume that finds its partner present tells the two of them.
  ghost predicate ToldResumed(t: Service, p: PeerId, partner: PeerId, initiator: bool, resumed: bool) {
    && p < |t.sockets| && partner < |t.sockets|
    && LastTold(t.sockets[p].inbox) == Ready(initiator, resumed)
    && LastTold(t.sockets[partner].inbox) == Ready(!initiator, resumed)
  }

  lemma ResumeTellsTheFlag(s: Service, p: PeerId, room: RoomId, group: GroupId, seat: PeerId)
    requires Inv(s) && MayJoin(s, p)
    ensures var o := ResumeAt(s.rooms, room, seat, Peer(p, s.sockets[p].user, group)).1;
      o.Resumed? && o.partner.Present? ==>
        && room in s.rooms
        && ToldResumed(HandleResume(s, p, room, group, seat), p, o.partner.partner.id, o.partner.iAmInitiator,
                       s.rooms[room].pairedOnce)
  {
    var peer := Peer(p, s.sockets[p].user, group);
    var o := ResumeAt(s.rooms, room, seat, peer).1;
    if o.Resumed? && o.partner.Present? {
      JoinerHoldsNoSeat(s, p, room);
      ResumeNamesHold(s.sockets, room, s.rooms[room], seat, peer);
      ResumeSendsFacts(s.sockets, p, Session(room, group), o.replaced, o.partner);
    }
  }

  /** A resume that finds its partner present tells both `resumed` exactly when the room had held
      both parties present before: a pair that never met builds its connection from nothing. */
  lemma ResumedIsHistory(es: seq<Event>, p: PeerId, room: RoomId, group: GroupId, seat: PeerId)
    requires MayJoin(Run(es), p)
    ensures var s := Run(es);
      var o := ResumeAt(s.rooms, room, seat, Peer(p, s.sockets[p].user, group)).1;
      o.Resumed? && o.partner.Present? ==>
        ToldResumed(Run(es + [ResumeFrame(p, room, group, seat)]), p, o.partner.partner.id, o.partner.iAmInitiator,
                    HeldBoth(es, room))
  {
    assert (es + [ResumeFrame(p, room, group, seat)])[..|es|] == es;
    ResumeTellsTheFlag(Run(es), p, room, group, seat);
    if room in Run(es).rooms { PairedOnceIsHistory(es, room); }
  }

  // ---------- What a join tells ----------

  lemma JoinTellsNotResumed(s: Service, p: PeerId, room: RoomId, group: GroupId)
    requires Inv(s) && MayJoin(s, p)
    ensures var o := JoinAt(s.rooms, room, Peer(p, s.sockets[p].user, group)).1;
      o.Paired? ==> room in s.rooms && ToldResumed(HandleJoin(s, p, room, group), p, o.initiator.id, false, false)
  {
    var seats, peer := Find(s.rooms, room), Peer(p, s.sockets[p].user, group);
    var o := Join(seats, peer).1;
    if o.Paired? {
      JoinerHoldsNoSeat(s, p, room);
      assert SeatsOk(s.sockets, room, seats);
      JoinNamesHold(s.sockets, room, seats, peer);
      JoinSendsFacts(s.sockets, p, Session(room, group), o);
    }
  }

  /** A join that pairs tells both parties `resumed: false`, whatever the room's past; so what it tells
      is the room's history exactly when the room's flag is unset before the join, that is when the
      room never held both parties present. */
  lemma JoinedIsHistoryIff(es: seq<Event>, p: PeerId, room: RoomId, group: GroupId)
    requires MayJoin(Run(es), p)
    ensures var s, t := Run(es), Run(es + [JoinFrame(p, room, group)]);
      var o := JoinAt(s.rooms, room, Peer(p, s.sockets[p].user, group)).1;
      o.Paired? ==>
        && room in s.rooms && ToldResumed(t, p, o.initiator.id, false, false)
        && (ToldResumed(t, p, o.initiator.id, false, HeldBoth(es, room)) <==> !s.rooms[room].pairedOnce)
        && (s.rooms[room].pairedOnce <==> HeldBoth(es, room))
  {
    assert (es + [JoinFrame(p, room, group)])[..|es|] == es;
    JoinTellsNotResumed(Run(es), p, room, group);
    if room in Run(es).rooms { PairedOnceIsHistory(es, room); }
  }

  // ---------- A join that hides the past ----------

  // A caller and two devices of one callee connect; the caller and the first device join.
  function Opening(a: UserId, b: UserId, room: RoomId, group: GroupId): (es: seq<Event>) {
    [Connect(a), Connect(b), Connect(b), JoinFrame(0, room, group), JoinFrame(1, room, group)]
  }

  lemma RunOf(es: seq<Event>, e: Event)
    ensures Run(es + [e]) == Apply(Run(es), e)
  {
    assert (es + [e])[..|es|] == es;
  }

  lemma ThreeConnect(a: UserId, b: UserId) returns (s: Service)
    ensures s == Run([Connect(a), Connect(b), Connect(b)]) && Inv(s) && s.rooms == map[]
    ensures |s.sockets| == 3 && s.sockets[0].user == a && s.sockets[1].user == b && s.sockets[2].user == b
    ensures MayJoin(s, 0) && MayJoin(s, 1) && MayJoin(s, 2)
  {
    RunOf([], Connect(a));
    RunOf([Connect(a)], Connect(b));
    RunOf([Connect(a), Connect(b)], Connect(b));
    assert [] + [Connect(a)] == [Connect(a)];
    assert [Connect(a)] + [Connect(b)] == [Connect(a), Connect(b)];
    assert [Connect(a), Connect(b)] + [Connect(b)] == [Connect(a), Connect(b), Connect(b)];
    s := Run([Connect(a), Connect(b), Connect(b)]);
  }

  // A join with nobody to evict leaves every socket but the joiner and its initiator alone.
  lemma JoinTouches(s: Service, p: PeerId, room: RoomId, group: GroupId, q: PeerId)
    requires Inv(s) && MayJoin(s, p) && MayJoin(s, q) && p != q
    requires var o := Join(Find(s.rooms, room), Peer(p, s.sockets[p].user, group)).1;
      !o.Full? && !o.OtherGroup? && o.evicted == []
    ensures var t := HandleJoin(s, p, room, group);
      |t.sockets| == |s.sockets| && MayJoin(t, q) && t.sockets[q].user == s.sockets[q].user
  {
    var seats, peer := Find(s.rooms, room), Peer(p, s.sockets[p].user, group);
    JoinerHoldsNoSeat(s, p, room);
    JoinerHoldsNoSeat(s, q, room);
    assert SeatsOk(s.sockets, room, seats);
    JoinNamesHold(s.sockets, room, seats, peer);
    JoinSendsFacts(s.sockets, p, Session(room, group), Join(seats, peer).1);
  }

  lemma OpeningPairs(a: UserId, b: UserId, room: RoomId, group: GroupId)
    requires a != b
    ensures var s := Run(Opening(a, b, room, group));
      && room in s.rooms && MayJoin(s, 2) && s.sockets[2].user == b
      && s.rooms[room] == Seats([Seat(Peer(0, a, group), true), Seat(Peer(1, b, group), true)], true)
  {
    var s := ThreeConnect(a, b);
    var es := [Connect(a), Connect(b), Connect(b)];
    RunOf(es, JoinFrame(0, room, group));
    var t := Run(es + [JoinFrame(0, room, group)]);
    JoinTouches(s, 0, room, group, 1);
    JoinTouches(s, 0, room, group, 2);
    assert t.rooms[room] == Seats([Seat(Peer(0, a, group), true)], false);
    RunOf(es + [JoinFrame(0, room, group)], JoinFrame(1, room, group));
    JoinTouches(t, 1, room, group, 2);
    assert es + [JoinFrame(0, room, group)] + [JoinFrame(1, room, group)] == Opening(a, b, room, group);
  }

  /** The callee's second device joins a room that held both parties: the caller is last told that the
      pairing is not resumed. */
  lemma AJoinHidesThePast(a: UserId, b: UserId, room: RoomId, group: GroupId)
    requires a != b
    ensures var es := Opening(a, b, room, group);
      && HeldBoth(es, room)
      && ToldResumed(Run(es + [JoinFrame(2, room, group)]), 2, 0, false, false)
  {
    OpeningPairs(a, b, room, group);
    JoinedIsHistoryIff(Opening(a, b, room, group), 2, room, group);
  }
}
