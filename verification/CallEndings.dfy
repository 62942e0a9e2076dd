/**
  How a session ends. The first cause on a record stands for good; and when a seated socket ends, its
  seat survives, absent, exactly when the network failed it: a hangup, and the server's own decision to
  close, free it.
*/
module CallEndings {
  import opened Options
  import opened Seating
  import opened RoomMap
  import opened CallService

  // ---------- The first cause stands ----------

  ghost predicate KeepsRecords(a: seq<Socket>, b: seq<Socket>) {
    |a| <= |b| && forall q :: 0 <= q < |a| && a[q].disposition.Some? ==> b[q].disposition == a[q].disposition
  }

  lemma KeepsChains(a: seq<Socket>, b: seq<Socket>, c: seq<Socket>)
    requires KeepsRecords(a, b) && KeepsRecords(b, c)
    ensures KeepsRecords(a, c)
  {}

  lemma {:induction false} EvictKeepsRecords(sockets: seq<Socket>, evicted: seq<Peer>)
    ensures KeepsRecords(sockets, Evict(sockets, evicted))
    decreases |evicted|
  {
    if evicted != [] {
      var first := Deliver(End(sockets, evicted[0].id, SiblingEvicted), evicted[0].id, PeerLeft);
      assert KeepsRecords(sockets, first);
      EvictKeepsRecords(first, evicted[1..]);
      KeepsChains(sockets, first, Evict(first, evicted[1..]));
    }
  }

  lemma JoinKeepsRecords(sockets: seq<Socket>, p: PeerId, session: Session, o: JoinOutcome)
    requires p < |sockets|
    ensures KeepsRecords(sockets, JoinSends(sockets, p, session, o))
  {
    if !o.Full? && !o.OtherGroup? {
      var begun := Begin(sockets, p, session);
      EvictKeepsRecords(begun, o.evicted);
      assert KeepsRecords(sockets, Evict(begun, o.evicted));
    }
  }

  lemma ResumeKeepsRecords(sockets: seq<Socket>, p: PeerId, session: Session, o: ResumeOutcome)
    requires p < |sockets|
    ensures KeepsRecords(sockets, ResumeSends(sockets, p, session, o))
  {
    if o.Resumed? {
      var seated := Deliver(Replace(Begin(sockets, p, session), o.replaced), p, Joined(p));
      assert KeepsRecords(sockets, seated);
      TellKeepsRecords(seated, p, o.partner);
      KeepsChains(sockets, seated, TellPartner(seated, p, o.partner));
    }
  }

  lemma TellKeepsRecords(sockets: seq<Socket>, p: PeerId, o: PartnerState)
    ensures KeepsRecords(sockets, TellPartner(sockets, p, o))
  {}

  lemma EndKeepsRecords(s: Service, p: PeerId, cause: Disposition)
    requires RoomsOk(s.rooms) && p < |s.sockets|
    ensures KeepsRecords(s.sockets, HandleEnd(s, p, cause).sockets)
  {
    var ended := End(s.sockets[p := s.sockets[p].(open := false)], p, cause);
    assert KeepsRecords(s.sockets, ended);
    forall to, f ensures KeepsRecords(ended, DeliverTo(ended, to, f)) {}
  }

  lemma RelayKeepsRecords(s: Service, p: PeerId, kind: RelayedKind)
    requires RoomsOk(s.rooms) && p < |s.sockets| && s.sockets[p].session.Some?
    ensures KeepsRecords(s.sockets, HandleRelay(s, p, kind).sockets)
  {}

  lemma ApplyKeepsRecords(s: Service, e: Event)
    requires RoomsOk(s.rooms)
    ensures KeepsRecords(s.sockets, Apply(s, e).sockets)
  {
    match e
    case JoinFrame(p, room, group) =>
      if MayJoin(s, p) {
        JoinKeepsRecords(s.sockets, p, Session(room, group), JoinAt(s.rooms, room, Peer(p, s.sockets[p].user, group)).1);
      }
    case ResumeFrame(p, room, group, seat) =>
      if MayJoin(s, p) {
        ResumeKeepsRecords(s.sockets, p, Session(room, group),
                           ResumeAt(s.rooms, room, seat, Peer(p, s.sockets[p].user, group)).1);
      }
    case SocketEnds(p, cause) => if p < |s.sockets| && s.sockets[p].open { EndKeepsRecords(s, p, cause); }
    case RelayFrame(p, kind) =>
      if p < |s.sockets| && s.sockets[p].open && s.sockets[p].session.Some? { RelayKeepsRecords(s, p, kind); }
    case _ =>
  }

  lemma OneMoreKeepsRecords(sockets: seq<Socket>, es: seq<Event>, e: Event)
    requires KeepsRecords(sockets, Run(es).sockets)
    ensures KeepsRecords(sockets, Run(es + [e]).sockets)
  {
    assert (es + [e])[..|es|] == es;
    ApplyKeepsRecords(Run(es), e);
    KeepsChains(sockets, Run(es).sockets, Run(es + [e]).sockets);
  }

  /** Whatever happens after, the first cause recorded for a session is the one its record names. */
  lemma {:induction false} TheFirstCauseStands(es: seq<Event>, more: seq<Event>)
    ensures KeepsRecords(Run(es).sockets, Run(es + more).sockets)
  {
    if more == [] {
      assert es + more == es;
    } else {
      var front, last := more[..|more| - 1], more[|more| - 1];
      TheFirstCauseStands(es, front);
      assert es + more == (es + front) + [last];
      OneMoreKeepsRecords(Run(es).sockets, es + front, last);
    }
  }

  // ---------- What an ending does to the seat ----------

  // The seats left when the socket at `i` ended.
  ghost predicate SeatAfter(before: Seats, t: Service, r: RoomId, i: nat, survives: bool)
    requires i < |before.list| <= 2
  {
    if survives then
      && r in t.rooms && |t.rooms[r].list| == |before.list|
      && t.rooms[r].list[i] == Seat(before.list[i].peer, false)
      && forall j :: 0 <= j < |before.list| && j != i ==> t.rooms[r].list[j] == before.list[j]
    else if |before.list| == 1 then r !in t.rooms
    else r in t.rooms && t.rooms[r].list == [before.list[1 - i]]
  }

  // What both endings make of the seat at `i`, in place or gone.
  lemma EndingSeats(s: Seats, i: nat)
    requires Valid(s) && i < |s.list| && s.list[i].present
    ensures MarkAbsent(s, s.list[i].peer.id).0.list == s.list[i := Seat(s.list[i].peer, false)]
    ensures Leave(s, s.list[i].peer.id).0.list == if |s.list| == 1 then [] else [s.list[1 - i]]
  {
    assert IdIndex(s, s.list[i].peer.id, true) == i;
    if |s.list| == 2 { assert s.list[1..] == [s.list[1]] && s.list[..1] == [s.list[0]]; }
  }

  lemma EndingRooms(s: Service, r: RoomId, p: PeerId, cause: Disposition)
    requires RoomsOk(s.rooms) && r in s.rooms && p < |s.sockets| && s.sockets[p].disposition.None?
    requires s.sockets[p].session.Some? && s.sockets[p].session.value.room == r
    ensures HandleEnd(s, p, cause).rooms ==
      if KeepsSeat(cause) then s.rooms[r := MarkAbsent(s.rooms[r], p).0] else Settle(s.rooms, r, Leave(s.rooms[r], p).0)
  {}

  lemma EndingDecides(s: Service, r: RoomId, i: nat, cause: Disposition)
    requires Inv(s) && r in s.rooms && i < |s.rooms[r].list| <= 2 && s.rooms[r].list[i].present
    ensures var p := s.rooms[r].list[i].peer.id;
      p < |s.sockets| && SeatAfter(s.rooms[r], HandleEnd(s, p, cause), r, i, KeepsSeat(cause))
  {
    var seats := s.rooms[r];
    assert RoomOk(s.sockets, r, seats) && SeatOk(s.sockets, r, seats.list[i]);
    EndingRooms(s, r, seats.list[i].peer.id, cause);
    EndingSeats(seats, i);
  }

  lemma EndingIsRecorded(s: Service, p: PeerId, cause: Disposition)
    requires RoomsOk(s.rooms) && p < |s.sockets| && s.sockets[p].session.Some? && s.sockets[p].disposition.None?
    ensures var t := HandleEnd(s, p, cause);
      p < |t.sockets| && t.sockets[p].disposition == Some(cause) && !t.sockets[p].open
  {}

  // What the end of the socket of the present seat `i` leaves.
  ghost predicate EndedBy(s: Service, t: Service, r: RoomId, i: nat, cause: Disposition)
    requires r in s.rooms && i < |s.rooms[r].list| <= 2
  {
    var p := s.rooms[r].list[i].peer.id;
    && SeatAfter(s.rooms[r], t, r, i, cause in {TransportError, StreamEnded, SendFailed, KeepaliveLost})
    && p < |t.sockets| && t.sockets[p].disposition == Some(cause) && !t.sockets[p].open
  }

  lemma PresentSeatEnds(s: Service, r: RoomId, i: nat, cause: Disposition)
    requires Inv(s) && r in s.rooms && i < |s.rooms[r].list| && s.rooms[r].list[i].present
    ensures |s.rooms[r].list| <= 2
    ensures EndedBy(s, Apply(s, SocketEnds(s.rooms[r].list[i].peer.id, cause)), r, i, cause)
  {
    assert RoomOk(s.sockets, r, s.rooms[r]) && SeatOk(s.sockets, r, s.rooms[r].list[i]);
    EndingDecides(s, r, i, cause);
    EndingIsRecorded(s, s.rooms[r].list[i].peer.id, cause);
  }

  /** When the socket of a present seat ends, the seat stays in its place, absent, iff the network
      failed it, and is freed otherwise, with its room if it was the last; the record names the cause
      and the other seat is untouched. */
  lemma TheSeatSurvivesTheNetworkOnly(es: seq<Event>, r: RoomId, i: nat, cause: Disposition)
    requires r in Run(es).rooms && i < |Run(es).rooms[r].list| && Run(es).rooms[r].list[i].present
    ensures |Run(es).rooms[r].list| <= 2
    ensures EndedBy(Run(es), Run(es + [SocketEnds(Run(es).rooms[r].list[i].peer.id, cause)]), r, i, cause)
  {
    var e := SocketEnds(Run(es).rooms[r].list[i].peer.id, cause);
    assert (es + [e])[..|es|] == es;
    PresentSeatEnds(Run(es), r, i, cause);
  }

  // ---------- Who is told so ----------

  ghost function ToldRefused(s: Service, p: PeerId): Service
    requires p < |s.sockets|
  {
    s.(sockets := s.sockets[p := s.sockets[p].(inbox := s.sockets[p].inbox + [Refused])])
  }

  lemma RefusedJoin(s: Service, p: PeerId, room: RoomId, group: GroupId)
    requires Inv(s) && MayJoin(s, p)
    ensures var o := JoinAt(s.rooms, room, Peer(p, s.sockets[p].user, group)).1;
      o.Full? || o.OtherGroup? ==> HandleJoin(s, p, room, group) == ToldRefused(s, p)
  {
    RefusedJoinMapsNothing(s.rooms, room, Peer(p, s.sockets[p].user, group));
  }

  lemma OneMoreEvent(es: seq<Event>, e: Event)
    ensures Run(es + [e]) == Apply(Run(es), e)
  {
    assert (es + [e])[..|es|] == es;
  }

  /** A join or a resume that is refused is told so, and nothing else changes: no room, no record, no
      other inbox. */
  lemma ARefusalIsOnlyAnswered(es: seq<Event>, p: PeerId, room: RoomId, group: GroupId, seat: PeerId)
    requires MayJoin(Run(es), p)
    ensures var s := Run(es);
      var peer := Peer(p, s.sockets[p].user, group);
      var o := JoinAt(s.rooms, room, peer).1;
      && (o.Full? || o.OtherGroup? ==> Run(es + [JoinFrame(p, room, group)]) == ToldRefused(s, p))
      && (ResumeAt(s.rooms, room, seat, peer).1.Unknown? ==>
            Run(es + [ResumeFrame(p, room, group, seat)]) == ToldRefused(s, p))
  {
    OneMoreEvent(es, JoinFrame(p, room, group));
    OneMoreEvent(es, ResumeFrame(p, room, group, seat));
    RefusedJoin(Run(es), p, room, group);
    RefusedResume(Run(es), p, room, group, seat);
  }

  lemma RefusedResume(s: Service, p: PeerId, room: RoomId, group: GroupId, seat: PeerId)
    requires Inv(s) && MayJoin(s, p)
    ensures ResumeAt(s.rooms, room, seat, Peer(p, s.sockets[p].user, group)).1.Unknown? ==>
      HandleResume(s, p, room, group, seat) == ToldRefused(s, p)
  {
    RefusedResumeMapsNothing(s.rooms, room, seat, Peer(p, s.sockets[p].user, group));
  }

  // The socket was told, last, that it is out, and its record says why.
  ghost predicate ToldOut(before: Socket, after: Socket, f: Frame, why: Disposition) {
    after == before.(inbox := before.inbox + [f], disposition := Some(why))
  }

  lemma {:induction false} EvictedToldOut(sockets: seq<Socket>, evicted: seq<Peer>, e: Peer)
    requires e in evicted && e.id < |sockets| && sockets[e.id].open && sockets[e.id].disposition.None?
    requires forall i, j :: 0 <= i < j < |evicted| ==> evicted[i].id != evicted[j].id
    ensures ToldOut(sockets[e.id], Evict(sockets, evicted)[e.id], PeerLeft, SiblingEvicted)
    decreases |evicted|
  {
    var first := Deliver(End(sockets, evicted[0].id, SiblingEvicted), evicted[0].id, PeerLeft);
    if e != evicted[0] {
      assert e in evicted[1..];
      assert e.id != evicted[0].id;
      EvictedToldOut(first, evicted[1..], e);
    } else {
      assert forall x :: x in evicted[1..] ==> x.id != e.id;
    }
  }

  lemma ReplacedToldOut(sockets: seq<Socket>, stale: Peer)
    requires stale.id < |sockets| && sockets[stale.id].open && sockets[stale.id].disposition.None?
    ensures ToldOut(sockets[stale.id], Replace(sockets, Some(stale))[stale.id], Shutdown, ResumedElsewhere)
  {}

  // Telling the newcomer and its partner touches no third socket.
  lemma TellTouchesNoThird(sockets: seq<Socket>, p: PeerId, o: PartnerState, q: PeerId)
    requires q < |sockets| && q != p && (o.Present? ==> q != o.partner.id)
    ensures TellPartner(sockets, p, o)[q] == sockets[q]
  {}

  /** A live socket whose seat another resumes is told to close, and its record says it was resumed. */
  lemma TheReplacedIsToldToClose(es: seq<Event>, p: PeerId, room: RoomId, group: GroupId, seat: PeerId)
    requires MayJoin(Run(es), p)
    ensures var s := Run(es);
      var o := ResumeAt(s.rooms, room, seat, Peer(p, s.sockets[p].user, group)).1;
      o.Resumed? && o.replaced.Some? ==>
        var t := Run(es + [ResumeFrame(p, room, group, seat)]);
        var q := o.replaced.value.id;
        q < |s.sockets| == |t.sockets| && ToldOut(s.sockets[q], t.sockets[q], Shutdown, ResumedElsewhere)
  {
    assert (es + [ResumeFrame(p, room, group, seat)])[..|es|] == es;
    ResumeTellsTheReplaced(Run(es), p, room, group, seat);
  }

  lemma ResumeTellsTheReplaced(s: Service, p: PeerId, room: RoomId, group: GroupId, seat: PeerId)
    requires Inv(s) && MayJoin(s, p)
    ensures var o := ResumeAt(s.rooms, room, seat, Peer(p, s.sockets[p].user, group)).1;
      o.Resumed? && o.replaced.Some? ==>
        var t, q := HandleResume(s, p, room, group, seat), o.replaced.value.id;
        q < |s.sockets| == |t.sockets| && ToldOut(s.sockets[q], t.sockets[q], Shutdown, ResumedElsewhere)
  {
    var peer := Peer(p, s.sockets[p].user, group);
    var o := ResumeAt(s.rooms, room, seat, peer).1;
    if o.Resumed? && o.replaced.Some? {
      var seats, q := s.rooms[room], o.replaced.value.id;
      assert RoomOk(s.sockets, room, seats);
      JoinerHoldsNoSeat(s, p, room);
      var i := SeatIndex(seats, seat, peer);
      assert SeatOk(s.sockets, room, seats.list[i]);
      var begun := Begin(s.sockets, p, Session(room, group));
      ReplacedToldOut(begun, o.replaced.value);
      TellTouchesNoThird(Deliver(Replace(begun, o.replaced), p, Joined(p)), p, o.partner, q);
    }
  }

  lemma JoinTellsTheEvicted(s: Service, p: PeerId, room: RoomId, group: GroupId, i: nat)
    requires Inv(s) && MayJoin(s, p) && room in s.rooms && i < |s.rooms[room].list|
    requires s.rooms[room].list[i].present && s.rooms[room].list[i].peer.user == s.sockets[p].user
    ensures var o := JoinAt(s.rooms, room, Peer(p, s.sockets[p].user, group)).1;
      !o.Full? && !o.OtherGroup? ==>
        var t, q := HandleJoin(s, p, room, group), s.rooms[room].list[i].peer.id;
        q < |s.sockets| == |t.sockets| && ToldOut(s.sockets[q], t.sockets[q], PeerLeft, SiblingEvicted)
  {
    var seats, peer := s.rooms[room], Peer(p, s.sockets[p].user, group);
    var o := JoinAt(s.rooms, room, peer).1;
    assert RoomOk(s.sockets, room, seats) && SeatOk(s.sockets, room, seats.list[i]);
    JoinerHoldsNoSeat(s, p, room);
    if !o.Full? && !o.OtherGroup? {
      JoinReplacesSiblings(seats, peer, seats.list[i]);
      JoinNamesHold(s.sockets, room, seats, peer);
      var begun := Begin(s.sockets, p, Session(room, group));
      EvictedToldOut(begun, o.evicted, seats.list[i].peer);
    }
  }

  /** A device whose user joins with another one is told it is out, and its record says it was evicted
      by a sibling. */
  lemma TheEvictedIsToldItIsOut(es: seq<Event>, p: PeerId, room: RoomId, group: GroupId, i: nat)
    requires var s := Run(es);
      && MayJoin(s, p) && room in s.rooms && i < |s.rooms[room].list|
      && s.rooms[room].list[i].present && s.rooms[room].list[i].peer.user == s.sockets[p].user
    ensures var s := Run(es);
      var o := JoinAt(s.rooms, room, Peer(p, s.sockets[p].user, group)).1;
      !o.Full? && !o.OtherGroup? ==>
        var t, q := Run(es + [JoinFrame(p, room, group)]), s.rooms[room].list[i].peer.id;
        q < |s.sockets| == |t.sockets| && ToldOut(s.sockets[q], t.sockets[q], PeerLeft, SiblingEvicted)
  {
    assert (es + [JoinFrame(p, room, group)])[..|es|] == es;
    JoinTellsTheEvicted(Run(es), p, room, group, i);
  }
}
