/**
  What every event sends, read from the receiving side: for each socket, the frames an event adds to its
  inbox, as the seats of the room alone decide them. In every run the handlers, which send one after the
  other, add exactly those: nobody is told twice, nobody is forgotten and nobody else hears.
*/
module CallFrames {
  import opened Counters
  import opened Options
  import opened Seating
  import opened RoomMap
  import opened CallService

  // ---------- Who hears what ----------

  // The seat of `id`, and the seat that is not its.
  function SeatOf(s: Seats, id: PeerId): (r: Option<Seat>) {
    if |s.list| > 0 && s.list[0].peer.id == id then Some(s.list[0])
    else if |s.list| > 1 && s.list[1].peer.id == id then Some(s.list[1])
    else None
  }

  function OtherSeat(s: Seats, id: PeerId): (r: Option<Seat>) {
    if |s.list| == 2 && s.list[0].peer.id == id then Some(s.list[1])
    else if |s.list| == 2 && s.list[1].peer.id == id then Some(s.list[0])
    else None
  }

  function SeatOfOtherUser(s: Seats, user: UserId): (r: Option<Seat>) {
    if |s.list| > 0 && s.list[0].peer.user != user then Some(s.list[0])
    else if |s.list| > 1 && s.list[1].peer.user != user then Some(s.list[1])
    else None
  }

  predicate PresentAs(seat: Option<Seat>, id: PeerId) {
    seat.Some? && seat.value.present && seat.value.peer.id == id
  }

  // Another group sits there, or two other users do.
  predicate TurnsAway(s: Seats, peer: Peer) {
    || (|s.list| > 0 && s.list[0].peer.group != peer.group)
    || (|s.list| == 2 && s.list[0].peer.user != peer.user && s.list[1].peer.user != peer.user)
  }

  // A newcomer hears that it is in, and of the other party; the other party, if present, of the newcomer;
  // a present device of the newcomer's user that it is out.
  function HeardOfJoin(s: Seats, peer: Peer, q: PeerId): (fs: seq<Frame>) {
    var other := SeatOfOtherUser(s, peer.user);
    if TurnsAway(s, peer) then (if q == peer.id then [Refused] else [])
    else if q == peer.id then
      [Joined(q)] + (if other.None? then [] else if other.value.present then [PeerReady(false, false)] else [PeerAway])
    else if PresentAs(other, q) then [PeerReady(true, false)]
    else if PresentAs(SeatOf(s, q), q) && SeatOf(s, q).value.peer.user == peer.user then [PeerLeft]
    else []
  }

  // The index of the seat asked back, if it is there.
  predicate AskedAt(s: Seats, seat: PeerId, peer: Peer, i: nat) {
    i < |s.list| && s.list[i].peer == Peer(seat, peer.user, peer.group)
  }

  // Of one that resumes: it hears that it is in, and how the other party stands, with its old role; the
  // other party, if present, hears of it; the stale socket, if it was still there, that it must close.
  function HeardOfResume(s: Seats, seat: PeerId, peer: Peer, q: PeerId): (fs: seq<Frame>) {
    if !AskedAt(s, seat, peer, 0) && !AskedAt(s, seat, peer, 1) then (if q == peer.id then [Refused] else [])
    else
      var i := if AskedAt(s, seat, peer, 0) then 0 else 1;
      if q == peer.id then
        [Joined(q)] +
        (if |s.list| != 2 then (if s.pairedOnce then [PeerLeft] else [])
         else if s.list[1 - i].present then [PeerReady(i == 0, s.pairedOnce)]
         else [PeerAway])
      else if |s.list| == 2 && s.list[1 - i] == Seat(s.list[1 - i].peer, true) && s.list[1 - i].peer.id == q
      then [PeerReady(i == 1, s.pairedOnce)]
      else if s.list[i].present && s.list[i].peer.id == q then [Shutdown]
      else []
  }

  // The room of the socket's session, as it stands.
  function RoomOf(s: Service, p: PeerId): (seats: Seats) {
    if p < |s.sockets| && s.sockets[p].session.Some? then Find(s.rooms, s.sockets[p].session.value.room) else EMPTY
  }

  // What the end of a socket means to the other party: it is away if the network failed it, and gone
  // otherwise; the first cause on the record decides.
  function ToldOfEnd(socket: Socket, cause: Disposition): (f: Frame) {
    var first := if socket.disposition.Some? then socket.disposition.value else cause;
    if first in {TransportError, StreamEnded, SendFailed, KeepaliveLost} then PeerAway else PeerLeft
  }

  // What event `e` adds to the inbox of socket `q`.
  function Heard(s: Service, e: Event, q: PeerId): (fs: seq<Frame>) {
    match e
    case Connect(_) => []
    case JoinFrame(p, room, group) =>
      if MayJoin(s, p) then HeardOfJoin(Find(s.rooms, room), Peer(p, s.sockets[p].user, group), q) else []
    case ResumeFrame(p, room, group, seat) =>
      if MayJoin(s, p) then HeardOfResume(Find(s.rooms, room), seat, Peer(p, s.sockets[p].user, group), q) else []
    case RelayFrame(p, kind) =>
      if p < |s.sockets| && s.sockets[p].open && PresentAs(OtherSeat(RoomOf(s, p), p), q) then [Relayed(kind, p)] else []
    case SocketEnds(p, cause) =>
      if p < |s.sockets| && s.sockets[p].open && PresentAs(OtherSeat(RoomOf(s, p), p), q)
      then [ToldOfEnd(s.sockets[p], cause)] else []
    case GraceEnds(room, p) =>
      var seats := Find(s.rooms, room);
      if SeatOf(seats, p).Some? && !SeatOf(seats, p).value.present && PresentAs(OtherSeat(seats, p), q)
      then [PeerLeft] else []
  }

  // ---------- Sending ----------

  // The inbox of `q` gained `fs`, and it is as open as before.
  ghost predicate Gained(a: seq<Socket>, b: seq<Socket>, q: PeerId, fs: seq<Frame>) {
    |b| == |a| && q < |a| && b[q].inbox == a[q].inbox + fs && b[q].open == a[q].open
  }

  lemma GainedNothing(a: seq<Socket>, q: PeerId)
    requires q < |a|
    ensures Gained(a, a, q, [])
  {}

  lemma GainedMore(a: seq<Socket>, b: seq<Socket>, c: seq<Socket>, q: PeerId, fs: seq<Frame>, gs: seq<Frame>)
    requires Gained(a, b, q, fs) && Gained(b, c, q, gs)
    ensures Gained(a, c, q, fs + gs)
  {
    assert a[q].inbox + fs + gs == a[q].inbox + (fs + gs);
  }

  lemma DeliverGains(sockets: seq<Socket>, p: PeerId, f: Frame, q: PeerId)
    requires q < |sockets|
    ensures Gained(sockets, Deliver(sockets, p, f), q, if q == p && sockets[q].open then [f] else [])
  {
    assert sockets[q].inbox + [] == sockets[q].inbox;
  }

  lemma DeliverToGains(sockets: seq<Socket>, to: Option<Peer>, f: Frame, q: PeerId)
    requires q < |sockets|
    ensures Gained(sockets, DeliverTo(sockets, to, f), q,
                   if to.Some? && to.value.id == q && sockets[q].open then [f] else [])
  {
    if to.Some? { DeliverGains(sockets, to.value.id, f, q); } else { GainedNothing(sockets, q); }
  }

  lemma AnnounceGains(sockets: seq<Socket>, a: PeerId, b: PeerId, resumed: bool, q: PeerId)
    requires q < |sockets| && a != b
    ensures Gained(sockets, AnnouncePair(sockets, a, b, resumed), q,
                   if !sockets[q].open then [] else if q == a then [PeerReady(true, resumed)]
                   else if q == b then [PeerReady(false, resumed)] else [])
  {
    var first := Deliver(sockets, a, PeerReady(true, resumed));
    DeliverGains(sockets, a, PeerReady(true, resumed), q);
    DeliverGains(first, b, PeerReady(false, resumed), q);
    GainedMore(sockets, first, AnnouncePair(sockets, a, b, resumed), q,
               if q == a && sockets[q].open then [PeerReady(true, resumed)] else [],
               if q == b && sockets[q].open then [PeerReady(false, resumed)] else []);
  }

  ghost predicate AmongIds(peers: seq<Peer>, q: PeerId) {
    exists e :: e in peers && e.id == q
  }

  lemma {:induction false} EvictGains(sockets: seq<Socket>, evicted: seq<Peer>, q: PeerId)
    requires q < |sockets| && forall i, j :: 0 <= i < j < |evicted| ==> evicted[i].id != evicted[j].id
    ensures Gained(sockets, Evict(sockets, evicted), q, if AmongIds(evicted, q) && sockets[q].open then [PeerLeft] else [])
    decreases |evicted|
  {
    if evicted == [] {
      GainedNothing(sockets, q);
    } else {
      var id, rest := evicted[0].id, evicted[1..];
      var ended := End(sockets, id, SiblingEvicted);
      var first := Deliver(ended, id, PeerLeft);
      DeliverGains(ended, id, PeerLeft, q);
      EvictGains(first, rest, q);
      assert AmongIds(evicted, q) <==> q == id || AmongIds(rest, q) by {
        assert evicted == [evicted[0]] + rest;
        assert evicted[0] in evicted;
      }
      assert q == id ==> !AmongIds(rest, q);
      GainedMore(sockets, first, Evict(first, rest), q, if q == id && sockets[q].open then [PeerLeft] else [],
                 if AmongIds(rest, q) && sockets[q].open then [PeerLeft] else []);
    }
  }

  // ---------- Each handler ----------

  // The seats of a room name open sockets where they are present, and closed ones where not.
  ghost predicate SeatsOpen(s: Seats, sockets: seq<Socket>) {
    forall i :: 0 <= i < |s.list| ==>
      s.list[i].peer.id < |sockets| && sockets[s.list[i].peer.id].open == s.list[i].present
  }

  lemma RoomsAreOpen(s: Service, r: RoomId)
    requires Inv(s)
    ensures Valid(Find(s.rooms, r)) && SeatsOpen(Find(s.rooms, r), s.sockets)
  {
    if r in s.rooms {
      assert RoomOk(s.sockets, r, s.rooms[r]);
      forall i | 0 <= i < |s.rooms[r].list|
        ensures s.rooms[r].list[i].peer.id < |s.sockets|
        ensures s.sockets[s.rooms[r].list[i].peer.id].open == s.rooms[r].list[i].present
      {
        assert SeatOk(s.sockets, r, s.rooms[r].list[i]);
      }
    }
  }

  lemma EvictedIds(s: Seats, user: UserId, q: PeerId)
    requires Valid(s)
    ensures var evicted := Evicted(s.list, user);
      && (forall i, j :: 0 <= i < j < |evicted| ==> evicted[i].id != evicted[j].id)
      && (AmongIds(evicted, q) <==> SeatOf(s, q).Some? && SeatOf(s, q).value.peer.user == user)
  {
    var evicted := Evicted(s.list, user);
    if |s.list| > 0 && s.list[0].peer.user == user { assert s.list[0].peer in evicted; }
    if |s.list| > 1 && s.list[1].peer.user == user { assert s.list[1].peer in evicted; }
  }

  // What the seating of a newcomer adds, before anything is said of the partner.
  lemma SeatedGains(sockets: seq<Socket>, p: PeerId, session: Session, evicted: seq<Peer>, q: PeerId)
    requires p < |sockets| && sockets[p].open && q < |sockets| && !AmongIds(evicted, p)
    requires forall i, j :: 0 <= i < j < |evicted| ==> evicted[i].id != evicted[j].id
    ensures Gained(sockets, Deliver(Evict(Begin(sockets, p, session), evicted), p, Joined(p)), q,
                   if q == p then [Joined(p)] else if AmongIds(evicted, q) && sockets[q].open then [PeerLeft] else [])
  {
    var begun := Begin(sockets, p, session);
    var out := Evict(begun, evicted);
    EvictGains(begun, evicted, q);
    DeliverGains(out, p, Joined(p), q);
    GainedMore(begun, out, Deliver(out, p, Joined(p)), q, if AmongIds(evicted, q) && sockets[q].open then [PeerLeft] else [],
               if q == p && sockets[q].open then [Joined(p)] else []);
  }

  // And what is said of the partner, once the newcomer is seated.
  function PartnerPart(o: JoinOutcome, p: PeerId, q: PeerId): (fs: seq<Frame>) {
    match o
    case PartnerAway(_) => if q == p then [PeerAway] else []
    case Paired(initiator, _) =>
      if q == initiator.id then [PeerReady(true, false)] else if q == p then [PeerReady(false, false)] else []
    case _ => []
  }

  lemma PartnerPartGains(seated: seq<Socket>, after: seq<Socket>, p: PeerId, o: JoinOutcome, q: PeerId)
    requires p < |seated| && seated[p].open && q < |seated| && !o.Full? && !o.OtherGroup?
    requires o.Paired? ==> o.initiator.id != p && o.initiator.id < |seated| && seated[o.initiator.id].open
    requires after == match o case PartnerAway(_) => Deliver(seated, p, PeerAway)
                              case Paired(initiator, _) => AnnouncePair(seated, initiator.id, p, false)
                              case _ => seated
    ensures Gained(seated, after, q, PartnerPart(o, p, q))
  {
    match o
    case PartnerAway(_) => DeliverGains(seated, p, PeerAway, q);
    case Paired(initiator, _) => AnnounceGains(seated, initiator.id, p, false, q);
    case _ => GainedNothing(seated, q);
  }

  // The frames of a join, in the order it sends them, are the ones heard.
  lemma JoinIsHeard(s: Seats, peer: Peer, q: PeerId, open: bool)
    requires Valid(s) && !Holds(s, peer.id) && (SeatOf(s, q).Some? ==> open == SeatOf(s, q).value.present)
    ensures var o := Join(s, peer).1;
      && (o.Full? || o.OtherGroup? <==> TurnsAway(s, peer))
      && (!TurnsAway(s, peer) ==>
            HeardOfJoin(s, peer, q) ==
              (if q == peer.id then [Joined(q)] else if AmongIds(o.evicted, q) && open then [PeerLeft] else []) +
              PartnerPart(o, peer.id, q))
  {
    EvictedIds(s, peer.user, q);
  }

  lemma AdmittedGains(sockets: seq<Socket>, p: PeerId, session: Session, o: JoinOutcome, q: PeerId)
    requires p < |sockets| && sockets[p].open && q < |sockets| && !o.Full? && !o.OtherGroup? && !AmongIds(o.evicted, p)
    requires forall i, j :: 0 <= i < j < |o.evicted| ==> o.evicted[i].id != o.evicted[j].id
    requires o.Paired? ==> o.initiator.id != p && o.initiator.id < |sockets| && sockets[o.initiator.id].open
    ensures Gained(sockets, JoinSends(sockets, p, session, o), q,
                   (if q == p then [Joined(p)] else if AmongIds(o.evicted, q) && sockets[q].open then [PeerLeft] else []) +
                   PartnerPart(o, p, q))
  {
    var seated := Deliver(Evict(Begin(sockets, p, session), o.evicted), p, Joined(p));
    SeatedGains(sockets, p, session, o.evicted, q);
    SeatedGains(sockets, p, session, o.evicted, p);
    if o.Paired? { SeatedGains(sockets, p, session, o.evicted, o.initiator.id); }
    PartnerPartGains(seated, JoinSends(sockets, p, session, o), p, o, q);
    GainedMore(sockets, seated, JoinSends(sockets, p, session, o), q,
               if q == p then [Joined(p)] else if AmongIds(o.evicted, q) && sockets[q].open then [PeerLeft] else [],
               PartnerPart(o, p, q));
  }

  lemma PairedIsSeated(s: Seats, peer: Peer)
    requires Valid(s) && Join(s, peer).1.Paired?
    ensures Seat(Join(s, peer).1.initiator, true) in s.list
  {}

  lemma SeatedIsOpen(s: Seats, sockets: seq<Socket>, seat: Seat)
    requires SeatsOpen(s, sockets) && seat in s.list
    ensures seat.peer.id < |sockets| && sockets[seat.peer.id].open == seat.present && Holds(s, seat.peer.id)
  {}

  lemma SeatOfIsSeated(s: Seats, q: PeerId)
    ensures SeatOf(s, q).Some? ==> SeatOf(s, q).value in s.list && SeatOf(s, q).value.peer.id == q
  {}

  lemma JoinGains(s: Service, p: PeerId, room: RoomId, group: GroupId, q: PeerId)
    requires Inv(s) && MayJoin(s, p) && q < |s.sockets|
    ensures Gained(s.sockets, HandleJoin(s, p, room, group).sockets, q,
                   HeardOfJoin(Find(s.rooms, room), Peer(p, s.sockets[p].user, group), q))
  {
    var seats := Find(s.rooms, room);
    JoinerHoldsNoSeat(s, p, room);
    RoomsAreOpen(s, room);
    JoinSendsGain(s.sockets, seats, Peer(p, s.sockets[p].user, group), Session(room, group), q);
  }

  lemma JoinSendsGain(sockets: seq<Socket>, s: Seats, peer: Peer, session: Session, q: PeerId)
    requires Valid(s) && SeatsOpen(s, sockets) && !Holds(s, peer.id) && q < |sockets|
    requires peer.id < |sockets| && sockets[peer.id].open
    ensures Gained(sockets, JoinSends(sockets, peer.id, session, Join(s, peer).1), q, HeardOfJoin(s, peer, q))
  {
    var o, p := Join(s, peer).1, peer.id;
    SeatOfIsSeated(s, q);
    if SeatOf(s, q).Some? { SeatedIsOpen(s, sockets, SeatOf(s, q).value); }
    JoinIsHeard(s, peer, q, sockets[q].open);
    if TurnsAway(s, peer) {
      DeliverGains(sockets, p, Refused, q);
    } else {
      EvictedIds(s, peer.user, p);
      SeatOfIsSeated(s, p);
      if o.Paired? {
        PairedIsSeated(s, peer);
        SeatedIsOpen(s, sockets, Seat(o.initiator, true));
      }
      AdmittedGains(sockets, p, session, o, q);
    }
  }

  // ---------- Resuming ----------

  function ReplacedPart(replaced: Option<Peer>, q: PeerId): (fs: seq<Frame>) {
    if replaced.Some? && replaced.value.id == q then [Shutdown] else []
  }

  function TellPart(o: PartnerState, p: PeerId, q: PeerId): (fs: seq<Frame>) {
    match o
    case Alone(wasPaired) => if wasPaired && q == p then [PeerLeft] else []
    case Away => if q == p then [PeerAway] else []
    case Present(partner, iAmInitiator, resumed) =>
      if q == p then [PeerReady(iAmInitiator, resumed)]
      else if q == partner.id then [PeerReady(!iAmInitiator, resumed)] else []
  }

  lemma ReplaceGains(sockets: seq<Socket>, replaced: Option<Peer>, q: PeerId)
    requires q < |sockets|
    requires replaced.Some? ==> replaced.value.id < |sockets| && sockets[replaced.value.id].open
    ensures Gained(sockets, Replace(sockets, replaced), q, ReplacedPart(replaced, q))
  {
    if replaced.Some? {
      DeliverGains(End(sockets, replaced.value.id, ResumedElsewhere), replaced.value.id, Shutdown, q);
    } else {
      GainedNothing(sockets, q);
    }
  }

  lemma TellGains(sockets: seq<Socket>, p: PeerId, o: PartnerState, q: PeerId)
    requires q < |sockets| && p < |sockets| && sockets[p].open
    requires o.Present? ==> o.partner.id != p && o.partner.id < |sockets| && sockets[o.partner.id].open
    ensures Gained(sockets, TellPartner(sockets, p, o), q, TellPart(o, p, q))
  {
    match o
    case Alone(wasPaired) =>
      if wasPaired { DeliverGains(sockets, p, PeerLeft, q); } else { GainedNothing(sockets, q); }
    case Away => DeliverGains(sockets, p, PeerAway, q);
    case Present(partner, iAmInitiator, resumed) =>
      if iAmInitiator {
        AnnounceGains(sockets, p, partner.id, resumed, q);
      } else {
        AnnounceGains(sockets, partner.id, p, resumed, q);
      }
  }

  // Before anything is said of the partner.
  lemma ReseatedGains(sockets: seq<Socket>, p: PeerId, session: Session, replaced: Option<Peer>, q: PeerId)
    requires p < |sockets| && sockets[p].open && q < |sockets|
    requires replaced.Some? ==> replaced.value.id != p && replaced.value.id < |sockets| && sockets[replaced.value.id].open
    ensures Gained(sockets, Deliver(Replace(Begin(sockets, p, session), replaced), p, Joined(p)), q,
                   if q == p then [Joined(p)] else ReplacedPart(replaced, q))
  {
    var begun := Begin(sockets, p, session);
    var out := Replace(begun, replaced);
    ReplaceGains(begun, replaced, q);
    DeliverGains(out, p, Joined(p), q);
    GainedMore(begun, out, Deliver(out, p, Joined(p)), q, ReplacedPart(replaced, q),
               if q == p && sockets[q].open then [Joined(p)] else []);
  }

  lemma ResumedGains(sockets: seq<Socket>, p: PeerId, session: Session, o: ResumeOutcome, q: PeerId)
    requires p < |sockets| && sockets[p].open && q < |sockets| && o.Resumed?
    requires o.replaced.Some? ==>
      o.replaced.value.id != p && o.replaced.value.id < |sockets| && sockets[o.replaced.value.id].open
    requires o.partner.Present? ==>
      o.partner.partner.id != p && o.partner.partner.id < |sockets| && sockets[o.partner.partner.id].open
    ensures Gained(sockets, ResumeSends(sockets, p, session, o), q,
                   (if q == p then [Joined(p)] else ReplacedPart(o.replaced, q)) + TellPart(o.partner, p, q))
  {
    var seated := Deliver(Replace(Begin(sockets, p, session), o.replaced), p, Joined(p));
    ReseatedGains(sockets, p, session, o.replaced, q);
    ReseatedGains(sockets, p, session, o.replaced, p);
    if o.partner.Present? { ReseatedGains(sockets, p, session, o.replaced, o.partner.partner.id); }
    TellGains(seated, p, o.partner, q);
    GainedMore(sockets, seated, TellPartner(seated, p, o.partner), q,
               if q == p then [Joined(p)] else ReplacedPart(o.replaced, q), TellPart(o.partner, p, q));
  }

  lemma ResumeIsHeard(s: Seats, seat: PeerId, peer: Peer, q: PeerId)
    requires Valid(s) && !Holds(s, peer.id)
    ensures var o := Resume(s, seat, peer).1;
      && (o.Unknown? <==> !AskedAt(s, seat, peer, 0) && !AskedAt(s, seat, peer, 1))
      && (o.Resumed? ==>
            HeardOfResume(s, seat, peer, q) ==
              (if q == peer.id then [Joined(q)] else ReplacedPart(o.replaced, q)) + TellPart(o.partner, peer.id, q))
  {
    if AskedAt(s, seat, peer, 0) {
      AResumeGivesTheSeatBack(s, seat, peer, 0);
      if q != peer.id { ResumeIsHeardBy(s, seat, peer, 0, q); }
    } else if AskedAt(s, seat, peer, 1) {
      AResumeGivesTheSeatBack(s, seat, peer, 1);
      if q != peer.id { ResumeIsHeardBy(s, seat, peer, 1, q); }
    } else {
      assert SeatIndex(s, seat, peer) == |s.list|;
    }
  }

  lemma ResumeIsHeardBy(s: Seats, seat: PeerId, peer: Peer, i: nat, q: PeerId)
    requires Valid(s) && AskedAt(s, seat, peer, i) && i <= 1 && q != peer.id
    ensures var o := Resume(s, seat, peer).1;
      o.Resumed? && HeardOfResume(s, seat, peer, q) == ReplacedPart(o.replaced, q) + TellPart(o.partner, peer.id, q)
  {
    AResumeGivesTheSeatBack(s, seat, peer, i);
  }

  lemma ResumeNamesSeats(s: Seats, seat: PeerId, peer: Peer)
    requires Valid(s) && !Holds(s, peer.id) && Resume(s, seat, peer).1.Resumed?
    ensures var o := Resume(s, seat, peer).1;
      && (o.replaced.Some? ==> Seat(o.replaced.value, true) in s.list)
      && (o.partner.Present? ==> Seat(o.partner.partner, true) in s.list)
  {
    var i := SeatIndex(s, seat, peer);
    AResumeGivesTheSeatBack(s, seat, peer, i);
  }

  lemma ResumeSendsGain(sockets: seq<Socket>, s: Seats, seat: PeerId, peer: Peer, session: Session, q: PeerId)
    requires Valid(s) && SeatsOpen(s, sockets) && !Holds(s, peer.id) && q < |sockets|
    requires peer.id < |sockets| && sockets[peer.id].open
    ensures Gained(sockets, ResumeSends(sockets, peer.id, session, Resume(s, seat, peer).1), q,
                   HeardOfResume(s, seat, peer, q))
  {
    var o, p := Resume(s, seat, peer).1, peer.id;
    ResumeIsHeard(s, seat, peer, q);
    if o.Unknown? {
      DeliverGains(sockets, p, Refused, q);
    } else {
      ResumeNamesSeats(s, seat, peer);
      if o.replaced.Some? { SeatedIsOpen(s, sockets, Seat(o.replaced.value, true)); }
      if o.partner.Present? { SeatedIsOpen(s, sockets, Seat(o.partner.partner, true)); }
      ResumedGains(sockets, p, session, o, q);
    }
  }

  lemma ResumeGains(s: Service, p: PeerId, room: RoomId, group: GroupId, seat: PeerId, q: PeerId)
    requires Inv(s) && MayJoin(s, p) && q < |s.sockets|
    ensures Gained(s.sockets, HandleResume(s, p, room, group, seat).sockets, q,
                   HeardOfResume(Find(s.rooms, room), seat, Peer(p, s.sockets[p].user, group), q))
  {
    var peer := Peer(p, s.sockets[p].user, group);
    JoinerHoldsNoSeat(s, p, room);
    RoomsAreOpen(s, room);
    ResumeSendsGain(s.sockets, Find(s.rooms, room), seat, peer, Session(room, group), q);
    if room !in s.rooms { DeliverGains(s.sockets, p, Refused, q); }
  }

  // ---------- Relays and endings ----------

  lemma OtherIsPartner(s: Seats, id: PeerId, q: PeerId)
    requires Valid(s)
    ensures PresentAs(OtherSeat(s, id), q) <==> PartnerOf(s, id).Some? && PartnerOf(s, id).value.id == q
    ensures SeatOf(s, id).Some? <==> Holds(s, id)
  {
    if |s.list| > 0 { assert s.list[0].peer.id == id ==> Holds(s, id); }
    if |s.list| > 1 { assert s.list[1].peer.id == id ==> Holds(s, id); }
  }

  lemma CountGains(sockets: seq<Socket>, kind: RelayedKind, from: PeerId, to: PeerId, q: PeerId)
    requires from < |sockets| && to < |sockets| && q < |sockets|
    ensures Gained(sockets, Count(sockets, kind, from, to), q, [])
  {}

  lemma PassGains(sockets: seq<Socket>, kind: RelayedKind, from: PeerId, to: PeerId, q: PeerId)
    requires from < |sockets| && to < |sockets| && q < |sockets| && sockets[to].open
    ensures Gained(sockets, Count(Deliver(sockets, to, Relayed(kind, from)), kind, from, to), q,
                   if q == to then [Relayed(kind, from)] else [])
  {
    var sent := Deliver(sockets, to, Relayed(kind, from));
    DeliverGains(sockets, to, Relayed(kind, from), q);
    CountGains(sent, kind, from, to, q);
    GainedMore(sockets, sent, Count(sent, kind, from, to), q, if q == to then [Relayed(kind, from)] else [], []);
    assert [Relayed(kind, from)] + [] == [Relayed(kind, from)];
  }

  lemma PartnerAtIs(s: Service, p: PeerId)
    requires Inv(s) && p < |s.sockets| && s.sockets[p].session.Some?
    ensures RoomsOk(s.rooms) && PartnerAt(s.rooms, s.sockets[p].session.value.room, p) == PartnerOf(RoomOf(s, p), p)
    ensures var o := PartnerOf(RoomOf(s, p), p); o.Some? ==> o.value.id < |s.sockets| && s.sockets[o.value.id].open
  {
    var room := s.sockets[p].session.value.room;
    RoomsAreOpen(s, room);
    if PartnerOf(RoomOf(s, p), p).Some? {
      PartnerIsTheOtherPresentSeat(RoomOf(s, p), p, PartnerOf(RoomOf(s, p), p).value);
      SeatedIsOpen(RoomOf(s, p), s.sockets, Seat(PartnerOf(RoomOf(s, p), p).value, true));
    }
  }

  lemma RelayGains(s: Service, p: PeerId, kind: RelayedKind, q: PeerId)
    requires Inv(s) && p < |s.sockets| && s.sockets[p].open && s.sockets[p].session.Some? && q < |s.sockets|
    ensures Gained(s.sockets, HandleRelay(s, p, kind).sockets, q, Heard(s, RelayFrame(p, kind), q))
  {
    PartnerAtIs(s, p);
    RoomsAreOpen(s, s.sockets[p].session.value.room);
    OtherIsPartner(RoomOf(s, p), p, q);
    var partner := PartnerOf(RoomOf(s, p), p);
    if partner.Some? {
      PassGains(s.sockets, kind, p, partner.value.id, q);
    } else {
      assert s.sockets[q].inbox + [] == s.sockets[q].inbox;
    }
  }
  lemma ToldOfEndIs(s: Service, p: PeerId, cause: Disposition)
    requires p < |s.sockets|
    ensures var ended := End(s.sockets[p := s.sockets[p].(open := false)], p, cause);
      && ended[p].disposition.Some?
      && ToldOfEnd(s.sockets[p], cause) == if KeepsSeat(ended[p].disposition.value) then PeerAway else PeerLeft
  {}

  lemma EndedGains(sockets: seq<Socket>, p: PeerId, cause: Disposition, to: Option<Peer>, f: Frame, q: PeerId)
    requires p < |sockets| && q < |sockets|
    requires to.Some? ==> to.value.id != p && to.value.id < |sockets| && sockets[to.value.id].open
    ensures var b := DeliverTo(End(sockets[p := sockets[p].(open := false)], p, cause), to, f);
      |b| == |sockets| && b[q].inbox == sockets[q].inbox + if to.Some? && to.value.id == q then [f] else []
  {
    DeliverToGains(End(sockets[p := sockets[p].(open := false)], p, cause), to, f, q);
  }

  // What both ways to end a socket answer, in the terms of its partner.
  lemma EndingAnswers(s: Service, p: PeerId)
    requires Inv(s) && p < |s.sockets| && s.sockets[p].open && s.sockets[p].session.Some?
    ensures RoomsOk(s.rooms)
    ensures var room, partner := s.sockets[p].session.value.room, PartnerOf(RoomOf(s, p), p);
      var (away, left) := (MarkAbsentAt(s.rooms, room, p).1, LeaveAt(s.rooms, room, p).1);
      (if away.Some? then away.value else None) == partner == left
  {
    var seats := RoomOf(s, p);
    RoomsAreOpen(s, s.sockets[p].session.value.room);
    if Holds(seats, p) {
      var i :| 0 <= i < |seats.list| && seats.list[i].peer.id == p;
      EndingsNameTheOther(seats, p, i);
      PartnerOfIs(seats, p, i);
    } else {
      EndingsOfNobody(seats, p);
    }
  }

  lemma PartnerOfIs(s: Seats, p: PeerId, i: nat)
    requires Valid(s) && i < |s.list| && s.list[i].peer.id == p
    ensures PartnerOf(s, p) == if |s.list| == 2 && s.list[1 - i].present then Some(s.list[1 - i].peer) else None
  {
    assert Holds(s, p);
  }

  lemma EndIsHeard(s: Service, p: PeerId, cause: Disposition, q: PeerId)
    requires Inv(s) && p < |s.sockets| && s.sockets[p].open && q < |s.sockets|
    ensures RoomsOk(s.rooms)
    ensures var b := HandleEnd(s, p, cause).sockets;
      |b| == |s.sockets| && b[q].inbox == s.sockets[q].inbox + Heard(s, SocketEnds(p, cause), q)
  {
    if s.sockets[p].session.None? {
      assert s.sockets[q].inbox + [] == s.sockets[q].inbox;
    } else {
      EndingAnswers(s, p);
      PartnerAtIs(s, p);
      ToldOfEndIs(s, p, cause);
      var partner, f := PartnerOf(RoomOf(s, p), p), ToldOfEnd(s.sockets[p], cause);
      RoomsAreOpen(s, s.sockets[p].session.value.room);
      OtherIsPartner(RoomOf(s, p), p, q);
      if partner.Some? { PartnerIsTheOtherPresentSeat(RoomOf(s, p), p, partner.value); }
      EndedGains(s.sockets, p, cause, partner, f, q);
      EndSends(s, p, cause, partner, f);
    }
  }

  lemma EndSends(s: Service, p: PeerId, cause: Disposition, partner: Option<Peer>, f: Frame)
    requires RoomsOk(s.rooms) && p < |s.sockets| && s.sockets[p].session.Some?
    requires var room := s.sockets[p].session.value.room;
      var (away, left) := (MarkAbsentAt(s.rooms, room, p).1, LeaveAt(s.rooms, room, p).1);
      (if away.Some? then away.value else None) == partner == left
    requires var ended := End(s.sockets[p := s.sockets[p].(open := false)], p, cause);
      && ended[p].disposition.Some?
      && f == if KeepsSeat(ended[p].disposition.value) then PeerAway else PeerLeft
    ensures HandleEnd(s, p, cause).sockets ==
            DeliverTo(End(s.sockets[p := s.sockets[p].(open := false)], p, cause), partner, f)
  {}

  lemma GraceIsHeard(s: Service, room: RoomId, p: PeerId, q: PeerId)
    requires Inv(s) && q < |s.sockets|
    ensures RoomsOk(s.rooms)
    ensures var b := HandleGraceEnd(s, room, p).sockets;
      |b| == |s.sockets| && b[q].inbox == s.sockets[q].inbox + Heard(s, GraceEnds(room, p), q)
  {
    var seats := Find(s.rooms, room);
    RoomsAreOpen(s, room);
    OtherIsPartner(seats, p, q);
    SeatOfIsSeated(seats, p);
    var o := ExpireAt(s.rooms, room, p).1;
    if Holds(seats, p) {
      var i :| 0 <= i < |seats.list| && seats.list[i].peer.id == p;
      EndingsNameTheOther(seats, p, i);
      PartnerOfIs(seats, p, i);
      if o.Some? && o.value.Some? { SeatedIsOpen(seats, s.sockets, Seat(o.value.value, true)); }
    } else {
      EndingsOfNobody(seats, p);
    }
    if o.Some? { DeliverToGains(s.sockets, o.value, PeerLeft, q); }
  }

  lemma EventIsHeard(s: Service, e: Event, q: PeerId)
    requires Inv(s) && q < |s.sockets|
    ensures RoomsOk(s.rooms)
    ensures var t := Apply(s, e); q < |t.sockets| && t.sockets[q].inbox == s.sockets[q].inbox + Heard(s, e, q)
  {
    assert s.sockets[q].inbox + [] == s.sockets[q].inbox;
    match e
    case Connect(_) =>
    case JoinFrame(p, room, group) => if MayJoin(s, p) { JoinGains(s, p, room, group, q); }
    case ResumeFrame(p, room, group, seat) => if MayJoin(s, p) { ResumeGains(s, p, room, group, seat, q); }
    case RelayFrame(p, kind) =>
      if p < |s.sockets| && s.sockets[p].open && s.sockets[p].session.Some? { RelayGains(s, p, kind, q); }
    case SocketEnds(p, cause) => if p < |s.sockets| && s.sockets[p].open { EndIsHeard(s, p, cause, q); }
    case GraceEnds(room, p) => GraceIsHeard(s, room, p, q);
  }

  // ---------- Every run ----------

  /** In every run an event adds to each inbox exactly the frames its receiver is due, in their order: to
      those the seats of the room single out, and nothing to anybody else. A new socket's inbox is
      empty. */
  lemma EverybodyHearsWhatIsDue(es: seq<Event>, e: Event, q: PeerId)
    requires q < |Run(es + [e]).sockets|
    ensures var s, t := Run(es), Run(es + [e]);
      t.sockets[q].inbox == if q < |s.sockets| then s.sockets[q].inbox + Heard(s, e, q) else []
  {
    assert (es + [e])[..|es|] == es;
    var s := Run(es);
    if q < |s.sockets| { EventIsHeard(s, e, q); } else { NobodyElseConnects(s, e); }
  }

  lemma NobodyElseConnects(s: Service, e: Event)
    requires RoomsOk(s.rooms)
    ensures var t := Apply(s, e).sockets;
      |t| == |s.sockets| + (if e.Connect? then 1 else 0) && (e.Connect? ==> t[|s.sockets|].inbox == [])
  {}

  lemma RelayIsDue(s: Service, r: RoomId, i: nat, kind: RelayedKind, q: PeerId)
    requires Inv(s) && r in s.rooms && i <= 1 && BothPresent(s.rooms[r])
    ensures var p, other := s.rooms[r].list[i].peer.id, s.rooms[r].list[1 - i].peer.id;
      other < |s.sockets| && Heard(s, RelayFrame(p, kind), q) == if q == other then [Relayed(kind, p)] else []
  {
    assert RoomOk(s.sockets, r, s.rooms[r]);
    assert SeatOk(s.sockets, r, s.rooms[r].list[i]) && SeatOk(s.sockets, r, s.rooms[r].list[1 - i]);
  }

  /** So a frame relayed while both parties are present is heard by the other one, once, and by nobody
      else. */
  lemma ARelayArrives(es: seq<Event>, r: RoomId, i: nat, kind: RelayedKind, q: PeerId)
    requires r in Run(es).rooms && i <= 1 && BothPresent(Run(es).rooms[r]) && q < |Run(es).sockets|
    ensures var s := Run(es);
      var p, other := s.rooms[r].list[i].peer.id, s.rooms[r].list[1 - i].peer.id;
      var t := Run(es + [RelayFrame(p, kind)]);
      && |t.sockets| == |s.sockets| && other < |s.sockets|
      && t.sockets[q].inbox == s.sockets[q].inbox + if q == other then [Relayed(kind, p)] else []
  {
    var e := RelayFrame(Run(es).rooms[r].list[i].peer.id, kind);
    RelayIsDue(Run(es), r, i, kind, q);
    assert (es + [e])[..|es|] == es;
    NobodyElseConnects(Run(es), e);
    EventIsHeard(Run(es), e, q);
  }
}
