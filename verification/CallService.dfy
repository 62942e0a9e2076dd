/**
  The call service as a run of handlers, each one step: it decides on the room map, then sends.
  Socket `p` is the p-th one opened, so its id is fresh and never reused. A frame handed to an
  open socket is never dropped here; a closed socket receives nothing.

  Main result, for every run: what each seated peer was last told about its partner is the truth
  about the room, roles included.
*/
module CallService {
  import opened Counters
  import opened Options
  import opened Seating
  import opened RoomMap

  datatype Disposition =
    | ClientClose | TransportError | StreamEnded | RateLimited | SendFailed
    | SiblingEvicted | RoomReaped | ResumedElsewhere | KeepaliveLost

  // Whether a seat survives this ending, away: only the network failing does that.
  predicate KeepsSeat(d: Disposition) {
    d == TransportError || d == StreamEnded || d == SendFailed || d == KeepaliveLost
  }

  datatype Frame =
    | Joined(seat: PeerId)
    | PeerReady(initiator: bool, resumed: bool)
    | PeerAway
    | PeerLeft
    | Refused
    | Shutdown
    | Relayed(kind: RelayedKind, from: PeerId)

  datatype Ledger = Ledger(offersIn: nat, offersOut: nat, answersIn: nat, answersOut: nat,
                           iceIn: nat, iceOut: nat, iceInFailed: nat)

  const NEW_LEDGER := Ledger(0, 0, 0, 0, 0, 0, 0)

  datatype Session = Session(room: RoomId, group: GroupId)

  datatype Socket = Socket(user: UserId, open: bool, session: Option<Session>,
                           disposition: Option<Disposition>, inbox: seq<Frame>, ledger: Ledger)

  datatype Service = Service(rooms: Rooms, sockets: seq<Socket>)

  const INIT := Service(map[], [])

  datatype Event =
    | Connect(user: UserId)
    | JoinFrame(p: PeerId, room: RoomId, group: GroupId)
    | ResumeFrame(p: PeerId, room: RoomId, group: GroupId, seat: PeerId)
    | RelayFrame(p: PeerId, kind: RelayedKind)
    | SocketEnds(p: PeerId, cause: Disposition)
    | GraceEnds(room: RoomId, p: PeerId)

  // ---------- What a peer was told ----------

  datatype Told = Nothing | Ready(initiator: bool, resumed: bool) | ToldAway | ToldLeft

  // The latest frame of the inbox that speaks of the partner.
  function LastTold(inbox: seq<Frame>): (t: Told) {
    if inbox == [] then Nothing
    else match inbox[|inbox| - 1]
      case PeerReady(i, r) => Ready(i, r)
      case PeerAway => ToldAway
      case PeerLeft => ToldLeft
      case _ => LastTold(inbox[..|inbox| - 1])
  }

  // What one more frame makes of it.
  function ToldAfter(f: Frame, t: Told): (r: Told) {
    match f
    case PeerReady(i, r) => Ready(i, r)
    case PeerAway => ToldAway
    case PeerLeft => ToldLeft
    case _ => t
  }

  lemma LastToldSnoc(inbox: seq<Frame>, f: Frame)
    ensures LastTold(inbox + [f]) == ToldAfter(f, LastTold(inbox))
  {
    assert (inbox + [f])[..|inbox|] == inbox;
  }

  // ---------- Sending and recording ----------

  function Deliver(sockets: seq<Socket>, p: PeerId, f: Frame): (r: seq<Socket>)
    ensures |r| == |sockets|
    ensures forall q :: 0 <= q < |r| ==> r[q] == sockets[q].(inbox := r[q].inbox)
    ensures forall q :: 0 <= q < |r| && q != p ==> r[q] == sockets[q]
    ensures p < |r| && r[p].open ==> LastTold(r[p].inbox) == ToldAfter(f, LastTold(sockets[p].inbox))
    ensures p < |r| && !r[p].open ==> r[p] == sockets[p]
  {
    if p < |sockets| && sockets[p].open then
      LastToldSnoc(sockets[p].inbox, f);
      sockets[p := sockets[p].(inbox := sockets[p].inbox + [f])]
    else sockets
  }

  // Records why a session ended, keeping the first cause.
  function End(sockets: seq<Socket>, p: PeerId, d: Disposition): (r: seq<Socket>)
    ensures |r| == |sockets|
  {
    if p < |sockets| && sockets[p].disposition.None? then
      sockets[p := sockets[p].(disposition := Some(d))]
    else sockets
  }

  function DeliverTo(sockets: seq<Socket>, to: Option<Peer>, f: Frame): (r: seq<Socket>)
    ensures |r| == |sockets|
  {
    if to.Some? then Deliver(sockets, to.value.id, f) else sockets
  }

  function Evict(sockets: seq<Socket>, evicted: seq<Peer>): (r: seq<Socket>)
    ensures |r| == |sockets|
    ensures forall q :: 0 <= q < |r| ==> r[q].session == sockets[q].session
    ensures forall q :: 0 <= q < |r| && (forall e :: e in evicted ==> e.id != q) ==> r[q] == sockets[q]
    decreases |evicted|
  {
    if evicted == [] then sockets
    else Evict(Deliver(End(sockets, evicted[0].id, SiblingEvicted), evicted[0].id, PeerLeft), evicted[1..])
  }

  // The stale socket of a resumed seat is recorded as such and told to close.
  function Replace(sockets: seq<Socket>, replaced: Option<Peer>): (r: seq<Socket>)
    ensures |r| == |sockets|
    ensures forall q :: 0 <= q < |r| ==> r[q].session == sockets[q].session
    ensures forall q :: 0 <= q < |r| && (replaced.None? || replaced.value.id != q) ==> r[q] == sockets[q]
  {
    if replaced.None? then sockets
    else Deliver(End(sockets, replaced.value.id, ResumedElsewhere), replaced.value.id, Shutdown)
  }

  // The session begins on the socket's own stack. Its ledger counts from zero, and a socket begins
  // one session in its life, so the ledger is the socket's.
  function Begin(sockets: seq<Socket>, p: PeerId, session: Session): (r: seq<Socket>)
    requires p < |sockets|
    ensures |r| == |sockets|
  {
    sockets[p := sockets[p].(session := Some(session))]
  }

  function AnnouncePair(sockets: seq<Socket>, initiator: PeerId, polite: PeerId, resumed: bool): (r: seq<Socket>)
    ensures |r| == |sockets|
  {
    Deliver(Deliver(sockets, initiator, PeerReady(true, resumed)), polite, PeerReady(false, resumed))
  }

  // ---------- The handlers ----------

  // What a join's outcome makes the service record and send.
  function JoinSends(sockets: seq<Socket>, p: PeerId, session: Session, outcome: JoinOutcome): (r: seq<Socket>)
    requires p < |sockets|
    ensures |r| == |sockets|
  {
    if outcome.Full? || outcome.OtherGroup? then Deliver(sockets, p, Refused)
    else
      var seated := Deliver(Evict(Begin(sockets, p, session), outcome.evicted), p, Joined(p));
      match outcome
      case PartnerAway(_) => Deliver(seated, p, PeerAway)
      case Paired(initiator, _) => AnnouncePair(seated, initiator.id, p, false)
      case _ => seated
  }

  function HandleJoin(s: Service, p: PeerId, room: RoomId, group: GroupId): (t: Service)
    requires RoomsOk(s.rooms) && p < |s.sockets|
  {
    var (rooms, outcome) := JoinAt(s.rooms, room, Peer(p, s.sockets[p].user, group));
    Service(rooms, JoinSends(s.sockets, p, Session(room, group), outcome))
  }

  // What the resumed seat, and its partner when present, are told.
  function TellPartner(sockets: seq<Socket>, p: PeerId, o: PartnerState): (r: seq<Socket>)
    ensures |r| == |sockets|
  {
    match o
    case Alone(wasPaired) => if wasPaired then Deliver(sockets, p, PeerLeft) else sockets
    case Away => Deliver(sockets, p, PeerAway)
    case Present(partner, iAmInitiator, resumed) =>
      if iAmInitiator then AnnouncePair(sockets, p, partner.id, resumed)
      else AnnouncePair(sockets, partner.id, p, resumed)
  }

  // What a resume's outcome makes the service record and send.
  function ResumeSends(sockets: seq<Socket>, p: PeerId, session: Session, outcome: ResumeOutcome): (r: seq<Socket>)
    requires p < |sockets|
    ensures |r| == |sockets|
  {
    if outcome.Unknown? then Deliver(sockets, p, Refused)
    else
      var begun := Begin(sockets, p, session);
      TellPartner(Deliver(Replace(begun, outcome.replaced), p, Joined(p)), p, outcome.partner)
  }

  function HandleResume(s: Service, p: PeerId, room: RoomId, group: GroupId, seat: PeerId): (t: Service)
    requires RoomsOk(s.rooms) && p < |s.sockets|
  {
    var (rooms, outcome) := ResumeAt(s.rooms, room, seat, Peer(p, s.sockets[p].user, group));
    Service(rooms, ResumeSends(s.sockets, p, Session(room, group), outcome))
  }

  // The sender's and the receiver's side of one relayed frame's count.
  function CountIn(kind: RelayedKind, l: Ledger): Ledger {
    match kind
    case Offer => l.(offersIn := Bump(l.offersIn))
    case Answer => l.(answersIn := Bump(l.answersIn))
    case Ice => l.(iceIn := Bump(l.iceIn))
    case _ => l
  }

  function CountOut(kind: RelayedKind, l: Ledger): Ledger {
    match kind
    case Offer => l.(offersOut := Bump(l.offersOut))
    case Answer => l.(answersOut := Bump(l.answersOut))
    case Ice => l.(iceOut := Bump(l.iceOut))
    case _ => l
  }

  function Count(sockets: seq<Socket>, kind: RelayedKind, from: PeerId, to: PeerId): (r: seq<Socket>)
    requires from < |sockets| && to < |sockets|
    ensures |r| == |sockets|
    ensures forall q :: 0 <= q < |r| ==> r[q] == sockets[q].(ledger := r[q].ledger)
  {
    var sent := sockets[from := sockets[from].(ledger := CountIn(kind, sockets[from].ledger))];
    sent[to := sent[to].(ledger := CountOut(kind, sent[to].ledger))]
  }

  function HandleRelay(s: Service, p: PeerId, kind: RelayedKind): (t: Service)
    requires RoomsOk(s.rooms) && p < |s.sockets| && s.sockets[p].session.Some?
  {
    var room := s.sockets[p].session.value.room;
    var partner := PartnerAt(s.rooms, room, p);
    if partner.None? then
      if kind.Ice? && room in s.rooms && Holds(s.rooms[room], p) then
        var ledger := s.sockets[p].ledger;
        s.(sockets := s.sockets[p := s.sockets[p].(ledger := ledger.(iceInFailed := Bump(ledger.iceInFailed)))])
      else s
    else
      var q := partner.value.id;
      if q < |s.sockets| && s.sockets[q].open then
        s.(sockets := Count(Deliver(s.sockets, q, Relayed(kind, p)), kind, p, q))
      else s
  }

  // The socket loop breaks with `cause`; the FIRST cause on the record decides what its tail does.
  function HandleEnd(s: Service, p: PeerId, cause: Disposition): (t: Service)
    requires RoomsOk(s.rooms) && p < |s.sockets|
  {
    var closed := s.sockets[p := s.sockets[p].(open := false)];
    if s.sockets[p].session.None? then s.(sockets := closed)
    else
      var room := s.sockets[p].session.value.room;
      var ended := End(closed, p, cause);
      if KeepsSeat(ended[p].disposition.value) then
        var (rooms, partner) := MarkAbsentAt(s.rooms, room, p);
        Service(rooms, if partner.Some? then DeliverTo(ended, partner.value, PeerAway) else ended)
      else
        var (rooms, remaining) := LeaveAt(s.rooms, room, p);
        Service(rooms, DeliverTo(ended, remaining, PeerLeft))
  }

  function HandleGraceEnd(s: Service, room: RoomId, p: PeerId): (t: Service)
    requires RoomsOk(s.rooms)
  {
    var (rooms, partner) := ExpireAt(s.rooms, room, p);
    Service(rooms, if partner.Some? then DeliverTo(s.sockets, partner.value, PeerLeft) else s.sockets)
  }

  // A socket already in a room is refused a second join, whatever its token.
  predicate MayJoin(s: Service, p: PeerId) {
    p < |s.sockets| && s.sockets[p].open && s.sockets[p].session.None?
  }

  // An event that finds nothing to act on changes nothing.
  function Apply(s: Service, e: Event): (t: Service)
    requires RoomsOk(s.rooms)
  {
    match e
    case Connect(user) => s.(sockets := s.sockets + [Socket(user, true, None, None, [], NEW_LEDGER)])
    case JoinFrame(p, room, group) => if MayJoin(s, p) then HandleJoin(s, p, room, group) else s
    case ResumeFrame(p, room, group, seat) => if MayJoin(s, p) then HandleResume(s, p, room, group, seat) else s
    case RelayFrame(p, kind) =>
      if p < |s.sockets| && s.sockets[p].open && s.sockets[p].session.Some? then HandleRelay(s, p, kind) else s
    case SocketEnds(p, cause) => if p < |s.sockets| && s.sockets[p].open then HandleEnd(s, p, cause) else s
    case GraceEnds(room, p) => HandleGraceEnd(s, room, p)
  }

  // What the seat at `i` must have been told, given the room.
  predicate ToldTruth(t: Told, s: Seats, i: nat)
    requires i < |s.list| <= 2
  {
    if |s.list| == 1 then t == Nothing || t == ToldLeft
    else if s.list[1 - i].present then t.Ready? && t.initiator == (i == 0)
    else t == ToldAway
  }

  // ---------- The invariant ----------

  predicate SeatOk(sockets: seq<Socket>, r: RoomId, seat: Seat) {
    var p := seat.peer.id;
    && p < |sockets|
    && sockets[p].session == Some(Session(r, seat.peer.group))
    && sockets[p].user == seat.peer.user
    && (seat.present ==> sockets[p].open && sockets[p].disposition.None?)
    && (!seat.present ==> !sockets[p].open)
  }

  predicate RoomOk(sockets: seq<Socket>, r: RoomId, s: Seats) {
    && Valid(s)
    && s.list != []
    && (forall i :: 0 <= i < |s.list| ==> SeatOk(sockets, r, s.list[i]))
    && (forall i :: 0 <= i < |s.list| && s.list[i].present ==> ToldTruth(LastTold(sockets[s.list[i].peer.id].inbox), s, i))
    && (BothPresent(s) ==>
          LastTold(sockets[s.list[0].peer.id].inbox).resumed == LastTold(sockets[s.list[1].peer.id].inbox).resumed)
  }

  // A socket that never joined has been told nothing and has no record.
  predicate UnseatedOk(socket: Socket) {
    socket.session.None? ==> LastTold(socket.inbox) == Nothing && socket.disposition.None?
  }

  predicate Inv(s: Service) {
    && (forall r :: r in s.rooms ==> RoomOk(s.sockets, r, s.rooms[r]))
    && (forall p :: 0 <= p < |s.sockets| ==> UnseatedOk(s.sockets[p]))
  }

  // ---------- Every handler keeps the invariant ----------

  predicate SessionIn(socket: Socket, r: RoomId) {
    socket.session.Some? && socket.session.value.room == r
  }

  // A room whose sockets did not change stays as it was.
  lemma RoomFrame(before: seq<Socket>, after: seq<Socket>, r: RoomId, s: Seats)
    requires RoomOk(before, r, s) && |before| <= |after|
    requires forall q :: 0 <= q < |before| && SessionIn(before[q], r) ==> after[q] == before[q]
    ensures RoomOk(after, r, s)
  {
    forall i | 0 <= i < |s.list| ensures SeatOk(after, r, s.list[i]) && after[s.list[i].peer.id] == before[s.list[i].peer.id] {
      assert SeatOk(before, r, s.list[i]);
    }
  }

  // What a handler on room `r` must establish: the room it leaves is right, and it touched no
  // socket of another room.
  lemma Rebuild(s: Service, t: Service, r: RoomId)
    requires Inv(s) && |s.sockets| <= |t.sockets|
    requires t.rooms - {r} == s.rooms - {r}
    requires r in t.rooms ==> RoomOk(t.sockets, r, t.rooms[r])
    requires forall q :: 0 <= q < |s.sockets| && s.sockets[q].session.Some? && !SessionIn(s.sockets[q], r) ==>
      t.sockets[q] == s.sockets[q]
    requires forall q :: 0 <= q < |t.sockets| ==> UnseatedOk(t.sockets[q])
    ensures Inv(t)
  {
    forall x | x in t.rooms ensures RoomOk(t.sockets, x, t.rooms[x]) {
      if x != r {
        assert x in t.rooms - {r};
        assert t.rooms[x] == (t.rooms - {r})[x] == (s.rooms - {r})[x] == s.rooms[x];
        RoomFrame(s.sockets, t.sockets, x, s.rooms[x]);
      }
    }
  }

  // A socket that may still join holds no seat anywhere.
  lemma JoinerHoldsNoSeat(s: Service, p: PeerId, r: RoomId)
    requires Inv(s) && MayJoin(s, p)
    ensures !Holds(Find(s.rooms, r), p)
  {}

  // The socket `p` as a handler on its room may have left it: same owner, perhaps told more.
  predicate Follows(before: Socket, after: Socket, told: Told) {
    && after.user == before.user && after.open == before.open
    && after.session == before.session && after.disposition == before.disposition
    && LastTold(after.inbox) == told
  }

  // A newcomer's socket once its session began.
  predicate Begun(before: Socket, after: Socket, session: Session, told: Told) {
    && after.user == before.user && after.open && after.session == Some(session)
    && after.disposition.None? && LastTold(after.inbox) == told
  }

  // What is sent on an admitted join: nobody but the joiner changes session; only the joiner, the
  // evicted and the initiator are touched; the pair is told its roles.
  predicate JoinFacts(before: seq<Socket>, after: seq<Socket>, p: PeerId, session: Session, o: JoinOutcome)
    requires !o.Full? && !o.OtherGroup?
  {
    && |after| == |before| && p < |before|
    && (forall q :: 0 <= q < |after| && q != p ==> after[q].session == before[q].session)
    && (forall q :: 0 <= q < |after| && q != p && (forall e :: e in o.evicted ==> e.id != q)
          && (o.Paired? ==> q != o.initiator.id)
          ==> after[q] == before[q])
    && Begun(before[p], after[p], session,
             if o.Waiting? then Nothing else if o.Paired? then Ready(false, false) else ToldAway)
    && (o.Paired? ==>
          && o.initiator.id < |before|
          && Follows(before[o.initiator.id], after[o.initiator.id], Ready(true, false)))
  }

  // Whom an admitted join names: never the joiner, never one peer twice, and only sockets of the room.
  predicate JoinNames(sockets: seq<Socket>, p: PeerId, room: RoomId, o: JoinOutcome)
    requires !o.Full? && !o.OtherGroup?
  {
    && (forall e :: e in o.evicted ==> e.id != p && e.id < |sockets| && SessionIn(sockets[e.id], room))
    && (o.Paired? ==>
          && o.initiator.id < |sockets| && SessionIn(sockets[o.initiator.id], room)
          && sockets[o.initiator.id].open && o.initiator.id != p
          && (forall e :: e in o.evicted ==> e.id != o.initiator.id))
  }

  lemma JoinSendsFacts(sockets: seq<Socket>, p: PeerId, session: Session, o: JoinOutcome)
    requires p < |sockets| && sockets[p].open && UnseatedOk(sockets[p]) && sockets[p].session.None?
    requires !o.Full? && !o.OtherGroup? && JoinNames(sockets, p, session.room, o)
    ensures JoinFacts(sockets, JoinSends(sockets, p, session, o), p, session, o)
  {
    var begun := Begin(sockets, p, session);
    var evicted := Evict(begun, o.evicted);
    assert evicted[p] == begun[p];
    if o.Paired? { assert evicted[o.initiator.id] == begun[o.initiator.id]; }
  }

  predicate SeatsOk(sockets: seq<Socket>, r: RoomId, s: Seats) {
    forall i :: 0 <= i < |s.list| ==> SeatOk(sockets, r, s.list[i])
  }

  ghost predicate SeatTold(sockets: seq<Socket>, r: RoomId, s: Seats, i: nat)
    requires Valid(s) && i < |s.list|
  {
    && SeatOk(sockets, r, s.list[i])
    && (s.list[i].present ==> ToldTruth(LastTold(sockets[s.list[i].peer.id].inbox), s, i))
  }

  lemma RoomOfTwo(sockets: seq<Socket>, r: RoomId, s: Seats, i: nat)
    requires Valid(s) && |s.list| == 2 && i <= 1 && SeatTold(sockets, r, s, i) && SeatTold(sockets, r, s, 1 - i)
    requires s.list[i].present && s.list[1 - i].present ==>
      LastTold(sockets[s.list[i].peer.id].inbox).resumed == LastTold(sockets[s.list[1 - i].peer.id].inbox).resumed
    ensures RoomOk(sockets, r, s)
  {}

  // The room a join leaves, given what was sent.
  lemma JoinRoomOk(before: seq<Socket>, after: seq<Socket>, room: RoomId, s: Seats, peer: Peer)
    requires Valid(s) && SeatsOk(before, room, s) && !Holds(s, peer.id)
    requires peer.id < |before| && peer.user == before[peer.id].user
    requires var o := Join(s, peer).1;
      !o.Full? && !o.OtherGroup? && JoinFacts(before, after, peer.id, Session(room, peer.group), o)
    ensures RoomOk(after, room, Join(s, peer).0)
  {
    JoinKeepsValid(s, peer);
    NewcomerTold(before, after, room, s, peer);
    var t := Join(s, peer).0;
    if |t.list| == 2 {
      KeptPartnerTold(before, after, room, s, peer);
      PairAgrees(before, after, room, s, peer);
      RoomOfTwo(after, room, t, 1);
    } else {
      RoomOfOne(after, room, t);
    }
  }

  lemma RoomOfOne(sockets: seq<Socket>, r: RoomId, s: Seats)
    requires Valid(s) && |s.list| == 1 && SeatTold(sockets, r, s, 0)
    ensures RoomOk(sockets, r, s)
  {}

  lemma NewcomerTold(before: seq<Socket>, after: seq<Socket>, room: RoomId, s: Seats, peer: Peer)
    requires Valid(s) && peer.id < |before| && peer.user == before[peer.id].user && Valid(Join(s, peer).0)
    requires var o := Join(s, peer).1;
      !o.Full? && !o.OtherGroup? && JoinFacts(before, after, peer.id, Session(room, peer.group), o)
    ensures var t := Join(s, peer).0; 1 <= |t.list| <= 2 && SeatTold(after, room, t, |t.list| - 1)
  {}

  lemma PairAgrees(before: seq<Socket>, after: seq<Socket>, room: RoomId, s: Seats, peer: Peer)
    requires Valid(s) && peer.id < |before| && |Join(s, peer).0.list| == 2
    requires var o := Join(s, peer).1;
      !o.Full? && !o.OtherGroup? && JoinFacts(before, after, peer.id, Session(room, peer.group), o)
    requires forall i :: 0 <= i < 2 ==> Join(s, peer).0.list[i].peer.id < |after|
    ensures var list := Join(s, peer).0.list;
      list[0].present && list[1].present ==>
        && LastTold(after[list[0].peer.id].inbox) == Ready(true, false)
        && LastTold(after[list[1].peer.id].inbox) == Ready(false, false)
  {}

  lemma KeptPartnerTold(before: seq<Socket>, after: seq<Socket>, room: RoomId, s: Seats, peer: Peer)
    requires Valid(s) && SeatsOk(before, room, s) && !Holds(s, peer.id) && peer.id < |before|
    requires Valid(Join(s, peer).0) && |Join(s, peer).0.list| == 2
    requires var o := Join(s, peer).1;
      !o.Full? && !o.OtherGroup? && JoinFacts(before, after, peer.id, Session(room, peer.group), o)
    ensures SeatTold(after, room, Join(s, peer).0, 0)
  {
    var (t, o) := Join(s, peer);
    assert t.list[0] in s.list && SeatOk(before, room, t.list[0]);
    if o.PartnerAway? {
      var k := t.list[0].peer.id;
      assert forall e :: e in o.evicted ==> e.id != k;
      assert after[k] == before[k];
    }
  }

  lemma JoinNamesHold(sockets: seq<Socket>, room: RoomId, s: Seats, peer: Peer)
    requires Valid(s) && SeatsOk(sockets, room, s) && !Holds(s, peer.id)
    ensures var o := Join(s, peer).1; !o.Full? && !o.OtherGroup? ==> JoinNames(sockets, peer.id, room, o)
  {
    forall i | 0 <= i < |s.list| ensures SeatOk(sockets, room, s.list[i]) && s.list[i].peer.id != peer.id {}
  }

  lemma JoinAdmitted(s: Service, after: seq<Socket>, room: RoomId, peer: Peer)
    requires Inv(s) && MayJoin(s, peer.id) && peer.user == s.sockets[peer.id].user
    requires var o := Join(Find(s.rooms, room), peer).1;
      !o.Full? && !o.OtherGroup? && JoinFacts(s.sockets, after, peer.id, Session(room, peer.group), o)
    ensures Inv(Service(s.rooms[room := Join(Find(s.rooms, room), peer).0], after))
  {
    JoinerHoldsNoSeat(s, peer.id, room);
    var seats := Find(s.rooms, room);
    var o := Join(seats, peer).1;
    JoinNamesHold(s.sockets, room, seats, peer);
    JoinRoomOk(s.sockets, after, room, seats, peer);
    forall q | 0 <= q < |s.sockets| && q != peer.id && !SessionIn(s.sockets[q], room)
      ensures after[q] == s.sockets[q]
    {
      assert forall e :: e in o.evicted ==> e.id != q;
    }
    Rebuild(s, Service(s.rooms[room := Join(seats, peer).0], after), room);
  }

  lemma JoinKeepsInv(s: Service, p: PeerId, room: RoomId, group: GroupId)
    requires Inv(s) && MayJoin(s, p)
    ensures Inv(HandleJoin(s, p, room, group))
  {
    JoinerHoldsNoSeat(s, p, room);
    var peer := Peer(p, s.sockets[p].user, group);
    var seats := Find(s.rooms, room);
    var (after, o) := Join(seats, peer);
    assert SeatsOk(s.sockets, room, seats);
    if !o.Full? && !o.OtherGroup? {
      JoinNamesHold(s.sockets, room, seats, peer);
      JoinSendsFacts(s.sockets, p, Session(room, group), o);
      JoinAdmitted(s, JoinSends(s.sockets, p, Session(room, group), o), room, peer);
    } else {
      RefusedJoinKeepsInv(s, p, room, group);
    }
  }

  lemma RefusedJoinKeepsInv(s: Service, p: PeerId, room: RoomId, group: GroupId)
    requires Inv(s) && MayJoin(s, p)
    requires var o := Join(Find(s.rooms, room), Peer(p, s.sockets[p].user, group)).1; o.Full? || o.OtherGroup?
    ensures Inv(HandleJoin(s, p, room, group))
  {
    RefusedJoinMapsNothing(s.rooms, room, Peer(p, s.sockets[p].user, group));
    RefusalKeepsInv(s, p);
  }

  // What is sent on a successful resume.
  predicate ResumeFacts(before: seq<Socket>, after: seq<Socket>, p: PeerId, session: Session,
                        replaced: Option<Peer>, o: PartnerState)
  {
    && |after| == |before| && p < |before|
    && (forall q :: 0 <= q < |after| && q != p ==> after[q].session == before[q].session)
    && (forall q :: 0 <= q < |after| && q != p && (replaced.Some? ==> q != replaced.value.id)
          && (o.Present? ==> q != o.partner.id)
          ==> after[q] == before[q])
    && Begun(before[p], after[p], session,
             if o.Present? then Ready(o.iAmInitiator, o.resumed)
             else if o.Away? then ToldAway else if o.wasPaired then ToldLeft else Nothing)
    && (o.Present? ==>
          && o.partner.id < |before|
          && Follows(before[o.partner.id], after[o.partner.id], Ready(!o.iAmInitiator, o.resumed)))
  }

  predicate ResumeNames(sockets: seq<Socket>, p: PeerId, room: RoomId, replaced: Option<Peer>, o: PartnerState) {
    && (replaced.Some? ==>
          && replaced.value.id != p && replaced.value.id < |sockets|
          && SessionIn(sockets[replaced.value.id], room))
    && (o.Present? ==>
          && o.partner.id < |sockets| && SessionIn(sockets[o.partner.id], room)
          && sockets[o.partner.id].open && o.partner.id != p
          && (replaced.Some? ==> o.partner.id != replaced.value.id))
  }

  predicate TellFacts(before: seq<Socket>, after: seq<Socket>, p: PeerId, o: PartnerState) {
    && |after| == |before| && p < |before|
    && (forall q :: 0 <= q < |after| && q != p && (o.Present? ==> q != o.partner.id) ==> after[q] == before[q])
    && Follows(before[p], after[p], if o.Present? then Ready(o.iAmInitiator, o.resumed)
                                    else if o.Away? then ToldAway else if o.wasPaired then ToldLeft else Nothing)
    && (o.Present? ==>
          && o.partner.id < |before|
          && Follows(before[o.partner.id], after[o.partner.id], Ready(!o.iAmInitiator, o.resumed)))
  }

  lemma TellPartnerFacts(sockets: seq<Socket>, p: PeerId, o: PartnerState)
    requires p < |sockets| && sockets[p].open && LastTold(sockets[p].inbox) == Nothing
    requires o.Present? ==> o.partner.id < |sockets| && sockets[o.partner.id].open && o.partner.id != p
    ensures TellFacts(sockets, TellPartner(sockets, p, o), p, o)
  {}

  // The new socket's session has begun and the stale one is ended; nobody else is touched.
  predicate SeatedFacts(before: seq<Socket>, after: seq<Socket>, p: PeerId, session: Session, replaced: Option<Peer>) {
    && |after| == |before| && p < |before|
    && (forall q :: 0 <= q < |after| && q != p ==> after[q].session == before[q].session)
    && (forall q :: 0 <= q < |after| && q != p && (replaced.Some? ==> q != replaced.value.id) ==> after[q] == before[q])
    && Begun(before[p], after[p], session, Nothing)
  }

  lemma SeatedSends(sockets: seq<Socket>, p: PeerId, session: Session, replaced: Option<Peer>)
    requires p < |sockets| && sockets[p].open && UnseatedOk(sockets[p]) && sockets[p].session.None?
    requires replaced.Some? ==> replaced.value.id != p
    ensures SeatedFacts(sockets, Deliver(Replace(Begin(sockets, p, session), replaced), p, Joined(p)), p, session, replaced)
  {
    var begun := Begin(sockets, p, session);
    assert Replace(begun, replaced)[p] == begun[p];
  }

  lemma SeatedThenTold(before: seq<Socket>, seated: seq<Socket>, after: seq<Socket>, p: PeerId, session: Session,
                       replaced: Option<Peer>, o: PartnerState)
    requires SeatedFacts(before, seated, p, session, replaced) && TellFacts(seated, after, p, o)
    requires ResumeNames(before, p, session.room, replaced, o)
    ensures ResumeFacts(before, after, p, session, replaced, o)
  {}

  lemma ResumeSendsFacts(sockets: seq<Socket>, p: PeerId, session: Session, replaced: Option<Peer>, o: PartnerState)
    requires p < |sockets| && sockets[p].open && UnseatedOk(sockets[p]) && sockets[p].session.None?
    requires ResumeNames(sockets, p, session.room, replaced, o)
    ensures ResumeFacts(sockets, ResumeSends(sockets, p, session, Resumed(replaced, o)), p, session, replaced, o)
  {
    var seated := Deliver(Replace(Begin(sockets, p, session), replaced), p, Joined(p));
    SeatedSends(sockets, p, session, replaced);
    TellPartnerFacts(seated, p, o);
    SeatedThenTold(sockets, seated, TellPartner(seated, p, o), p, session, replaced, o);
  }

  lemma ResumeNamesHold(sockets: seq<Socket>, room: RoomId, s: Seats, seat: PeerId, peer: Peer)
    requires Valid(s) && SeatsOk(sockets, room, s) && !Holds(s, peer.id)
    ensures var o := Resume(s, seat, peer).1; o.Resumed? ==> ResumeNames(sockets, peer.id, room, o.replaced, o.partner)
  {
    forall i | 0 <= i < |s.list| ensures SeatOk(sockets, room, s.list[i]) && s.list[i].peer.id != peer.id {}
  }

  // The room a resume leaves, given what was sent.
  lemma ResumeRoomOk(before: seq<Socket>, after: seq<Socket>, room: RoomId, s: Seats, seat: PeerId, peer: Peer)
    requires Valid(s) && SeatsOk(before, room, s) && !Holds(s, peer.id)
    requires peer.id < |before| && peer.user == before[peer.id].user
    requires var o := Resume(s, seat, peer).1;
      o.Resumed? && ResumeFacts(before, after, peer.id, Session(room, peer.group), o.replaced, o.partner)
    ensures RoomOk(after, room, Resume(s, seat, peer).0)
  {
    ResumeKeepsValid(s, seat, peer);
    var i := SeatIndex(s, seat, peer);
    var t := Resume(s, seat, peer).0;
    assert SeatTold(after, room, t, i);
    if |s.list| == 2 {
      ResumedPartnerTold(before, after, room, s, seat, peer, i);
      RoomOfTwo(after, room, t, i);
    }
  }

  lemma ResumedPartnerTold(before: seq<Socket>, after: seq<Socket>, room: RoomId, s: Seats, seat: PeerId, peer: Peer,
                           i: nat)
    requires Valid(s) && SeatsOk(before, room, s) && |s.list| == 2 && i <= 1 && i == SeatIndex(s, seat, peer)
    requires peer.id < |before| && !Holds(s, peer.id) && Valid(Resume(s, seat, peer).0)
    requires var o := Resume(s, seat, peer).1;
      o.Resumed? && ResumeFacts(before, after, peer.id, Session(room, peer.group), o.replaced, o.partner)
    ensures SeatTold(after, room, Resume(s, seat, peer).0, 1 - i)
  {
    var other := s.list[1 - i];
    assert SeatOk(before, room, other);
    assert other.peer.id != peer.id;
    if !other.present { assert after[other.peer.id] == before[other.peer.id]; }
  }

  lemma ResumeAdmitted(s: Service, after: seq<Socket>, room: RoomId, seat: PeerId, peer: Peer)
    requires Inv(s) && MayJoin(s, peer.id) && peer.user == s.sockets[peer.id].user && room in s.rooms
    requires var o := Resume(s.rooms[room], seat, peer).1;
      o.Resumed? && ResumeFacts(s.sockets, after, peer.id, Session(room, peer.group), o.replaced, o.partner)
    ensures Inv(Service(s.rooms[room := Resume(s.rooms[room], seat, peer).0], after))
  {
    JoinerHoldsNoSeat(s, peer.id, room);
    var seats := s.rooms[room];
    ResumeNamesHold(s.sockets, room, seats, seat, peer);
    ResumeRoomOk(s.sockets, after, room, seats, seat, peer);
    Rebuild(s, Service(s.rooms[room := Resume(seats, seat, peer).0], after), room);
  }

  lemma ResumeKeepsInv(s: Service, p: PeerId, room: RoomId, group: GroupId, seat: PeerId)
    requires Inv(s) && MayJoin(s, p)
    ensures Inv(HandleResume(s, p, room, group, seat))
  {
    JoinerHoldsNoSeat(s, p, room);
    var peer := Peer(p, s.sockets[p].user, group);
    var outcome := ResumeAt(s.rooms, room, seat, peer).1;
    if outcome.Resumed? {
      ResumeNamesHold(s.sockets, room, s.rooms[room], seat, peer);
      ResumeSendsFacts(s.sockets, p, Session(room, group), outcome.replaced, outcome.partner);
      ResumeAdmitted(s, ResumeSends(s.sockets, p, Session(room, group), outcome), room, seat, peer);
    } else {
      RefusedResumeKeepsInv(s, p, room, group, seat);
    }
  }

  lemma RefusedResumeKeepsInv(s: Service, p: PeerId, room: RoomId, group: GroupId, seat: PeerId)
    requires Inv(s) && MayJoin(s, p) && ResumeAt(s.rooms, room, seat, Peer(p, s.sockets[p].user, group)).1.Unknown?
    ensures Inv(HandleResume(s, p, room, group, seat))
  {
    RefusedResumeMapsNothing(s.rooms, room, seat, Peer(p, s.sockets[p].user, group));
    RefusalKeepsInv(s, p);
  }

  // The socket `p` closed; the party left behind, if any, was told; nobody else is touched.
  predicate EndFacts(before: seq<Socket>, after: seq<Socket>, p: PeerId, to: Option<Peer>, told: Told) {
    && |after| == |before| && p < |before|
    && !after[p].open && after[p].session == before[p].session && after[p].user == before[p].user
    && (forall q :: 0 <= q < |after| && q != p && (to.Some? ==> q != to.value.id) ==> after[q] == before[q])
    && (to.Some? ==> to.value.id < |before| && Follows(before[to.value.id], after[to.value.id], told))
  }

  lemma EndSends(sockets: seq<Socket>, p: PeerId, cause: Disposition, to: Option<Peer>, f: Frame)
    requires f == PeerAway || f == PeerLeft
    requires p < |sockets| && (to.Some? ==> to.value.id < |sockets| && to.value.id != p && sockets[to.value.id].open)
    ensures EndFacts(sockets, DeliverTo(End(sockets[p := sockets[p].(open := false)], p, cause), to, f), p, to,
                     ToldAfter(f, Nothing))
  {}

  lemma PartnerIsOpen(sockets: seq<Socket>, room: RoomId, s: Seats, p: PeerId)
    requires RoomOk(sockets, room, s)
    ensures var o := PresentOther(s, p);
      o.Some? ==>
        && o.value.id < |sockets| && o.value.id != p && sockets[o.value.id].open
        && SessionIn(sockets[o.value.id], room)
  {}

  lemma AwayRoomOk(before: seq<Socket>, after: seq<Socket>, room: RoomId, s: Seats, p: PeerId)
    requires RoomOk(before, room, s)
    requires EndFacts(before, after, p, if MarkAbsent(s, p).1.Some? then MarkAbsent(s, p).1.value else None, ToldAway)
    requires p < |before| && before[p].open
    ensures RoomOk(after, room, MarkAbsent(s, p).0)
  {
    forall i | 0 <= i < |s.list| ensures SeatOk(before, room, s.list[i]) {}
  }

  lemma LeftRoomOk(before: seq<Socket>, after: seq<Socket>, room: RoomId, s: Seats, p: PeerId)
    requires RoomOk(before, room, s)
    requires EndFacts(before, after, p, Leave(s, p).1, ToldLeft)
    requires p < |before| && before[p].open
    ensures Leave(s, p).0.list != [] ==> RoomOk(after, room, Leave(s, p).0)
  {
    forall i | 0 <= i < |s.list| ensures SeatOk(before, room, s.list[i]) {}
  }

  // Closing `p` on its room keeps every other room right.
  lemma EndedKeepsInv(s: Service, t: Service, p: PeerId, room: RoomId, to: Option<Peer>, told: Told)
    requires Inv(s) && EndFacts(s.sockets, t.sockets, p, to, told) && SessionIn(s.sockets[p], room)
    requires to.Some? ==> SessionIn(s.sockets[to.value.id], room)
    requires t.rooms - {room} == s.rooms - {room}
    requires room in t.rooms ==> RoomOk(t.sockets, room, t.rooms[room])
    ensures Inv(t)
  {
    Rebuild(s, t, room);
  }

  lemma AwayKeepsInv(s: Service, p: PeerId, room: RoomId, after: seq<Socket>)
    requires Inv(s) && p < |s.sockets| && s.sockets[p].open && SessionIn(s.sockets[p], room)
    requires var o := MarkAbsentAt(s.rooms, room, p).1;
      EndFacts(s.sockets, after, p, if o.Some? then o.value else None, ToldAway)
    ensures Inv(Service(MarkAbsentAt(s.rooms, room, p).0, after))
  {
    var (rooms, o) := MarkAbsentAt(s.rooms, room, p);
    if room in s.rooms {
      PartnerIsOpen(s.sockets, room, s.rooms[room], p);
      AwayRoomOk(s.sockets, after, room, s.rooms[room], p);
    }
    EndedKeepsInv(s, Service(rooms, after), p, room, if o.Some? then o.value else None, ToldAway);
  }

  lemma LeftKeepsInv(s: Service, p: PeerId, room: RoomId, after: seq<Socket>)
    requires Inv(s) && p < |s.sockets| && s.sockets[p].open && SessionIn(s.sockets[p], room)
    requires EndFacts(s.sockets, after, p, LeaveAt(s.rooms, room, p).1, ToldLeft)
    ensures Inv(Service(LeaveAt(s.rooms, room, p).0, after))
  {
    var (rooms, o) := LeaveAt(s.rooms, room, p);
    if room in s.rooms {
      PartnerIsOpen(s.sockets, room, s.rooms[room], p);
      LeftRoomOk(s.sockets, after, room, s.rooms[room], p);
    }
    EndedKeepsInv(s, Service(rooms, after), p, room, o, ToldLeft);
  }

  // The socket never joined: nobody's room is concerned.
  lemma UnjoinedEndKeepsInv(s: Service, p: PeerId)
    requires Inv(s) && p < |s.sockets| && s.sockets[p].session.None?
    ensures Inv(s.(sockets := s.sockets[p := s.sockets[p].(open := false)]))
  {
    var after := s.sockets[p := s.sockets[p].(open := false)];
    forall r | r in s.rooms ensures RoomOk(after, r, s.rooms[r]) { RoomFrame(s.sockets, after, r, s.rooms[r]); }
  }

  lemma AwayEndKeepsInv(s: Service, p: PeerId, cause: Disposition, room: RoomId)
    requires Inv(s) && p < |s.sockets| && s.sockets[p].open && SessionIn(s.sockets[p], room)
    ensures var o := MarkAbsentAt(s.rooms, room, p).1;
      var ended := End(s.sockets[p := s.sockets[p].(open := false)], p, cause);
      Inv(Service(MarkAbsentAt(s.rooms, room, p).0, DeliverTo(ended, if o.Some? then o.value else None, PeerAway)))
  {
    if room in s.rooms { PartnerIsOpen(s.sockets, room, s.rooms[room], p); }
    var o := MarkAbsentAt(s.rooms, room, p).1;
    var to := if o.Some? then o.value else None;
    EndSends(s.sockets, p, cause, to, PeerAway);
    AwayKeepsInv(s, p, room, DeliverTo(End(s.sockets[p := s.sockets[p].(open := false)], p, cause), to, PeerAway));
  }

  lemma LeftEndKeepsInv(s: Service, p: PeerId, cause: Disposition, room: RoomId)
    requires Inv(s) && p < |s.sockets| && s.sockets[p].open && SessionIn(s.sockets[p], room)
    ensures var (rooms, to) := LeaveAt(s.rooms, room, p);
      var ended := End(s.sockets[p := s.sockets[p].(open := false)], p, cause);
      Inv(Service(rooms, DeliverTo(ended, to, PeerLeft)))
  {
    if room in s.rooms { PartnerIsOpen(s.sockets, room, s.rooms[room], p); }
    var to := LeaveAt(s.rooms, room, p).1;
    EndSends(s.sockets, p, cause, to, PeerLeft);
    LeftKeepsInv(s, p, room, DeliverTo(End(s.sockets[p := s.sockets[p].(open := false)], p, cause), to, PeerLeft));
  }

  lemma EndKeepsInv(s: Service, p: PeerId, cause: Disposition)
    requires Inv(s) && p < |s.sockets| && s.sockets[p].open
    ensures Inv(HandleEnd(s, p, cause))
  {
    if s.sockets[p].session.None? {
      UnjoinedEndKeepsInv(s, p);
    } else {
      AwayEndKeepsInv(s, p, cause, s.sockets[p].session.value.room);
      LeftEndKeepsInv(s, p, cause, s.sockets[p].session.value.room);
    }
  }

  // The party left behind by an expiry, if any, was told; nobody else is touched.
  predicate GraceFacts(before: seq<Socket>, after: seq<Socket>, to: Option<Peer>) {
    && |after| == |before|
    && (forall q :: 0 <= q < |after| && (to.Some? ==> q != to.value.id) ==> after[q] == before[q])
    && (to.Some? ==> to.value.id < |before| && Follows(before[to.value.id], after[to.value.id], ToldLeft))
  }

  lemma ExpiredRoomOk(before: seq<Socket>, after: seq<Socket>, room: RoomId, s: Seats, p: PeerId)
    requires RoomOk(before, room, s) && Expire(s, p).1.Some? && Expire(s, p).0.list != []
    requires GraceFacts(before, after, Expire(s, p).1.value)
    ensures RoomOk(after, room, Expire(s, p).0)
  {
    forall i | 0 <= i < |s.list| ensures SeatOk(before, room, s.list[i]) {}
    var i := IdIndex(s, p, false);
    assert Expire(s, p).0.list == [s.list[1 - i]];
  }

  lemma ExpirySends(s: Service, room: RoomId, p: PeerId)
    requires Inv(s) && ExpireAt(s.rooms, room, p).1.Some?
    ensures var to := ExpireAt(s.rooms, room, p).1.value; GraceFacts(s.sockets, DeliverTo(s.sockets, to, PeerLeft), to)
  {
    PartnerIsOpen(s.sockets, room, s.rooms[room], p);
  }

  lemma GraceEndKeepsInv(s: Service, room: RoomId, p: PeerId)
    requires Inv(s)
    ensures Inv(HandleGraceEnd(s, room, p))
  {
    var (rooms, o) := ExpireAt(s.rooms, room, p);
    if o.Some? {
      var t := Service(rooms, DeliverTo(s.sockets, o.value, PeerLeft));
      ExpirySends(s, room, p);
      if room in rooms { ExpiredRoomOk(s.sockets, t.sockets, room, s.rooms[room], p); }
      Rebuild(s, t, room);
    }
  }

  // Sockets that differ in their ledgers and in frames that speak of no partner.
  predicate SameView(before: seq<Socket>, after: seq<Socket>) {
    && |after| == |before|
    && forall q :: 0 <= q < |before| ==> Follows(before[q], after[q], LastTold(before[q].inbox))
  }

  lemma SameViewKeepsInv(s: Service, after: seq<Socket>)
    requires Inv(s) && SameView(s.sockets, after)
    ensures Inv(s.(sockets := after))
  {
    forall r | r in s.rooms ensures RoomOk(after, r, s.rooms[r]) {
      forall i | 0 <= i < |s.rooms[r].list| ensures SeatOk(after, r, s.rooms[r].list[i]) {
        assert SeatOk(s.sockets, r, s.rooms[r].list[i]);
      }
    }
  }

  lemma RefusalKeepsInv(s: Service, p: PeerId)
    requires Inv(s)
    ensures Inv(s.(sockets := Deliver(s.sockets, p, Refused)))
  {
    SameViewKeepsInv(s, Deliver(s.sockets, p, Refused));
  }

  lemma RelaySameView(sockets: seq<Socket>, kind: RelayedKind, p: PeerId, q: PeerId)
    requires p < |sockets| && q < |sockets|
    ensures SameView(sockets, Count(Deliver(sockets, q, Relayed(kind, p)), kind, p, q))
  {
    var sent := Deliver(sockets, q, Relayed(kind, p));
    assert SameView(sockets, sent);
    assert SameView(sent, Count(sent, kind, p, q));
  }

  lemma RelayKeepsInv(s: Service, p: PeerId, kind: RelayedKind)
    requires Inv(s) && p < |s.sockets| && s.sockets[p].session.Some?
    ensures Inv(HandleRelay(s, p, kind))
  {
    var partner := PartnerAt(s.rooms, s.sockets[p].session.value.room, p);
    if partner.None? {
      SameViewKeepsInv(s, HandleRelay(s, p, kind).sockets);
    } else if partner.value.id < |s.sockets| {
      var q := partner.value.id;
      RelaySameView(s.sockets, kind, p, q);
      SameViewKeepsInv(s, Count(Deliver(s.sockets, q, Relayed(kind, p)), kind, p, q));
    }
  }

  lemma ConnectKeepsInv(s: Service, user: UserId)
    requires Inv(s)
    ensures Inv(Apply(s, Connect(user)))
  {
    var t := Apply(s, Connect(user));
    forall r | r in s.rooms ensures RoomOk(t.sockets, r, s.rooms[r]) { RoomFrame(s.sockets, t.sockets, r, s.rooms[r]); }
  }

  lemma ApplyKeepsInv(s: Service, e: Event)
    requires Inv(s)
    ensures Inv(Apply(s, e))
  {
    match e
    case Connect(user) => ConnectKeepsInv(s, user);
    case JoinFrame(p, room, group) => if MayJoin(s, p) { JoinKeepsInv(s, p, room, group); }
    case ResumeFrame(p, room, group, seat) => if MayJoin(s, p) { ResumeKeepsInv(s, p, room, group, seat); }
    case RelayFrame(p, kind) =>
      if p < |s.sockets| && s.sockets[p].open && s.sockets[p].session.Some? { RelayKeepsInv(s, p, kind); }
    case SocketEnds(p, cause) => if p < |s.sockets| && s.sockets[p].open { EndKeepsInv(s, p, cause); }
    case GraceEnds(room, p) => GraceEndKeepsInv(s, room, p);
  }

  // ---------- Theorems about every run ----------

  // The state after the events `es`, from a service that holds nothing.
  ghost function Run(es: seq<Event>): (s: Service)
    ensures Inv(s)
  {
    if es == [] then INIT
    else
      var before := Run(es[..|es| - 1]);
      ApplyKeepsInv(before, es[|es| - 1]);
      Apply(before, es[|es| - 1])
  }

  /** What a seated, present peer was last told about its partner is the truth about its room:
      `PeerReady` iff the other seat is present, `PeerAway` iff it is held but absent, and `PeerLeft`
      or nothing iff there is no other seat. Its socket is open and its record names no end. */
  lemma ToldTheTruth(es: seq<Event>, r: RoomId, i: nat)
    requires r in Run(es).rooms && i < |Run(es).rooms[r].list| && Run(es).rooms[r].list[i].present
    ensures var s := Run(es);
      var list := s.rooms[r].list;
      && list[i].peer.id < |s.sockets|
      && var socket := s.sockets[list[i].peer.id];
         var told := LastTold(socket.inbox);
         && socket.open && socket.disposition.None?
         && (told.Ready? <==> |list| == 2 && list[1 - i].present)
         && (told.ToldAway? <==> |list| == 2 && !list[1 - i].present)
         && (told.Nothing? || told.ToldLeft? <==> |list| == 1)
  {
    var s := Run(es);
    assert RoomOk(s.sockets, r, s.rooms[r]) && SeatOk(s.sockets, r, s.rooms[r].list[i]);
  }

  /** Two present seats were last told opposite roles, the first seat the initiator's, and agree on
      whether the pairing is a resumed one; they are of distinct users and of one group. */
  lemma RolesAreOpposite(es: seq<Event>, r: RoomId)
    requires r in Run(es).rooms && BothPresent(Run(es).rooms[r])
    ensures var s := Run(es);
      var a, b := s.rooms[r].list[0].peer, s.rooms[r].list[1].peer;
      && a.user != b.user && a.group == b.group && a.id < |s.sockets| && b.id < |s.sockets|
      && exists resumed ::
           && LastTold(s.sockets[a.id].inbox) == Ready(true, resumed)
           && LastTold(s.sockets[b.id].inbox) == Ready(false, resumed)
  {
    var s := Run(es);
    var a, b := s.rooms[r].list[0].peer, s.rooms[r].list[1].peer;
    assert RoomOk(s.sockets, r, s.rooms[r]);
    ToldTheTruth(es, r, 0);
    ToldTheTruth(es, r, 1);
    var resumed := LastTold(s.sockets[a.id].inbox).resumed;
    assert LastTold(s.sockets[a.id].inbox) == Ready(true, resumed);
    assert LastTold(s.sockets[b.id].inbox) == Ready(false, resumed);
  }
}
