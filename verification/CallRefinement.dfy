/**
  The two models of the call service are one. Every run of the fine-grained system of `CallSeats` is a
  run of `CallService`, whose handlers are single steps: the same sockets, each with the same user, room
  and life, and the same rooms as a handler sees them, a relay passing its frame to the partner its own
  lock found. So what is proved of every run of the service, relays and ledgers included, holds of its
  fine-grained runs, at the moments its handlers took effect.
*/
module CallRefinement {
  import opened Options
  import opened Seating
  import opened RoomMap
  import opened CallSeats
  import opened CallAtomic
  import Service = CallService

  type Socket = Service.Socket

  predicate Running(pc: Pc) {
    pc.Looping? || pc.Resuming? || pc.Relaying? || pc.GoingAway?
  }

  // A task and the socket that stands for it. An open socket's record names no loss of the network.
  ghost predicate TaskTied(task: Task, socket: Socket) {
    && task.user == socket.user && (socket.open <==> Running(task.pc))
    && (task.room.Some? <==> socket.session.Some?)
    && (task.room.Some? ==> socket.session.value.room == task.room.value)
    && (socket.open && socket.disposition.Some? ==> !Service.KeepsSeat(socket.disposition.value))
  }

  ghost predicate TasksTied(tasks: seq<Task>, sockets: seq<Socket>) {
    |tasks| == |sockets| && forall p :: 0 <= p < |tasks| ==> TaskTied(tasks[p], sockets[p])
  }

  ghost predicate Tied(w: World, s: Service.Service)
    requires MapOk(w)
  {
    TasksTied(w.tasks, s.sockets) && View(w) == s.rooms
  }

  // The seat a token names; one that another process gave is nobody's here.
  function Named(w: World, seat: Option<PeerId>): (id: PeerId) {
    if seat.Some? then seat.value else |w.tasks|
  }

  // The event a step is, at the moment it takes effect; most steps are none.
  function EventsOf(w: World, step: Step): (es: seq<Service.Event>)
    requires Sound(w)
  {
    match step
    case Open(user) => [Service.Connect(user)]
    case JoinUnderGuard(p, room, group) =>
      if At(w, p, Looping) && w.tasks[p].room.None? && room !in w.guards then [Service.JoinFrame(p, room, group)] else []
    case FindToResume(p, room, group, seat) =>
      if AsksBack(w, p, room, seat) && !MayBeFound(w, room, seat)
      then [Service.ResumeFrame(p, room, group, Named(w, seat))] else []
    case LockToResume(p) =>
      if p < |w.tasks| && w.tasks[p].pc.Resuming?
      then [Service.ResumeFrame(p, w.objs[w.tasks[p].pc.obj].room, w.tasks[p].pc.group, w.tasks[p].pc.seat)] else []
    case LockToRelay(p) =>
      if p < |w.tasks| && w.tasks[p].pc.Relaying? then [Service.RelayFrame(p, w.tasks[p].pc.kind)] else []
    case EndAndLeave(p) =>
      if At(w, p, Looping) && Unguarded(w, p) then [Service.SocketEnds(p, Service.ClientClose)] else []
    case EndAndFind(p) =>
      if At(w, p, Looping) && Unguarded(w, p) && !(w.tasks[p].room.Some? && w.tasks[p].room.value in w.mapped)
      then [Service.SocketEnds(p, Service.TransportError)] else []
    case LockToMark(p) =>
      if p < |w.tasks| && w.tasks[p].pc.GoingAway? then [Service.SocketEnds(p, Service.TransportError)] else []
    case FireTimer(timer) =>
      if timer in w.timers && timer.room !in w.guards then [Service.GraceEnds(timer.room, timer.peer)] else []
    case _ => []
  }

  // ---------- What sending and recording leave alone ----------

  // The socket is the same but for its inbox, its ledger and a record that names no loss of the network.
  ghost predicate SameLife(a: Socket, b: Socket) {
    && b.user == a.user && b.open == a.open && b.session == a.session
    && (b.disposition == a.disposition || (b.disposition.Some? && !Service.KeepsSeat(b.disposition.value)))
  }

  ghost predicate SameLives(a: seq<Socket>, b: seq<Socket>) {
    |a| == |b| && forall q :: 0 <= q < |a| ==> SameLife(a[q], b[q])
  }

  lemma LivesChain(a: seq<Socket>, b: seq<Socket>, c: seq<Socket>)
    requires SameLives(a, b) && SameLives(b, c)
    ensures SameLives(a, c)
  {
    forall q | 0 <= q < |a| ensures SameLife(a[q], c[q]) { assert SameLife(a[q], b[q]) && SameLife(b[q], c[q]); }
  }

  lemma TiedThrough(tasks: seq<Task>, a: seq<Socket>, b: seq<Socket>)
    requires TasksTied(tasks, a) && SameLives(a, b)
    ensures TasksTied(tasks, b)
  {
    forall p | 0 <= p < |tasks| ensures TaskTied(tasks[p], b[p]) {
      assert TaskTied(tasks[p], a[p]) && SameLife(a[p], b[p]);
    }
  }

  lemma DeliverSameLives(sockets: seq<Socket>, p: PeerId, f: Service.Frame)
    ensures SameLives(sockets, Service.Deliver(sockets, p, f))
  {}

  lemma {:induction false} EvictSameLives(sockets: seq<Socket>, evicted: seq<Peer>)
    ensures SameLives(sockets, Service.Evict(sockets, evicted))
    decreases |evicted|
  {
    if evicted != [] {
      var id := evicted[0].id;
      var first := Service.Deliver(Service.End(sockets, id, Service.SiblingEvicted), id, Service.PeerLeft);
      assert SameLives(sockets, first);
      EvictSameLives(first, evicted[1..]);
      LivesChain(sockets, first, Service.Evict(first, evicted[1..]));
    }
  }

  lemma AnnounceSameLives(sockets: seq<Socket>, a: PeerId, b: PeerId, resumed: bool)
    ensures SameLives(sockets, Service.AnnouncePair(sockets, a, b, resumed))
  {}

  lemma JoinSameLives(sockets: seq<Socket>, p: PeerId, session: Service.Session, o: JoinOutcome)
    requires p < |sockets|
    ensures var from := if o.Full? || o.OtherGroup? then sockets else Service.Begin(sockets, p, session);
      SameLives(from, Service.JoinSends(sockets, p, session, o))
  {
    if !o.Full? && !o.OtherGroup? {
      var begun := Service.Begin(sockets, p, session);
      EvictSameLives(begun, o.evicted);
      var seated := Service.Deliver(Service.Evict(begun, o.evicted), p, Service.Joined(p));
      DeliverSameLives(Service.Evict(begun, o.evicted), p, Service.Joined(p));
      LivesChain(begun, Service.Evict(begun, o.evicted), seated);
      DeliverSameLives(seated, p, Service.PeerAway);
      if o.Paired? { AnnounceSameLives(seated, o.initiator.id, p, false); }
      LivesChain(begun, seated, Service.JoinSends(sockets, p, session, o));
    }
  }

  lemma TellSameLives(sockets: seq<Socket>, p: PeerId, o: PartnerState)
    ensures SameLives(sockets, Service.TellPartner(sockets, p, o))
  {
    if o.Present? {
      AnnounceSameLives(sockets, p, o.partner.id, o.resumed);
      AnnounceSameLives(sockets, o.partner.id, p, o.resumed);
    }
  }

  lemma ReplaceSameLives(sockets: seq<Socket>, replaced: Option<Peer>)
    ensures SameLives(sockets, Service.Replace(sockets, replaced))
  {}

  lemma ResumeSameLives(sockets: seq<Socket>, p: PeerId, session: Service.Session, o: ResumeOutcome)
    requires p < |sockets|
    ensures var from := if o.Unknown? then sockets else Service.Begin(sockets, p, session);
      SameLives(from, Service.ResumeSends(sockets, p, session, o))
  {
    if o.Resumed? {
      var begun := Service.Begin(sockets, p, session);
      var seated := Service.Deliver(Service.Replace(begun, o.replaced), p, Service.Joined(p));
      ReplaceSameLives(begun, o.replaced);
      DeliverSameLives(Service.Replace(begun, o.replaced), p, Service.Joined(p));
      LivesChain(begun, Service.Replace(begun, o.replaced), seated);
      TellSameLives(seated, p, o.partner);
      LivesChain(begun, seated, Service.TellPartner(seated, p, o.partner));
    }
  }

  lemma PassSameLives(sockets: seq<Socket>, kind: RelayedKind, p: PeerId, q: PeerId)
    requires p < |sockets| && q < |sockets|
    ensures SameLives(sockets, Service.Count(Service.Deliver(sockets, q, Service.Relayed(kind, p)), kind, p, q))
  {
    var sent := Service.Deliver(sockets, q, Service.Relayed(kind, p));
    DeliverSameLives(sockets, q, Service.Relayed(kind, p));
    LivesChain(sockets, sent, Service.Count(sent, kind, p, q));
  }

  lemma RelaySameLives(s: Service.Service, p: PeerId, kind: RelayedKind)
    requires RoomsOk(s.rooms) && p < |s.sockets| && s.sockets[p].session.Some?
    ensures Service.HandleRelay(s, p, kind).rooms == s.rooms
    ensures SameLives(s.sockets, Service.HandleRelay(s, p, kind).sockets)
  {
    var partner := PartnerAt(s.rooms, s.sockets[p].session.value.room, p);
    if partner.Some? && partner.value.id < |s.sockets| { PassSameLives(s.sockets, kind, p, partner.value.id); }
  }

  // ---------- Step by step ----------

  lemma BeganTied(tasks: seq<Task>, sockets: seq<Socket>, p: PeerId, session: Service.Session, home: Option<nat>)
    requires TasksTied(tasks, sockets) && p < |tasks| && Running(tasks[p].pc)
    ensures TasksTied(tasks[p := tasks[p].(room := Some(session.room), home := home, pc := Looping)],
                      Service.Begin(sockets, p, session))
  {
    assert TaskTied(tasks[p], sockets[p]);
  }

  lemma MovedTied(tasks: seq<Task>, sockets: seq<Socket>, p: PeerId, pc: Pc)
    requires TasksTied(tasks, sockets) && p < |tasks| && (Running(pc) <==> Running(tasks[p].pc))
    ensures TasksTied(tasks[p := tasks[p].(pc := pc)], sockets)
  {
    assert TaskTied(tasks[p], sockets[p]);
  }

  lemma EntrySeats(w: World, room: RoomId)
    requires MapOk(w) && (room in w.mapped ==> room in View(w))
    ensures var (e, o) := Entry(w, room); o < |e.objs| && e.objs[o].seats == Find(View(w), room)
  {}

  lemma JoinTasksTied(w: World, s: Service.Service, p: PeerId, room: RoomId, group: GroupId)
    requires Inv(w) && Sound(w) && Service.Inv(s) && Tied(w, s) && RoomsOk(s.rooms)
    requires At(w, p, Looping) && w.tasks[p].room.None? && room !in w.guards
    ensures Service.MayJoin(s, p)
    ensures TasksTied(DoJoin(w, p, room, group).tasks, Service.HandleJoin(s, p, room, group).sockets)
  {
    assert TaskTied(w.tasks[p], s.sockets[p]);
    UnguardedIsSeen(w, room);
    EntrySeats(w, room);
    var session := Service.Session(room, group);
    var (e, o) := Entry(w, room);
    var outcome := JoinAt(s.rooms, room, Peer(p, w.tasks[p].user, group)).1;
    JoinSameLives(s.sockets, p, session, outcome);
    if outcome.Full? || outcome.OtherGroup? {
      TiedThrough(w.tasks, s.sockets, Service.JoinSends(s.sockets, p, session, outcome));
    } else {
      BeganTied(w.tasks, s.sockets, p, session, Some(o));
      TiedThrough(DoJoin(w, p, room, group).tasks, Service.Begin(s.sockets, p, session),
                  Service.JoinSends(s.sockets, p, session, outcome));
    }
  }

  lemma ResumeTasksTied(w: World, s: Service.Service, p: PeerId)
    requires Inv(w) && Sound(w) && Service.Inv(s) && Tied(w, s) && RoomsOk(s.rooms)
    requires p < |w.tasks| && w.tasks[p].pc.Resuming?
    ensures Service.MayJoin(s, p)
    ensures var Resuming(o, seat, group) := w.tasks[p].pc;
      TasksTied(DoResume(w, p).tasks, Service.HandleResume(s, p, w.objs[o].room, group, seat).sockets)
  {
    assert TaskTied(w.tasks[p], s.sockets[p]) && TaskOk(w, p);
    var Resuming(o, seat, group) := w.tasks[p].pc;
    var session := Service.Session(w.objs[o].room, group);
    var outcome := ResumeAt(s.rooms, w.objs[o].room, seat, Peer(p, w.tasks[p].user, group)).1;
    ResumeDecisionIsAtomic(w, p);
    ResumeSameLives(s.sockets, p, session, outcome);
    var sent := Service.ResumeSends(s.sockets, p, session, outcome);
    if outcome.Unknown? {
      MovedTied(w.tasks, s.sockets, p, Looping);
      TiedThrough(DoResume(w, p).tasks, s.sockets, sent);
    } else {
      BeganTied(w.tasks, s.sockets, p, session, Some(o));
      TiedThrough(DoResume(w, p).tasks, Service.Begin(s.sockets, p, session), sent);
    }
  }

  // The socket `p` closed; every other one lives on.
  lemma ClosedTied(tasks: seq<Task>, a: seq<Socket>, b: seq<Socket>, p: PeerId, pc: Pc)
    requires TasksTied(tasks, a) && p < |tasks| && !Running(pc) && |b| == |a|
    requires b[p].user == a[p].user && b[p].session == a[p].session && !b[p].open
    requires forall q :: 0 <= q < |a| && q != p ==> SameLife(a[q], b[q])
    ensures TasksTied(tasks[p := tasks[p].(pc := pc)], b)
  {
    forall q | 0 <= q < |tasks| ensures TaskTied(tasks[p := tasks[p].(pc := pc)][q], b[q]) {
      assert TaskTied(tasks[q], a[q]);
    }
  }

  lemma EndLeavesOthers(s: Service.Service, p: PeerId, cause: Service.Disposition)
    requires RoomsOk(s.rooms) && p < |s.sockets|
    ensures var b := Service.HandleEnd(s, p, cause).sockets;
      && |b| == |s.sockets| && b[p].user == s.sockets[p].user && b[p].session == s.sockets[p].session && !b[p].open
      && forall q :: 0 <= q < |b| && q != p ==> SameLife(s.sockets[q], b[q])
  {
    var closed := s.sockets[p := s.sockets[p].(open := false)];
    var ended := Service.End(closed, p, cause);
    forall to, f ensures SameLives(ended, Service.DeliverTo(ended, to, f)) { DeliverToSameLives(ended, to, f); }
    SentAfterEnd(s, p, cause);
  }

  // What `HandleEnd` leaves of the sockets: the closed ones, recorded, with a frame sent or not.
  lemma SentAfterEnd(s: Service.Service, p: PeerId, cause: Service.Disposition)
    requires RoomsOk(s.rooms) && p < |s.sockets|
    ensures var closed := s.sockets[p := s.sockets[p].(open := false)];
      var b := Service.HandleEnd(s, p, cause).sockets;
      || b == closed || b == Service.End(closed, p, cause)
      || exists to, f :: b == Service.DeliverTo(Service.End(closed, p, cause), to, f)
  {}

  lemma DeliverToSameLives(sockets: seq<Socket>, to: Option<Peer>, f: Service.Frame)
    ensures SameLives(sockets, Service.DeliverTo(sockets, to, f))
  {
    if to.Some? { DeliverSameLives(sockets, to.value.id, f); }
  }

  lemma EndTasksTied(w: World, s: Service.Service, p: PeerId, cause: Service.Disposition, pc: Pc)
    requires TasksTied(w.tasks, s.sockets) && RoomsOk(s.rooms) && p < |w.tasks| && !Running(pc)
    ensures TasksTied(w.tasks[p := w.tasks[p].(pc := pc)], Service.HandleEnd(s, p, cause).sockets)
  {
    EndLeavesOthers(s, p, cause);
    ClosedTied(w.tasks, s.sockets, Service.HandleEnd(s, p, cause).sockets, p, pc);
  }

  // Who holds no seat leaves none and marks none.
  lemma NobodyToFree(rooms: Rooms, r: RoomId, p: PeerId)
    requires RoomsOk(rooms) && !Holds(Find(rooms, r), p)
    ensures LeaveAt(rooms, r, p).0 == rooms && MarkAbsentAt(rooms, r, p).0 == rooms
  {}

  // An open socket whose record names an end already holds no seat.
  lemma RecordedHoldsNothing(s: Service.Service, p: PeerId, r: RoomId)
    requires Service.Inv(s) && p < |s.sockets| && s.sockets[p].open && s.sockets[p].disposition.Some?
    ensures !Holds(Find(s.rooms, r), p)
  {
    if r in s.rooms { assert Service.RoomOk(s.sockets, r, s.rooms[r]); }
  }

  // What the end of an open socket does to the rooms.
  lemma EndRooms(s: Service.Service, p: PeerId, cause: Service.Disposition, r: RoomId)
    requires Service.Inv(s) && RoomsOk(s.rooms) && p < |s.sockets| && s.sockets[p].open
    requires s.sockets[p].session.Some? && s.sockets[p].session.value.room == r
    requires s.sockets[p].disposition.Some? ==> !Service.KeepsSeat(s.sockets[p].disposition.value)
    ensures Service.HandleEnd(s, p, cause).rooms ==
            if Service.KeepsSeat(cause) then MarkAbsentAt(s.rooms, r, p).0 else LeaveAt(s.rooms, r, p).0
  {
    if s.sockets[p].disposition.Some? {
      RecordedHoldsNothing(s, p, r);
      NobodyToFree(s.rooms, r, p);
    }
  }

  // ---------- Every step, every run ----------

  lemma LeaveTasks(w: World, p: PeerId)
    requires Sound(w) && p < |w.tasks|
    ensures DoLeave(w, p).tasks == w.tasks[p := w.tasks[p].(pc := Ended)]
  {}

  lemma LeaveRooms(w: World, s: Service.Service, p: PeerId)
    requires Sound(w) && MapOk(w) && Service.Inv(s) && View(w) == s.rooms && RoomsOk(s.rooms)
    requires At(w, p, Looping) && Unguarded(w, p) && p < |s.sockets| && TaskTied(w.tasks[p], s.sockets[p])
    ensures Service.HandleEnd(s, p, Service.ClientClose).rooms == DoAtomic(View(w), AtomicOf(w, EndAndLeave(p)))
  {
    if w.tasks[p].room.Some? { EndRooms(s, p, Service.ClientClose, w.tasks[p].room.value); }
  }

  lemma LeaveTied(w: World, s: Service.Service, p: PeerId)
    requires Sound(w) && MapOk(w) && Service.Inv(s) && Tied(w, s) && RoomsOk(s.rooms)
    requires At(w, p, Looping) && Unguarded(w, p) && MapOk(DoLeave(w, p))
    requires View(DoLeave(w, p)) == DoAtomic(View(w), AtomicOf(w, EndAndLeave(p)))
    ensures Tied(DoLeave(w, p), Service.Apply(s, Service.SocketEnds(p, Service.ClientClose)))
  {
    assert TaskTied(w.tasks[p], s.sockets[p]);
    LeaveTasks(w, p);
    EndTasksTied(w, s, p, Service.ClientClose, Ended);
    LeaveRooms(w, s, p);
  }

  lemma MarkTasks(w: World, p: PeerId)
    requires Sound(w) && p < |w.tasks| && w.tasks[p].pc.GoingAway?
    ensures var pc := DoMark(w, p).tasks[p].pc; !Running(pc) && DoMark(w, p).tasks == w.tasks[p := w.tasks[p].(pc := pc)]
  {}

  lemma MarkTied(w: World, s: Service.Service, p: PeerId)
    requires Sound(w) && MapOk(w) && Service.Inv(s) && Tied(w, s) && RoomsOk(s.rooms)
    requires p < |w.tasks| && w.tasks[p].pc.GoingAway? && TaskOk(w, p) && MapOk(DoMark(w, p))
    requires View(DoMark(w, p)) == MarkAbsentAt(View(w), w.objs[w.tasks[p].pc.obj].room, p).0
    ensures Tied(DoMark(w, p), Service.Apply(s, Service.SocketEnds(p, Service.TransportError)))
  {
    assert TaskTied(w.tasks[p], s.sockets[p]);
    MarkTasks(w, p);
    EndTasksTied(w, s, p, Service.TransportError, DoMark(w, p).tasks[p].pc);
    EndRooms(s, p, Service.TransportError, w.tasks[p].room.value);
  }

  // A lost socket that finds no room to mark its seat in.
  lemma LostTied(w: World, s: Service.Service, p: PeerId)
    requires Inv(w) && Sound(w) && Service.Inv(s) && Tied(w, s) && RoomsOk(s.rooms)
    requires At(w, p, Looping) && Unguarded(w, p)
    requires !(w.tasks[p].room.Some? && w.tasks[p].room.value in w.mapped)
    ensures MapOk(Do(w, EndAndFind(p)))
    ensures Tied(Do(w, EndAndFind(p)), Service.Apply(s, Service.SocketEnds(p, Service.TransportError)))
  {
    assert TaskTied(w.tasks[p], s.sockets[p]);
    SameViewWhenUntouched(w, Do(w, EndAndFind(p)));
    EndTasksTied(w, s, p, Service.TransportError, Ended);
    if w.tasks[p].room.Some? { EndRooms(s, p, Service.TransportError, w.tasks[p].room.value); }
  }

  lemma GraceSameLives(s: Service.Service, room: RoomId, p: PeerId)
    requires RoomsOk(s.rooms)
    ensures SameLives(s.sockets, Service.HandleGraceEnd(s, room, p).sockets)
  {
    var partner := ExpireAt(s.rooms, room, p).1;
    if partner.Some? { DeliverToSameLives(s.sockets, partner.value, Service.PeerLeft); }
  }

  lemma FireTied(w: World, s: Service.Service, timer: Timer)
    requires Sound(w) && MapOk(w) && Tied(w, s) && RoomsOk(s.rooms)
    requires timer in w.timers && timer.room !in w.guards && MapOk(DoFire(w, timer))
    requires View(DoFire(w, timer)) == ExpireAt(View(w), timer.room, timer.peer).0
    ensures Tied(DoFire(w, timer), Service.Apply(s, Service.GraceEnds(timer.room, timer.peer)))
  {
    GraceSameLives(s, timer.room, timer.peer);
    TiedThrough(w.tasks, s.sockets, Service.HandleGraceEnd(s, timer.room, timer.peer).sockets);
  }

  lemma JoinTied(w: World, s: Service.Service, p: PeerId, room: RoomId, group: GroupId)
    requires Inv(w) && Sound(w) && Service.Inv(s) && Tied(w, s) && RoomsOk(s.rooms)
    requires At(w, p, Looping) && w.tasks[p].room.None? && room !in w.guards
    requires Inv(Do(w, JoinUnderGuard(p, room, group)))
    requires var step := JoinUnderGuard(p, room, group); View(Do(w, step)) == DoAtomic(View(w), AtomicOf(w, step))
    ensures Tied(Do(w, JoinUnderGuard(p, room, group)), Service.Apply(s, Service.JoinFrame(p, room, group)))
  {
    assert TaskTied(w.tasks[p], s.sockets[p]);
    JoinTasksTied(w, s, p, room, group);
  }

  lemma ResumeTied(w: World, s: Service.Service, p: PeerId)
    requires Inv(w) && Sound(w) && Service.Inv(s) && Tied(w, s) && RoomsOk(s.rooms)
    requires p < |w.tasks| && w.tasks[p].pc.Resuming? && Inv(Do(w, LockToResume(p)))
    requires View(Do(w, LockToResume(p))) == DoAtomic(View(w), AtomicOf(w, LockToResume(p)))
    ensures var Resuming(o, seat, group) := w.tasks[p].pc;
      Tied(Do(w, LockToResume(p)), Service.Apply(s, Service.ResumeFrame(p, w.objs[o].room, group, seat)))
  {
    assert TaskTied(w.tasks[p], s.sockets[p]);
    ResumeIs(w, p);
    ResumeTasksTied(w, s, p);
    var Resuming(o, seat, group) := w.tasks[p].pc;
    ResumeHandled(s, p, w.objs[o].room, group, seat);
  }

  lemma ResumeIs(w: World, p: PeerId)
    requires Sound(w) && p < |w.tasks| && w.tasks[p].pc.Resuming?
    ensures var Resuming(o, seat, group) := w.tasks[p].pc;
      && Do(w, LockToResume(p)) == DoResume(w, p)
      && AtomicOf(w, LockToResume(p)) == AtomicResume(w.objs[o].room, seat, Peer(p, w.tasks[p].user, group))
  {}

  lemma ResumeHandled(s: Service.Service, p: PeerId, room: RoomId, group: GroupId, seat: PeerId)
    requires RoomsOk(s.rooms) && Service.MayJoin(s, p)
    ensures var t := Service.Apply(s, Service.ResumeFrame(p, room, group, seat));
      && t == Service.HandleResume(s, p, room, group, seat)
      && t.rooms == ResumeAt(s.rooms, room, seat, Peer(p, s.sockets[p].user, group)).0
  {}

  lemma SeatIsNobodys(s: Seats, seat: PeerId, peer: Peer)
    requires Valid(s) && !Holds(s, seat)
    ensures Resume(s, seat, peer) == (s, Unknown)
  {}

  // A seat nobody holds, or in a room nobody has, is not given back.
  lemma NotGivenBack(rooms: Rooms, room: RoomId, seat: PeerId, peer: Peer)
    requires RoomsOk(rooms) && (room in rooms ==> !Holds(rooms[room], seat))
    ensures ResumeAt(rooms, room, seat, peer) == (rooms, Unknown)
  {
    if room in rooms {
      SeatIsNobodys(rooms[room], seat, peer);
      assert rooms[room := rooms[room]] == rooms;
    }
  }

  lemma UnknownIdHoldsNothing(s: Service.Service, room: RoomId, id: PeerId)
    requires Service.Inv(s) && room in s.rooms && id >= |s.sockets|
    ensures !Holds(s.rooms[room], id)
  {
    assert Service.RoomOk(s.sockets, room, s.rooms[room]);
    forall i | 0 <= i < |s.rooms[room].list| ensures s.rooms[room].list[i].peer.id != id {
      assert Service.SeatOk(s.sockets, room, s.rooms[room].list[i]);
    }
  }

  lemma RefusedTied(w: World, s: Service.Service, p: PeerId, room: RoomId, group: GroupId, seat: Option<PeerId>)
    requires MapOk(w) && Service.Inv(s) && Tied(w, s) && RoomsOk(s.rooms)
    requires AsksBack(w, p, room, seat) && !MayBeFound(w, room, seat)
    ensures Tied(w, Service.Apply(s, Service.ResumeFrame(p, room, group, Named(w, seat))))
  {
    assert TaskTied(w.tasks[p], s.sockets[p]);
    if room in s.rooms { UnknownIdHoldsNothing(s, room, Named(w, seat)); }
    NotGivenBack(s.rooms, room, Named(w, seat), Peer(p, s.sockets[p].user, group));
    DeliverSameLives(s.sockets, p, Service.Refused);
    TiedThrough(w.tasks, s.sockets, Service.Deliver(s.sockets, p, Service.Refused));
  }

  lemma RelayTied(w: World, s: Service.Service, p: PeerId)
    requires Sound(w) && MapOk(w) && Tied(w, s) && RoomsOk(s.rooms)
    requires p < |w.tasks| && w.tasks[p].pc.Relaying? && TaskOk(w, p) && MapOk(SetPc(w, p, Looping))
    ensures Tied(SetPc(w, p, Looping), Service.Apply(s, Service.RelayFrame(p, w.tasks[p].pc.kind)))
  {
    var kind := w.tasks[p].pc.kind;
    assert TaskTied(w.tasks[p], s.sockets[p]);
    RelaySameLives(s, p, kind);
    TiedThrough(w.tasks, s.sockets, Service.HandleRelay(s, p, kind).sockets);
    MovedTied(w.tasks, Service.HandleRelay(s, p, kind).sockets, p, Looping);
    SameViewWhenUntouched(w, SetPc(w, p, Looping));
  }

  lemma QuietIsNoOperation(w: World, step: Step)
    requires Sound(w) && EventsOf(w, step) == []
    ensures AtomicOf(w, step) == NoOperation
  {}

  lemma QuietMoves(w: World, step: Step)
    requires Sound(w) && EventsOf(w, step) == [] && Do(w, step).tasks != w.tasks
    ensures !step.Open? && !step.FireTimer? && !step.AskEmpty? && step.p < |w.tasks|
    ensures var t := Do(w, step);
      && |t.tasks| == |w.tasks| && t.tasks == w.tasks[step.p := w.tasks[step.p].(pc := t.tasks[step.p].pc)]
      && (Running(t.tasks[step.p].pc) <==> Running(w.tasks[step.p].pc))
  {}

  // The steps that are no event: they move one task between states of the same life.
  lemma QuietTied(w: World, s: Service.Service, step: Step)
    requires Inv(w) && Sound(w) && Tied(w, s) && EventsOf(w, step) == [] && Inv(Do(w, step))
    requires View(Do(w, step)) == DoAtomic(View(w), AtomicOf(w, step)) && RoomsOk(View(w))
    ensures Tied(Do(w, step), s)
  {
    var t := Do(w, step);
    QuietIsNoOperation(w, step);
    if t.tasks != w.tasks {
      QuietMoves(w, step);
      MovedTied(w.tasks, s.sockets, step.p, t.tasks[step.p].pc);
    }
  }

  ghost function ApplyAll(s: Service.Service, es: seq<Service.Event>): (t: Service.Service)
    requires Service.Inv(s) && |es| <= 1
  {
    if es == [] then s else Service.Apply(s, es[0])
  }

  // What is known before a step is taken, and what the step has to leave.
  ghost predicate Ready(w: World, s: Service.Service, step: Step) {
    && Inv(w) && Sound(w) && Service.Inv(s) && Tied(w, s) && RoomsOk(s.rooms)
    && Inv(Do(w, step)) && View(Do(w, step)) == DoAtomic(View(w), AtomicOf(w, step))
  }

  ghost predicate StepOk(w: World, s: Service.Service, step: Step)
    requires Sound(w) && Service.Inv(s)
  {
    && MapOk(Do(w, step)) && |EventsOf(w, step)| <= 1
    && Tied(Do(w, step), ApplyAll(s, EventsOf(w, step)))
  }

  lemma OneEvent(w: World, s: Service.Service, step: Step, e: Service.Event)
    requires Sound(w) && Service.Inv(s) && EventsOf(w, step) == [e]
    requires MapOk(Do(w, step)) && Tied(Do(w, step), Service.Apply(s, e))
    ensures StepOk(w, s, step)
  {}

  lemma OpenStep(w: World, s: Service.Service, user: UserId)
    requires Ready(w, s, Open(user)) && EventsOf(w, Open(user)) != []
    ensures StepOk(w, s, Open(user))
  {
    OpenTied(w, s, user);
  }

  lemma JoinStep(w: World, s: Service.Service, p: PeerId, room: RoomId, group: GroupId)
    requires Ready(w, s, JoinUnderGuard(p, room, group)) && EventsOf(w, JoinUnderGuard(p, room, group)) != []
    ensures StepOk(w, s, JoinUnderGuard(p, room, group))
  {
    JoinTied(w, s, p, room, group);
  }

  lemma ResumeStep(w: World, s: Service.Service, p: PeerId)
    requires Ready(w, s, LockToResume(p)) && EventsOf(w, LockToResume(p)) != []
    ensures StepOk(w, s, LockToResume(p))
  {
    ResumeTied(w, s, p);
  }

  lemma RefusedStep(w: World, s: Service.Service, p: PeerId, room: RoomId, group: GroupId, seat: Option<PeerId>)
    requires var step := FindToResume(p, room, group, seat); Ready(w, s, step) && EventsOf(w, step) != []
    ensures StepOk(w, s, FindToResume(p, room, group, seat))
  {
    RefusedTied(w, s, p, room, group, seat);
  }

  lemma RelayStep(w: World, s: Service.Service, p: PeerId)
    requires Ready(w, s, LockToRelay(p)) && EventsOf(w, LockToRelay(p)) != []
    ensures StepOk(w, s, LockToRelay(p))
  {
    assert TaskOk(w, p);
    RelayTied(w, s, p);
  }

  lemma LeaveStep(w: World, s: Service.Service, p: PeerId)
    requires Ready(w, s, EndAndLeave(p)) && EventsOf(w, EndAndLeave(p)) != []
    ensures StepOk(w, s, EndAndLeave(p))
  {
    LeaveTied(w, s, p);
  }

  lemma LostStep(w: World, s: Service.Service, p: PeerId)
    requires Ready(w, s, EndAndFind(p)) && EventsOf(w, EndAndFind(p)) != []
    ensures StepOk(w, s, EndAndFind(p))
  {
    LostTied(w, s, p);
  }

  lemma MarkStep(w: World, s: Service.Service, p: PeerId)
    requires Ready(w, s, LockToMark(p)) && EventsOf(w, LockToMark(p)) != []
    ensures StepOk(w, s, LockToMark(p))
  {
    MarkIs(w, p);
    assert TaskOk(w, p);
    MarkTied(w, s, p);
    OneEvent(w, s, LockToMark(p), Service.SocketEnds(p, Service.TransportError));
  }

  lemma MarkIs(w: World, p: PeerId)
    requires Sound(w) && EventsOf(w, LockToMark(p)) != []
    ensures p < |w.tasks| && w.tasks[p].pc.GoingAway? && Do(w, LockToMark(p)) == DoMark(w, p)
    ensures EventsOf(w, LockToMark(p)) == [Service.SocketEnds(p, Service.TransportError)]
    ensures AtomicOf(w, LockToMark(p)) == AtomicMark(w.objs[w.tasks[p].pc.obj].room, p)
  {}

  lemma FireIs(w: World, timer: Timer)
    requires Sound(w) && EventsOf(w, FireTimer(timer)) != []
    ensures timer in w.timers && timer.room !in w.guards && Do(w, FireTimer(timer)) == DoFire(w, timer)
    ensures EventsOf(w, FireTimer(timer)) == [Service.GraceEnds(timer.room, timer.peer)]
    ensures AtomicOf(w, FireTimer(timer)) == AtomicExpire(timer.room, timer.peer)
  {}

  lemma FireStep(w: World, s: Service.Service, timer: Timer)
    requires Ready(w, s, FireTimer(timer)) && EventsOf(w, FireTimer(timer)) != []
    ensures StepOk(w, s, FireTimer(timer))
  {
    FireIs(w, timer);
    FireTied(w, s, timer);
    OneEvent(w, s, FireTimer(timer), Service.GraceEnds(timer.room, timer.peer));
  }

  lemma QuietStep(w: World, s: Service.Service, step: Step)
    requires Ready(w, s, step) && EventsOf(w, step) == []
    ensures StepOk(w, s, step)
  {
    QuietTied(w, s, step);
  }

  lemma ReadyStep(w: World, s: Service.Service, step: Step)
    requires Ready(w, s, step)
    ensures StepOk(w, s, step)
  {
    if EventsOf(w, step) == [] {
      QuietStep(w, s, step);
    } else {
      match step
      case Open(user) => OpenStep(w, s, user);
      case JoinUnderGuard(p, room, group) => JoinStep(w, s, p, room, group);
      case FindToResume(p, room, group, seat) => RefusedStep(w, s, p, room, group, seat);
      case LockToResume(p) => ResumeStep(w, s, p);
      case LockToRelay(p) => RelayStep(w, s, p);
      case EndAndLeave(p) => LeaveStep(w, s, p);
      case EndAndFind(p) => LostStep(w, s, p);
      case LockToMark(p) => MarkStep(w, s, p);
      case FireTimer(timer) => FireStep(w, s, timer);
    }
  }

  lemma StepTied(w: World, s: Service.Service, step: Step)
    requires Inv(w) && Sound(w) && Service.Inv(s) && Tied(w, s)
    ensures Inv(Do(w, step)) && StepOk(w, s, step)
  {
    EveryStepIsAtomic(w, step);
    ReadyStep(w, s, step);
  }

  lemma OpenTied(w: World, s: Service.Service, user: UserId)
    requires Sound(w) && MapOk(w) && Tied(w, s) && RoomsOk(s.rooms)
    ensures MapOk(Do(w, Open(user))) && Tied(Do(w, Open(user)), Service.Apply(s, Service.Connect(user)))
  {
    SameViewWhenUntouched(w, Do(w, Open(user)));
  }

  // The events of a run, in the order they took effect.
  ghost function EventsAlong(steps: seq<Step>): (es: seq<Service.Event>) {
    if steps == [] then []
    else
      var before := RunFrom(INIT, steps[..|steps| - 1]);
      InvIsSound(before);
      EventsAlong(steps[..|steps| - 1]) + EventsOf(before, steps[|steps| - 1])
  }

  lemma RunMore(es: seq<Service.Event>, more: seq<Service.Event>)
    requires |more| <= 1
    ensures Service.Run(es + more) == ApplyAll(Service.Run(es), more)
  {
    if more == [] {
      assert es + more == es;
    } else {
      assert (es + more)[..|es|] == es && (es + more)[|es|] == more[0];
    }
  }

  /** Every run of the fine-grained system is a run of the service: its tasks are the service's sockets,
      and its rooms, as a handler sees them, are the service's rooms. */
  lemma {:induction false} EveryRunIsTheServices(steps: seq<Step>)
    ensures Tied(RunFrom(INIT, steps), Service.Run(EventsAlong(steps)))
    ensures View(RunFrom(INIT, steps)) == Service.Run(EventsAlong(steps)).rooms
  {
    if steps != [] {
      var front, last := steps[..|steps| - 1], steps[|steps| - 1];
      EveryRunIsTheServices(front);
      OneMoreTied(RunFrom(INIT, front), last, EventsAlong(front));
    }
  }

  lemma OneMoreTied(w: World, step: Step, es: seq<Service.Event>)
    requires Inv(w) && Tied(w, Service.Run(es))
    ensures Sound(w) && Inv(Do(w, step)) && Tied(Do(w, step), Service.Run(es + EventsOf(w, step)))
  {
    InvIsSound(w);
    StepTied(w, Service.Run(es), step);
    RunMore(es, EventsOf(w, step));
  }
  // The partner a relay finds under its room's lock is the one the service passes its frame to.
  ghost predicate SamePartner(w: World, s: Service.Service, p: PeerId)
    requires Sound(w) && p < |w.tasks| && w.tasks[p].pc.Relaying?
  {
    && p < |s.sockets| && s.sockets[p].open && s.sockets[p].session.Some? && RoomsOk(s.rooms)
    && PartnerOf(w.objs[w.tasks[p].pc.obj].seats, p) == PartnerAt(s.rooms, s.sockets[p].session.value.room, p)
  }

  lemma RelaysFindThePartner(w: World, s: Service.Service, p: PeerId)
    requires Inv(w) && Sound(w) && Tied(w, s) && p < |w.tasks| && w.tasks[p].pc.Relaying?
    ensures SamePartner(w, s, p)
  {
    assert TaskOk(w, p) && TaskTied(w.tasks[p], s.sockets[p]);
    RelayDecisionIsAtomic(w, p);
  }

  /** In every run a relay finds, under its room's lock, the partner the service passes its frame to. */
  lemma ARelayFindsTheServicesPartner(steps: seq<Step>, p: PeerId)
    requires var w := RunFrom(INIT, steps); p < |w.tasks| && w.tasks[p].pc.Relaying?
    ensures Sound(RunFrom(INIT, steps)) && SamePartner(RunFrom(INIT, steps), Service.Run(EventsAlong(steps)), p)
  {
    InvIsSound(RunFrom(INIT, steps));
    EveryRunIsTheServices(steps);
    RelaysFindThePartner(RunFrom(INIT, steps), Service.Run(EventsAlong(steps)), p);
  }
  // ---------- What is asked for is handled ----------

  lemma EventsOneMore(steps: seq<Step>, step: Step)
    ensures var w := RunFrom(INIT, steps);
      && Sound(w) && RunFrom(INIT, steps + [step]) == Do(w, step)
      && EventsAlong(steps + [step]) == EventsAlong(steps) + EventsOf(w, step)
  {
    InvIsSound(RunFrom(INIT, steps));
    assert (steps + [step])[..|steps|] == steps;
  }

  lemma TwoSteps(w: World, p: PeerId, find: Step, lock: Step)
    requires Inv(w) && Sound(w) && At(w, p, Looping)
    requires match find
      case FindToRelay(q, _) =>
        q == p && lock == LockToRelay(p) && w.tasks[p].room.Some? && w.tasks[p].room.value in w.mapped - w.guards
      case FindToResume(q, room, _, seat) =>
        q == p && lock == LockToResume(p) && AsksBack(w, p, room, seat) && MayBeFound(w, room, seat)
      case _ => false
    ensures Sound(Do(w, find))
    ensures EventsOf(w, find) == []
    ensures EventsOf(Do(w, find), lock) == match find
      case FindToRelay(_, kind) => [Service.RelayFrame(p, kind)]
      case FindToResume(_, room, group, seat) => [Service.ResumeFrame(p, room, group, seat.value)]
      case _ => []
  {
    DoKeepsInv(w, find);
    InvIsSound(Do(w, find));
  }

  /** A frame to relay and a seat asked back, in a room that is mapped and that nobody guards, take a
      look-up and a lock, and are then the event that was asked for; a join is it at once. */
  lemma WhatIsAskedIsHandled(steps: seq<Step>, p: PeerId, kind: RelayedKind, room: RoomId, group: GroupId,
                             seat: Option<PeerId>)
    requires At(RunFrom(INIT, steps), p, Looping)
    ensures var w := RunFrom(INIT, steps);
      w.tasks[p].room.Some? && w.tasks[p].room.value in w.mapped - w.guards ==>
        EventsAlong(steps + [FindToRelay(p, kind)] + [LockToRelay(p)]) == EventsAlong(steps) + [Service.RelayFrame(p, kind)]
    ensures var w := RunFrom(INIT, steps);
      AsksBack(w, p, room, seat) && MayBeFound(w, room, seat) ==>
        EventsAlong(steps + [FindToResume(p, room, group, seat)] + [LockToResume(p)]) ==
          EventsAlong(steps) + [Service.ResumeFrame(p, room, group, seat.value)]
    ensures var w := RunFrom(INIT, steps);
      w.tasks[p].room.None? && room !in w.guards ==>
        EventsAlong(steps + [JoinUnderGuard(p, room, group)]) == EventsAlong(steps) + [Service.JoinFrame(p, room, group)]
  {
    var w := RunFrom(INIT, steps);
    InvIsSound(w);
    if w.tasks[p].room.Some? && w.tasks[p].room.value in w.mapped - w.guards {
      LookedUpAndLocked(steps, p, FindToRelay(p, kind), LockToRelay(p));
    }
    if AsksBack(w, p, room, seat) && MayBeFound(w, room, seat) {
      LookedUpAndLocked(steps, p, FindToResume(p, room, group, seat), LockToResume(p));
    }
    EventsOneMore(steps, JoinUnderGuard(p, room, group));
  }

  lemma LookedUpAndLocked(steps: seq<Step>, p: PeerId, find: Step, lock: Step)
    requires At(RunFrom(INIT, steps), p, Looping)
    requires var w := RunFrom(INIT, steps);
      match find
      case FindToRelay(q, _) =>
        q == p && lock == LockToRelay(p) && w.tasks[p].room.Some? && w.tasks[p].room.value in w.mapped - w.guards
      case FindToResume(q, room, _, seat) =>
        q == p && lock == LockToResume(p) && AsksBack(w, p, room, seat) && MayBeFound(w, room, seat)
      case _ => false
    ensures EventsAlong(steps + [find] + [lock]) == EventsAlong(steps) + match find
      case FindToRelay(_, kind) => [Service.RelayFrame(p, kind)]
      case FindToResume(_, room, group, seat) => [Service.ResumeFrame(p, room, group, seat.value)]
      case _ => []
  {
    EventsOneMore(steps, find);
    EventsOneMore(steps + [find], lock);
    TwoSteps(RunFrom(INIT, steps), p, find, lock);
    assert EventsAlong(steps) + [] == EventsAlong(steps);
  }
}
