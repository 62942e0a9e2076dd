/**
  The seats of the call service under every interleaving. A step is one acquisition of a room's lock:
  a handler that looks its room up in the map and locks it later takes two steps, and so does one that
  frees a seat and then asks whether the room is empty; anything may happen in between, but for what
  the map's own guard on that room forbids. Rooms are heap objects that outlive their entry in the map.

  Main results, for every run: a room removed from the map is empty for ever; every present seat is
  owned by exactly one live socket loop and every absent seat by exactly one grace timer; and once all
  loops have ended and all timers have fired, the map is empty.
*/
module CallSeats {
  import opened Options
  import opened Seating
  import opened RoomMap

  // A room object, and the id it was created under.
  datatype RoomObject = RoomObject(room: RoomId, seats: Seats)

  // Where a socket's task stands.
  datatype Pc =
    | Looping                                          // between two frames
    | Resuming(obj: nat, seat: PeerId, group: GroupId) // room found, its lock not taken yet
    | Relaying(obj: nat, kind: RelayedKind)
    | GoingAway(obj: nat)                              // loop over, room found, seat not marked yet
    | Marked                                           // seat absent, grace timer not spawned yet
    | Ended

  // `home` remembers the room object that seated the socket.
  datatype Task = Task(user: UserId, room: Option<RoomId>, home: Option<nat>, pc: Pc)

  datatype Timer = Timer(room: RoomId, peer: PeerId)

  // `guards` are the rooms whose entry a handler holds between freeing a seat and asking whether the
  // room is empty: nobody else reaches the map under them meanwhile.
  datatype World = World(objs: seq<RoomObject>, mapped: map<RoomId, nat>, tasks: seq<Task>, timers: multiset<Timer>,
                         guards: set<RoomId>)

  const INIT := World([], map[], [], multiset{}, {})

  datatype Step =
    | Open(user: UserId)
    | JoinUnderGuard(p: PeerId, room: RoomId, group: GroupId)
    | FindToResume(p: PeerId, room: RoomId, group: GroupId, seat: Option<PeerId>)
    | LockToResume(p: PeerId)
    | FindToRelay(p: PeerId, kind: RelayedKind)
    | LockToRelay(p: PeerId)
    | EndAndLeave(p: PeerId)
    | EndAndFind(p: PeerId)
    | LockToMark(p: PeerId)
    | SpawnTimer(p: PeerId)
    | FireTimer(timer: Timer)
    | AskEmpty(room: RoomId)

  // ---------- The steps ----------

  predicate At(w: World, p: PeerId, pc: Pc) {
    p < |w.tasks| && w.tasks[p].pc == pc
  }

  function SetPc(w: World, p: PeerId, pc: Pc): World
    requires p < |w.tasks|
  {
    w.(tasks := w.tasks[p := w.tasks[p].(pc := pc)])
  }

  // The object mapped under `room`, created and mapped first when there is none.
  function Entry(w: World, room: RoomId): (r: (World, nat)) {
    if room in w.mapped then (w, w.mapped[room])
    else (w.(objs := w.objs + [RoomObject(room, EMPTY)], mapped := w.mapped[room := |w.objs|]), |w.objs|)
  }

  function PutSeats(w: World, o: nat, s: Seats): World
    requires o < |w.objs|
  {
    w.(objs := w.objs[o := w.objs[o].(seats := s)])
  }

  function SeatTask(w: World, p: PeerId, o: nat): World
    requires p < |w.tasks| && o < |w.objs|
  {
    w.(tasks := w.tasks[p := w.tasks[p].(room := Some(w.objs[o].room), home := Some(o), pc := Looping)])
  }

  // The last lock of a handler that freed a seat: the entry goes if its room is empty, the guard always.
  function DoAskEmpty(w: World, room: RoomId): World
    requires room in w.mapped && w.mapped[room] < |w.objs|
  {
    if w.objs[w.mapped[room]].seats.list == []
    then w.(mapped := w.mapped - {room}, guards := w.guards - {room}) else w.(guards := w.guards - {room})
  }

  // A resume token names a seat its holder's user was given in that room and group; `None` is one that
  // another process gave, before a restart: ids are random, so no task of this one ever has it.
  predicate TokenValid(w: World, p: PeerId, room: RoomId, seat: Option<PeerId>) {
    seat.Some? ==>
      && p < |w.tasks| && seat.value < |w.tasks|
      && w.tasks[seat.value].room == Some(room) && w.tasks[seat.value].user == w.tasks[p].user
  }

  // A socket that holds no seat asks for one back; while another handler guards the entry it waits.
  predicate AsksBack(w: World, p: PeerId, room: RoomId, seat: Option<PeerId>) {
    At(w, p, Looping) && w.tasks[p].room.None? && room !in w.guards && TokenValid(w, p, room, seat)
  }

  // There is a room to look for the seat in; otherwise the answer is a refusal at once. A seat of another
  // process is refused whatever the room holds.
  predicate MayBeFound(w: World, room: RoomId, seat: Option<PeerId>) {
    seat.Some? && room in w.mapped
  }

  // Everything a step may read is in range and well formed.
  predicate Sound(w: World) {
    && (forall o :: 0 <= o < |w.objs| ==> Valid(w.objs[o].seats))
    && (forall r :: r in w.mapped ==> w.mapped[r] < |w.objs|)
    && (forall p :: 0 <= p < |w.tasks| ==>
          && (w.tasks[p].pc.Resuming? ==> w.tasks[p].pc.obj < |w.objs|)
          && (w.tasks[p].pc.Relaying? ==> w.tasks[p].pc.obj < |w.objs|)
          && (w.tasks[p].pc.GoingAway? ==> w.tasks[p].pc.obj < |w.objs|))
  }

  function DoJoin(w: World, p: PeerId, room: RoomId, group: GroupId): (t: World)
    requires Sound(w) && p < |w.tasks|
  {
    var (e, o) := Entry(w, room);
    var (after, outcome) := Join(e.objs[o].seats, Peer(p, w.tasks[p].user, group));
    var put := PutSeats(e, o, after);
    if outcome.Full? || outcome.OtherGroup? then put else SeatTask(put, p, o)
  }

  function DoResume(w: World, p: PeerId): (t: World)
    requires Sound(w) && p < |w.tasks| && w.tasks[p].pc.Resuming?
  {
    var Resuming(o, seat, group) := w.tasks[p].pc;
    var (after, outcome) := Resume(w.objs[o].seats, seat, Peer(p, w.tasks[p].user, group));
    if outcome.Unknown? then SetPc(w, p, Looping) else SeatTask(PutSeats(w, o, after), p, o)
  }

  function DoMark(w: World, p: PeerId): (t: World)
    requires Sound(w) && p < |w.tasks| && w.tasks[p].pc.GoingAway?
  {
    var o := w.tasks[p].pc.obj;
    var (after, partner) := MarkAbsent(w.objs[o].seats, p);
    SetPc(PutSeats(w, o, after), p, if partner.Some? then Marked else Ended)
  }

  function DoLeave(w: World, p: PeerId): (t: World)
    requires Sound(w) && p < |w.tasks|
  {
    var ended := SetPc(w, p, Ended);
    if w.tasks[p].room.None? || w.tasks[p].room.value !in w.mapped then ended
    else
      var room := w.tasks[p].room.value;
      var o := w.mapped[room];
      PutSeats(ended, o, Leave(w.objs[o].seats, p).0).(guards := w.guards + {room})
  }

  function DoFire(w: World, timer: Timer): (t: World)
    requires Sound(w)
  {
    var fired := w.(timers := w.timers - multiset{timer});
    if timer.room !in w.mapped then fired
    else
      var o := w.mapped[timer.room];
      PutSeats(fired, o, Expire(w.objs[o].seats, timer.peer).0).(guards := w.guards + {timer.room})
  }

  // The map can be reached under the room of the socket.
  predicate Unguarded(w: World, p: PeerId)
    requires p < |w.tasks|
  {
    w.tasks[p].room.Some? ==> w.tasks[p].room.value !in w.guards
  }

  // A step that is not enabled changes nothing.
  function Do(w: World, step: Step): (t: World)
    requires Sound(w)
  {
    match step
    case Open(user) => w.(tasks := w.tasks + [Task(user, None, None, Looping)])
    case JoinUnderGuard(p, room, group) =>
      if At(w, p, Looping) && w.tasks[p].room.None? && room !in w.guards then DoJoin(w, p, room, group) else w
    case FindToResume(p, room, group, seat) =>
      if AsksBack(w, p, room, seat) && MayBeFound(w, room, seat)
      then SetPc(w, p, Resuming(w.mapped[room], seat.value, group)) else w
    case LockToResume(p) => if p < |w.tasks| && w.tasks[p].pc.Resuming? then DoResume(w, p) else w
    case FindToRelay(p, kind) =>
      if At(w, p, Looping) && w.tasks[p].room.Some? && w.tasks[p].room.value in w.mapped - w.guards
      then SetPc(w, p, Relaying(w.mapped[w.tasks[p].room.value], kind)) else w
    case LockToRelay(p) => if p < |w.tasks| && w.tasks[p].pc.Relaying? then SetPc(w, p, Looping) else w
    case EndAndLeave(p) => if At(w, p, Looping) && Unguarded(w, p) then DoLeave(w, p) else w
    case EndAndFind(p) =>
      if !At(w, p, Looping) || !Unguarded(w, p) then w
      else if w.tasks[p].room.Some? && w.tasks[p].room.value in w.mapped
      then SetPc(w, p, GoingAway(w.mapped[w.tasks[p].room.value])) else SetPc(w, p, Ended)
    case LockToMark(p) => if p < |w.tasks| && w.tasks[p].pc.GoingAway? then DoMark(w, p) else w
    case SpawnTimer(p) =>
      if At(w, p, Marked) && w.tasks[p].room.Some?
      then SetPc(w, p, Ended).(timers := w.timers + multiset{Timer(w.tasks[p].room.value, p)}) else w
    case FireTimer(timer) => if timer in w.timers && timer.room !in w.guards then DoFire(w, timer) else w
    case AskEmpty(room) => if room in w.guards && room in w.mapped then DoAskEmpty(w, room) else w
  }

  // ---------- The invariant ----------

  // Who answers for a seat: a live loop for a present one; for an absent one, either the socket task about
  // to spawn its grace timer or that timer, never both.
  predicate Owned(w: World, o: nat, seat: Seat) {
    var p := seat.peer.id;
    && o < |w.objs| && p < |w.tasks|
    && w.tasks[p].home == Some(o) && w.tasks[p].user == seat.peer.user
    && (seat.present ==> w.tasks[p].pc.Looping? || w.tasks[p].pc.Relaying? || w.tasks[p].pc.GoingAway?)
    && (!seat.present ==>
          if w.tasks[p].pc.Marked? then w.timers[Timer(w.objs[o].room, p)] == 0
          else w.tasks[p].pc.Ended? && w.timers[Timer(w.objs[o].room, p)] == 1)
  }

  predicate ObjOk(w: World, o: nat)
    requires o < |w.objs|
  {
    && Valid(w.objs[o].seats)
    && (forall i :: 0 <= i < |w.objs[o].seats.list| ==> Owned(w, o, w.objs[o].seats.list[i]))
    && (w.objs[o].seats.list != [] ==> w.objs[o].room in w.mapped && w.mapped[w.objs[o].room] == o)
    && (w.objs[o].room in w.mapped - w.guards && w.mapped[w.objs[o].room] == o ==> w.objs[o].seats.list != [])
    && (w.objs[o].room in w.mapped ==> o <= w.mapped[w.objs[o].room])
  }

  predicate MapOk(w: World) {
    && (forall r :: r in w.mapped ==> w.mapped[r] < |w.objs| && w.objs[w.mapped[r]].room == r)
    && (forall r :: r in w.guards ==> r in w.mapped)
  }

  // An object found under its socket's room, no older than the one that seated `holder`.
  predicate FoundOk(w: World, o: nat, holder: PeerId) {
    && o < |w.objs| && holder < |w.tasks|
    && w.tasks[holder].home.Some? && w.tasks[holder].home.value <= o
    && w.tasks[holder].room == Some(w.objs[o].room)
  }

  predicate TaskOk(w: World, p: PeerId)
    requires p < |w.tasks|
  {
    var task := w.tasks[p];
    && (task.home.Some? <==> task.room.Some?)
    && (task.home.Some? ==> task.home.value < |w.objs| && task.room == Some(w.objs[task.home.value].room))
    && (match task.pc
        case Looping => true
        case Resuming(o, seat, _) => task.room.None? && FoundOk(w, o, seat) && w.tasks[seat].user == task.user
        case Relaying(o, _) => FoundOk(w, o, p)
        case GoingAway(o) => FoundOk(w, o, p)
        case Marked => task.room.Some?
        case Ended => true)
  }

  predicate TimersOk(w: World) {
    forall t :: t in w.timers ==>
      && w.timers[t] == 1 && t.peer < |w.tasks|
      && w.tasks[t.peer].pc.Ended? && w.tasks[t.peer].room == Some(t.room)
  }

  predicate Inv(w: World)
  {
    && (forall o :: 0 <= o < |w.objs| ==> ObjOk(w, o))
    && MapOk(w)
    && (forall p :: 0 <= p < |w.tasks| ==> TaskOk(w, p))
    && TimersOk(w)
  }

  // ---------- What a step must show ----------

  // Objects keep their room, and a seated task keeps its user, its room and its home.
  ghost predicate Grows(w: World, t: World) {
    && |w.objs| <= |t.objs| && |w.tasks| <= |t.tasks|
    && (forall o :: 0 <= o < |w.objs| ==> t.objs[o].room == w.objs[o].room)
    && (forall q :: 0 <= q < |w.tasks| ==> t.tasks[q].user == w.tasks[q].user)
    && (forall q :: 0 <= q < |w.tasks| && w.tasks[q].home.Some? ==>
          t.tasks[q].home == w.tasks[q].home && t.tasks[q].room == w.tasks[q].room)
  }

  lemma TaskFrame(w: World, t: World, p: PeerId)
    requires p < |w.tasks| && TaskOk(w, p) && Grows(w, t) && t.tasks[p] == w.tasks[p]
    ensures TaskOk(t, p)
  {}

  predicate Live(pc: Pc) {
    pc.Looping? || pc.Relaying? || pc.GoingAway?
  }

  // As far as seats are concerned, nothing happened to `p`.
  ghost predicate SameOwner(w: World, t: World, p: PeerId)
    requires p < |w.tasks|
  {
    && p < |t.tasks|
    && t.tasks[p].home == w.tasks[p].home && t.tasks[p].user == w.tasks[p].user
    && (t.tasks[p].pc == w.tasks[p].pc || (Live(t.tasks[p].pc) && Live(w.tasks[p].pc)))
    && (forall r :: t.timers[Timer(r, p)] == w.timers[Timer(r, p)])
  }

  ghost predicate SameEntry(w: World, t: World, r: RoomId) {
    && (r in w.mapped <==> r in t.mapped) && (r in w.mapped ==> t.mapped[r] == w.mapped[r])
    && (r in w.guards <==> r in t.guards)
  }

  lemma ObjFrame(w: World, t: World, o: nat)
    requires o < |w.objs| && ObjOk(w, o) && Grows(w, t) && t.objs[o] == w.objs[o] && SameEntry(w, t, w.objs[o].room)
    requires w.objs[o].seats.list != [] ==>
      forall p :: 0 <= p < |w.tasks| && w.tasks[p].home == Some(o) ==> SameOwner(w, t, p)
    ensures ObjOk(t, o)
  {
    forall i | 0 <= i < |w.objs[o].seats.list| ensures Owned(t, o, w.objs[o].seats.list[i]) {
      assert Owned(w, o, w.objs[o].seats.list[i]);
      assert SameOwner(w, t, w.objs[o].seats.list[i].peer.id);
    }
  }

  // A step that touches at most socket task `p` and the object `o` of room `r`.
  ghost predicate Confined(w: World, t: World, p: PeerId, o: nat, r: RoomId) {
    && Grows(w, t)
    && (forall q :: 0 <= q < |w.tasks| && q != p ==> t.tasks[q] == w.tasks[q])
    && (forall x :: 0 <= x < |w.objs| && x != o ==> t.objs[x] == w.objs[x])
    && (forall x :: x != r ==> SameEntry(w, t, x))
    && (forall tm: Timer :: tm.peer != p ==> t.timers[tm] == w.timers[tm])
  }

  // Every object but `o` is still right: those of other rooms were not touched, and those of room
  // `r` are empty and older than `o`.
  lemma OthersOk(w: World, t: World, p: PeerId, o: nat, r: RoomId)
    requires Inv(w) && Confined(w, t, p, o, r)
    requires p < |w.tasks| && (w.tasks[p].room.Some? ==> w.tasks[p].room.value == r)
    requires forall x :: 0 <= x < |w.objs| && x != o && w.objs[x].room == r ==>
      w.objs[x].seats.list == [] && (r in t.mapped ==> t.mapped[r] == o && x < o)
    ensures forall x :: 0 <= x < |w.objs| && x != o ==> ObjOk(t, x)
  {
    forall x | 0 <= x < |w.objs| && x != o ensures ObjOk(t, x) {
      assert ObjOk(w, x);
      if w.objs[x].room != r {
        forall q | 0 <= q < |w.tasks| && w.tasks[q].home == Some(x) ensures SameOwner(w, t, q) {
          assert TaskOk(w, q);
        }
        ObjFrame(w, t, x);
      }
    }
  }

  // Of the objects of one room, only the mapped one may hold seats, and it is the newest.
  lemma OnlyTheMappedHolds(w: World, r: RoomId)
    requires Inv(w)
    ensures forall x :: 0 <= x < |w.objs| && w.objs[x].room == r && !(r in w.mapped && w.mapped[r] == x) ==>
      w.objs[x].seats.list == [] && (r in w.mapped ==> x < w.mapped[r])
  {
    forall x | 0 <= x < |w.objs| && w.objs[x].room == r ensures ObjOk(w, x) {}
  }

  lemma Reassemble(w: World, t: World, p: PeerId, o: nat, r: RoomId)
    requires Inv(w) && Confined(w, t, p, o, r)
    requires p < |w.tasks| == |t.tasks| && |t.objs| <= |w.objs| + 1 && (|t.objs| > |w.objs| ==> o == |w.objs|)
    requires forall x :: 0 <= x < |w.objs| && x != o ==> ObjOk(t, x)
    requires o < |t.objs| ==> ObjOk(t, o)
    requires MapOk(t) && TimersOk(t) && TaskOk(t, p)
    ensures Inv(t)
  {
    forall x | 0 <= x < |t.objs| ensures ObjOk(t, x) {}
    forall q | 0 <= q < |t.tasks| ensures TaskOk(t, q) {
      if q != p { TaskFrame(w, t, q); }
    }
  }

  // A task that holds no seat's room is seated nowhere.
  lemma UnseatedHoldsNothing(w: World, p: PeerId, o: nat)
    requires Inv(w) && p < |w.tasks| && o < |w.objs| && w.tasks[p].home != Some(o)
    ensures !Holds(w.objs[o].seats, p)
  {
    assert ObjOk(w, o);
  }

  // The task `p`, seated nowhere, takes a seat in the mapped object `o` of room `r` (created when
  // the room was not mapped); the other seats there are seats that were there.
  ghost predicate SeatingStep(w: World, t: World, p: PeerId, o: nat, r: RoomId, after: Seats) {
    && p < |w.tasks| && w.tasks[p].home.None?
    && (if r in w.mapped then o == w.mapped[r] && o < |w.objs| == |t.objs| else o == |w.objs| && |t.objs| == o + 1)
    && t.mapped == w.mapped[r := o] && t.timers == w.timers && t.guards == w.guards
    && (forall x :: 0 <= x < |w.objs| && x != o ==> t.objs[x] == w.objs[x])
    && t.objs[o] == RoomObject(r, after)
    && t.tasks == w.tasks[p := Task(w.tasks[p].user, Some(r), Some(o), Looping)]
    && Valid(after) && after.list != []
    && (forall x :: x in after.list ==>
          || (x.present && x.peer.id == p && x.peer.user == w.tasks[p].user)
          || (o < |w.objs| && x in w.objs[o].seats.list))
  }

  lemma SeatingKeepsInv(w: World, t: World, p: PeerId, o: nat, r: RoomId, after: Seats)
    requires Inv(w) && SeatingStep(w, t, p, o, r, after)
    ensures Inv(t)
  {
    assert TaskOk(w, p);
    OnlyTheMappedHolds(w, r);
    assert Confined(w, t, p, o, r);
    OthersOk(w, t, p, o, r);
    forall i | 0 <= i < |after.list| ensures Owned(t, o, after.list[i]) {
      var x := after.list[i];
      assert x in after.list;
      if o < |w.objs| && x in w.objs[o].seats.list {
        assert ObjOk(w, o) && Owned(w, o, x);
      }
    }
    assert ObjOk(t, o);
    Reassemble(w, t, p, o, r);
  }

  lemma JoinKeepsInv(w: World, p: PeerId, room: RoomId, group: GroupId)
    requires Inv(w) && Sound(w) && At(w, p, Looping) && w.tasks[p].room.None?
    ensures Inv(DoJoin(w, p, room, group))
  {
    var t := DoJoin(w, p, room, group);
    var (e, o) := Entry(w, room);
    var peer := Peer(p, w.tasks[p].user, group);
    var seats := e.objs[o].seats;
    assert TaskOk(w, p);
    if o < |w.objs| { UnseatedHoldsNothing(w, p, o); assert ObjOk(w, o); }
    JoinKeepsValid(seats, peer);
    var (after, outcome) := Join(seats, peer);
    if outcome.Full? || outcome.OtherGroup? {
      assert t == w;
    } else {
      forall x | x in after.list ensures x == Seat(peer, true) || x in seats.list {
        JoinReplacesSiblings(seats, peer, x);
      }
      assert SeatingStep(w, t, p, o, room, after);
      SeatingKeepsInv(w, t, p, o, room, after);
    }
  }

  lemma ResumeKeepsInv(w: World, p: PeerId)
    requires Inv(w) && Sound(w) && p < |w.tasks| && w.tasks[p].pc.Resuming?
    ensures Inv(DoResume(w, p))
  {
    var t := DoResume(w, p);
    var Resuming(o, seat, group) := w.tasks[p].pc;
    var peer := Peer(p, w.tasks[p].user, group);
    assert TaskOk(w, p) && ObjOk(w, o);
    UnseatedHoldsNothing(w, p, o);
    ResumeKeepsValid(w.objs[o].seats, seat, peer);
    var (after, outcome) := Resume(w.objs[o].seats, seat, peer);
    if outcome.Unknown? {
      PcOnlyKeepsInv(w, p, Looping);
    } else {
      assert SeatingStep(w, t, p, o, w.objs[o].room, after);
      SeatingKeepsInv(w, t, p, o, w.objs[o].room, after);
    }
  }

  // A move of one task that no seat depends on.
  lemma PcOnlyKeepsInv(w: World, p: PeerId, pc: Pc)
    requires Inv(w) && p < |w.tasks| && TaskOk(SetPc(w, p, pc), p)
    requires w.tasks[p].home.None? || (Live(w.tasks[p].pc) && Live(pc))
    requires !w.tasks[p].pc.Ended?
    ensures Inv(SetPc(w, p, pc))
  {
    var t := SetPc(w, p, pc);
    forall o | 0 <= o < |t.objs| ensures ObjOk(t, o) {
      forall q | 0 <= q < |w.tasks| && w.tasks[q].home == Some(o) ensures SameOwner(w, t, q) {}
      ObjFrame(w, t, o);
    }
    forall q | 0 <= q < |t.tasks| ensures TaskOk(t, q) { if q != p { TaskFrame(w, t, q); } }
  }

  // The task `p` of room `r` is done with its loop; in the mapped object of its room, no seat
  // changed but its own, and the entry is guarded when that empties it.
  ghost predicate ReleasingStep(w: World, t: World, p: PeerId, o: nat, r: RoomId) {
    && p < |w.tasks| == |t.tasks| && w.tasks[p].room == Some(r)
    && r in w.mapped && o == w.mapped[r] && o < |w.objs| == |t.objs|
    && (forall x :: 0 <= x < |w.objs| && x != o ==> t.objs[x] == w.objs[x])
    && t.objs[o].room == r && Valid(t.objs[o].seats)
    && t.mapped == w.mapped && w.guards <= t.guards <= w.guards + {r}
    && (t.objs[o].seats.list == [] ==> r in t.guards)
    && t.tasks == w.tasks[p := w.tasks[p].(pc := t.tasks[p].pc)]
    && (t.tasks[p].pc.Ended? || t.tasks[p].pc.Marked?)
    && TimersOk(t) && (forall tm: Timer :: tm.peer != p ==> t.timers[tm] == w.timers[tm])
    && (forall x :: x in t.objs[o].seats.list ==>
          if x.peer.id == p then Owned(t, o, x) else x in w.objs[o].seats.list)
  }

  lemma ReleasingKeepsInv(w: World, t: World, p: PeerId, o: nat, r: RoomId)
    requires Inv(w) && ReleasingStep(w, t, p, o, r)
    ensures Inv(t)
  {
    assert TaskOk(w, p);
    OnlyTheMappedHolds(w, r);
    assert Confined(w, t, p, o, r);
    OthersOk(w, t, p, o, r);
    var after := t.objs[o].seats;
    forall i | 0 <= i < |after.list| ensures Owned(t, o, after.list[i]) {
      var x := after.list[i];
      assert x in after.list;
      if x.peer.id != p { assert ObjOk(w, o) && Owned(w, o, x); }
    }
    assert ObjOk(w, o);
    assert ObjOk(t, o);
    Reassemble(w, t, p, o, r);
  }

  // The task's room is not mapped, so it holds no seat.
  lemma UnmappedEndKeepsInv(w: World, t: World, p: PeerId)
    requires Inv(w) && p < |w.tasks| && (w.tasks[p].room.Some? ==> w.tasks[p].room.value !in w.mapped)
    requires t == w.(tasks := w.tasks[p := w.tasks[p].(pc := Ended)], timers := t.timers) && TimersOk(t)
    requires forall tm: Timer :: tm.peer != p ==> t.timers[tm] == w.timers[tm]
    ensures Inv(t)
  {
    assert TaskOk(w, p);
    forall o | 0 <= o < |t.objs| ensures ObjOk(t, o) {
      assert ObjOk(w, o);
      forall q | 0 <= q < |w.tasks| && w.tasks[q].home == Some(o) && w.objs[o].seats.list != [] ensures SameOwner(w, t, q) {
        assert TaskOk(w, q);
      }
      ObjFrame(w, t, o);
    }
    forall q | 0 <= q < |t.tasks| ensures TaskOk(t, q) { if q != p { TaskFrame(w, t, q); } }
  }

  lemma MarkedSeatIsOwned(w: World, p: PeerId, x: Seat)
    requires Inv(w) && Sound(w) && p < |w.tasks| && w.tasks[p].pc.GoingAway?
    requires x in DoMark(w, p).objs[w.tasks[p].pc.obj].seats.list
    ensures var o := w.tasks[p].pc.obj;
      if x.peer.id == p then Owned(DoMark(w, p), o, x) else x in w.objs[o].seats.list
  {
    var o := w.tasks[p].pc.obj;
    var s, list := w.objs[o].seats, DoMark(w, p).objs[o].seats.list;
    var i :| 0 <= i < |list| && list[i] == x;
    MarkAbsentMovesNothing(s, p, i);
    assert ObjOk(w, o) && Owned(w, o, s.list[i]);
  }

  // The room found is still the mapped one: the seat, if it is still this task's, turns absent.
  lemma FreshMarkKeepsInv(w: World, p: PeerId)
    requires Inv(w) && Sound(w) && p < |w.tasks| && w.tasks[p].pc.GoingAway?
    requires var o := w.tasks[p].pc.obj; w.objs[o].room in w.mapped && w.mapped[w.objs[o].room] == o
    ensures Inv(DoMark(w, p))
  {
    var t := DoMark(w, p);
    var o := w.tasks[p].pc.obj;
    var r := w.objs[o].room;
    assert TaskOk(w, p) && ObjOk(w, o);
    EndingsKeepValid(w.objs[o].seats, p);
    forall x | x in t.objs[o].seats.list
      ensures if x.peer.id == p then Owned(t, o, x) else x in w.objs[o].seats.list
    {
      MarkedSeatIsOwned(w, p, x);
    }
    assert ReleasingStep(w, t, p, o, r);
    ReleasingKeepsInv(w, t, p, o, r);
  }

  // The room found was removed meanwhile: it is empty, and the socket holds no seat.
  lemma StaleMarkKeepsInv(w: World, p: PeerId)
    requires Inv(w) && Sound(w) && p < |w.tasks| && w.tasks[p].pc.GoingAway?
    requires var o := w.tasks[p].pc.obj; !(w.objs[o].room in w.mapped && w.mapped[w.objs[o].room] == o)
    ensures Inv(DoMark(w, p))
  {
    var t := DoMark(w, p);
    var o := w.tasks[p].pc.obj;
    var r := w.objs[o].room;
    assert TaskOk(w, p);
    OnlyTheMappedHolds(w, r);
    assert t == SetPc(w, p, Ended);
    if r in w.mapped {
      UnseatedHoldsNothing(w, p, w.mapped[r]);
      assert ObjOk(w, w.mapped[r]);
      assert ReleasingStep(w, t, p, w.mapped[r], r);
      ReleasingKeepsInv(w, t, p, w.mapped[r], r);
    } else {
      UnmappedEndKeepsInv(w, t, p);
    }
  }

  lemma MarkKeepsInv(w: World, p: PeerId)
    requires Inv(w) && Sound(w) && p < |w.tasks| && w.tasks[p].pc.GoingAway?
    ensures Inv(DoMark(w, p))
  {
    var o := w.tasks[p].pc.obj;
    if w.objs[o].room in w.mapped && w.mapped[w.objs[o].room] == o {
      FreshMarkKeepsInv(w, p);
    } else {
      StaleMarkKeepsInv(w, p);
    }
  }

  lemma LeaveKeepsInv(w: World, p: PeerId)
    requires Inv(w) && Sound(w) && At(w, p, Looping) && Unguarded(w, p)
    ensures Inv(DoLeave(w, p))
  {
    var t := DoLeave(w, p);
    if w.tasks[p].room.Some? && w.tasks[p].room.value in w.mapped {
      var r := w.tasks[p].room.value;
      var o := w.mapped[r];
      assert ObjOk(w, o);
      EndingsKeepValid(w.objs[o].seats, p);
      forall x ensures x in t.objs[o].seats.list <==> x in w.objs[o].seats.list && x.peer.id != p {
        LeaveFreesOnlyThatSeat(w.objs[o].seats, p, x);
      }
      assert ReleasingStep(w, t, p, o, r);
      ReleasingKeepsInv(w, t, p, o, r);
    } else {
      UnmappedEndKeepsInv(w, t, p);
    }
  }

  lemma FireKeepsInv(w: World, timer: Timer)
    requires Inv(w) && Sound(w) && timer in w.timers
    ensures Inv(DoFire(w, timer))
  {
    var t := DoFire(w, timer);
    var p := timer.peer;
    assert w.tasks[p := w.tasks[p].(pc := Ended)] == w.tasks;
    if timer.room in w.mapped {
      var o := w.mapped[timer.room];
      assert ObjOk(w, o);
      EndingsKeepValid(w.objs[o].seats, p);
      ExpiredIsGone(w, timer);
      assert ReleasingStep(w, t, p, o, timer.room);
      ReleasingKeepsInv(w, t, p, o, timer.room);
    } else {
      UnmappedEndKeepsInv(w, t, p);
    }
  }

  // A seat of the timer's peer is absent, since that peer's task has ended; so it is freed.
  lemma ExpiredIsGone(w: World, timer: Timer)
    requires Inv(w) && Sound(w) && timer in w.timers && timer.room in w.mapped
    ensures var s := w.objs[w.mapped[timer.room]].seats;
      forall x :: x in Expire(s, timer.peer).0.list ==> x.peer.id != timer.peer && x in s.list
  {
    var o := w.mapped[timer.room];
    assert ObjOk(w, o);
    forall x | x in Expire(w.objs[o].seats, timer.peer).0.list
      ensures x.peer.id != timer.peer && x in w.objs[o].seats.list
    {
      ExpireFreesOnlyThatAbsentSeat(w.objs[o].seats, timer.peer, x);
      assert Owned(w, o, x);
    }
  }

  lemma SpawnKeepsInv(w: World, p: PeerId)
    requires Inv(w) && Sound(w) && At(w, p, Marked)
    ensures Inv(Do(w, SpawnTimer(p)))
  {
    assert TaskOk(w, p);
    var t := Do(w, SpawnTimer(p));
    var r := w.tasks[p].room.value;
    if r in w.mapped {
      var o := w.mapped[r];
      assert ObjOk(w, o);
      forall x | x in t.objs[o].seats.list && x.peer.id == p ensures Owned(t, o, x) {
        assert Owned(w, o, x);
      }
      assert ReleasingStep(w, t, p, o, r);
      ReleasingKeepsInv(w, t, p, o, r);
    } else {
      UnmappedEndKeepsInv(w, t, p);
    }
  }

  // Whatever stale handles did since the seat was freed, an empty room's entry goes and the entry of a
  // room that is not empty stays.
  lemma AskEmptyKeepsInv(w: World, room: RoomId)
    requires Inv(w) && Sound(w) && room in w.guards && room in w.mapped
    ensures Inv(DoAskEmpty(w, room))
  {
    var t := DoAskEmpty(w, room);
    forall o | 0 <= o < |t.objs| ensures ObjOk(t, o) {
      assert ObjOk(w, o);
      forall i | 0 <= i < |w.objs[o].seats.list| ensures Owned(t, o, w.objs[o].seats.list[i]) {
        assert Owned(w, o, w.objs[o].seats.list[i]);
      }
    }
    forall q | 0 <= q < |t.tasks| ensures TaskOk(t, q) { TaskFrame(w, t, q); }
  }

  lemma InvIsSound(w: World)
    requires Inv(w)
    ensures Sound(w)
  {
    forall o | 0 <= o < |w.objs| ensures Valid(w.objs[o].seats) { assert ObjOk(w, o); }
    forall p | 0 <= p < |w.tasks|
      ensures w.tasks[p].pc.Resuming? || w.tasks[p].pc.Relaying? || w.tasks[p].pc.GoingAway? ==> w.tasks[p].pc.obj < |w.objs|
    {
      assert TaskOk(w, p);
    }
  }

  lemma OpenKeepsInv(w: World, user: UserId)
    requires Inv(w) && Sound(w)
    ensures Inv(Do(w, Open(user)))
  {
    var t := Do(w, Open(user));
    forall o | 0 <= o < |t.objs| ensures ObjOk(t, o) { ObjFrame(w, t, o); }
    forall q | 0 <= q < |t.tasks| ensures TaskOk(t, q) { if q < |w.tasks| { TaskFrame(w, t, q); } }
  }

  // The look-ups: the object found is the newest of its room, no older than any home there.
  lemma MappedIsFound(w: World, holder: PeerId)
    requires Inv(w) && holder < |w.tasks| && w.tasks[holder].room.Some? && w.tasks[holder].room.value in w.mapped
    ensures FoundOk(w, w.mapped[w.tasks[holder].room.value], holder)
  {
    assert TaskOk(w, holder) && ObjOk(w, w.tasks[holder].home.value);
  }

  lemma FindToResumeKeepsInv(w: World, p: PeerId, room: RoomId, group: GroupId, seat: Option<PeerId>)
    requires Inv(w) && Sound(w)
    ensures Inv(Do(w, FindToResume(p, room, group, seat)))
  {
    if AsksBack(w, p, room, seat) && MayBeFound(w, room, seat) {
      assert TaskOk(w, p);
      MappedIsFound(w, seat.value);
      PcOnlyKeepsInv(w, p, Resuming(w.mapped[room], seat.value, group));
    }
  }

  lemma RelayingKeepsInv(w: World, step: Step)
    requires Inv(w) && Sound(w) && (step.FindToRelay? || step.LockToRelay?)
    ensures Inv(Do(w, step))
  {
    var p := step.p;
    if p < |w.tasks| && Do(w, step) != w {
      assert TaskOk(w, p);
      if step.FindToRelay? {
        MappedIsFound(w, p);
        PcOnlyKeepsInv(w, p, Relaying(w.mapped[w.tasks[p].room.value], step.kind));
      } else {
        PcOnlyKeepsInv(w, p, Looping);
      }
    }
  }

  lemma EndAndFindKeepsInv(w: World, p: PeerId)
    requires Inv(w) && Sound(w)
    ensures Inv(Do(w, EndAndFind(p)))
  {
    if At(w, p, Looping) && Unguarded(w, p) {
      assert TaskOk(w, p);
      if w.tasks[p].room.Some? && w.tasks[p].room.value in w.mapped {
        MappedIsFound(w, p);
        PcOnlyKeepsInv(w, p, GoingAway(w.mapped[w.tasks[p].room.value]));
      } else {
        UnmappedEndKeepsInv(w, SetPc(w, p, Ended), p);
      }
    }
  }

  lemma DoKeepsInv(w: World, step: Step)
    requires Inv(w) && Sound(w)
    ensures Inv(Do(w, step))
  {
    match step
    case Open(user) => OpenKeepsInv(w, user);
    case JoinUnderGuard(p, room, group) =>
      if At(w, p, Looping) && w.tasks[p].room.None? && room !in w.guards { JoinKeepsInv(w, p, room, group); }
    case LockToResume(p) => if p < |w.tasks| && w.tasks[p].pc.Resuming? { ResumeKeepsInv(w, p); }
    case EndAndLeave(p) => if At(w, p, Looping) && Unguarded(w, p) { LeaveKeepsInv(w, p); }
    case LockToMark(p) => if p < |w.tasks| && w.tasks[p].pc.GoingAway? { MarkKeepsInv(w, p); }
    case SpawnTimer(p) => if At(w, p, Marked) { SpawnKeepsInv(w, p); }
    case FireTimer(timer) => if timer in w.timers { FireKeepsInv(w, timer); }
    case AskEmpty(room) => if room in w.guards && room in w.mapped { AskEmptyKeepsInv(w, room); }
    case FindToResume(p, room, group, seat) => FindToResumeKeepsInv(w, p, room, group, seat);
    case EndAndFind(p) => EndAndFindKeepsInv(w, p);
    case _ => RelayingKeepsInv(w, step);
  }

  // ---------- Every run ----------

  ghost function RunFrom(w: World, steps: seq<Step>): (t: World)
    requires Inv(w)
    ensures Inv(t)
  {
    if steps == [] then w
    else
      var before := RunFrom(w, steps[..|steps| - 1]);
      InvIsSound(before);
      DoKeepsInv(before, steps[|steps| - 1]);
      Do(before, steps[|steps| - 1])
  }

  ghost predicate Reachable(w: World) {
    exists steps :: w == RunFrom(INIT, steps)
  }

  lemma ReachableInv(w: World)
    requires Reachable(w)
    ensures Inv(w) && Sound(w)
  {
    InvIsSound(w);
  }

  /** No seat leaks and none has two owners: a present seat belongs to one live socket loop and to
      no timer; an absent one to one grace timer, or to the socket task about to spawn it, never to both. */
  lemma EverySeatIsOwnedOnce(w: World, o: nat, i: nat)
    requires Reachable(w) && o < |w.objs| && i < |w.objs[o].seats.list|
    ensures var seat := w.objs[o].seats.list[i];
      var p := seat.peer.id;
      && p < |w.tasks|
      && (seat.present ==> Live(w.tasks[p].pc) && forall t :: t in w.timers ==> t.peer != p)
      && (!seat.present ==>
            && !Live(w.tasks[p].pc)
            && (if w.tasks[p].pc.Marked? then 1 else 0) + w.timers[Timer(w.objs[o].room, p)] == 1
            && (forall t :: t in w.timers && t.peer == p ==> t.room == w.objs[o].room))
  {
    ReachableInv(w);
    SeatIsOwned(w, o, i);
  }

  // Somebody answers for every seat.
  lemma SeatIsOwned(w: World, o: nat, i: nat)
    requires Inv(w) && o < |w.objs| && i < |w.objs[o].seats.list|
    ensures var seat := w.objs[o].seats.list[i];
      var p := seat.peer.id;
      && p < |w.tasks|
      && (seat.present ==> Live(w.tasks[p].pc) && forall t :: t in w.timers ==> t.peer != p)
      && (!seat.present ==>
            && !Live(w.tasks[p].pc)
            && (if w.tasks[p].pc.Marked? then 1 else 0) + w.timers[Timer(w.objs[o].room, p)] == 1
            && (forall t :: t in w.timers && t.peer == p ==> t.room == w.objs[o].room))
  {
    assert ObjOk(w, o) && Owned(w, o, w.objs[o].seats.list[i]);
    assert TaskOk(w, w.objs[o].seats.list[i].peer.id);
  }

  /** No socket holds two seats, in one room or in two. */
  lemma NoSocketHoldsTwoSeats(w: World, o: nat, i: nat, o': nat, i': nat)
    requires Reachable(w) && o < |w.objs| && i < |w.objs[o].seats.list|
    requires o' < |w.objs| && i' < |w.objs[o'].seats.list|
    requires w.objs[o].seats.list[i].peer.id == w.objs[o'].seats.list[i'].peer.id
    ensures o == o' && i == i'
  {
    ReachableInv(w);
    SeatedAtHome(w, o, i);
    SeatedAtHome(w, o', i');
  }

  lemma SeatedAtHome(w: World, o: nat, i: nat)
    requires Inv(w) && o < |w.objs| && i < |w.objs[o].seats.list|
    ensures var p := w.objs[o].seats.list[i].peer.id;
      && p < |w.tasks| && w.tasks[p].home == Some(o)
      && forall j :: 0 <= j < |w.objs[o].seats.list| && w.objs[o].seats.list[j].peer.id == p ==> j == i
  {
    assert ObjOk(w, o) && Owned(w, o, w.objs[o].seats.list[i]);
  }

  /** A timer frees the seat whose own loss of socket started it, if it is still absent, and no
      other: a seat taken back by a resume is out of an older timer's reach. */
  lemma TimersSpareResumedSeats(w: World, timer: Timer, o: nat, x: Seat)
    requires Reachable(w) && timer in w.timers && o < |w.objs| && x in w.objs[o].seats.list
    ensures Sound(w)
    ensures var t := Do(w, FireTimer(timer));
      if timer.room in w.guards then t == w
      else o < |t.objs| && (x in t.objs[o].seats.list <==> !(x.peer.id == timer.peer && !x.present))
  {
    ReachableInv(w);
    assert ObjOk(w, o) && Owned(w, o, x) && TaskOk(w, x.peer.id);
    if timer.room in w.mapped && w.mapped[timer.room] == o {
      ExpireFreesOnlyThatAbsentSeat(w.objs[o].seats, timer.peer, x);
    }
  }

  ghost predicate Unmapped(w: World, o: nat) {
    o < |w.objs| && !(w.objs[o].room in w.mapped && w.mapped[w.objs[o].room] == o)
  }

  lemma RemovedStaysRemoved(w: World, step: Step, o: nat)
    requires Sound(w) && MapOk(w) && Unmapped(w, o)
    ensures Unmapped(Do(w, step), o)
  {}

  /** A room removed from the map is empty, and stays unmapped and empty for ever. */
  lemma {:induction false} RemovedRoomsStayEmpty(w: World, steps: seq<Step>, o: nat)
    requires Inv(w) && Unmapped(w, o)
    ensures w.objs[o].seats.list == []
    ensures var t := RunFrom(w, steps); Unmapped(t, o) && t.objs[o].seats.list == []
  {
    assert ObjOk(w, o);
    if steps != [] {
      var before := RunFrom(w, steps[..|steps| - 1]);
      RemovedRoomsStayEmpty(w, steps[..|steps| - 1], o);
      InvIsSound(before);
      RemovedStaysRemoved(before, steps[|steps| - 1], o);
      UnmappedIsEmpty(RunFrom(w, steps), o);
    }
  }

  lemma UnmappedIsEmpty(w: World, o: nat)
    requires Inv(w) && Unmapped(w, o)
    ensures w.objs[o].seats.list == []
  {
    assert ObjOk(w, o);
  }

  /** Nothing is left behind: when every socket task has ended, every timer has fired and no handler is
      at work, no room is mapped and no room object holds a seat. */
  lemma AtRestTheMapIsEmpty(w: World)
    requires Reachable(w) && w.timers == multiset{} && w.guards == {}
    requires forall p :: 0 <= p < |w.tasks| ==> w.tasks[p].pc.Ended?
    ensures w.mapped == map[]
    ensures forall o :: 0 <= o < |w.objs| ==> w.objs[o].seats.list == []
  {
    ReachableInv(w);
    RestIsEmpty(w);
  }

  // Every task has ended, no timer is left and no handler is at work.
  predicate AtRest(w: World) {
    w.timers == multiset{} && w.guards == {} && forall p :: 0 <= p < |w.tasks| ==> w.tasks[p].pc.Ended?
  }

  lemma RestIsEmpty(w: World)
    requires Inv(w) && AtRest(w)
    ensures w.mapped == map[]
    ensures forall o :: 0 <= o < |w.objs| ==> w.objs[o].seats.list == []
  {
    assert forall r :: r in w.mapped ==> !Unmapped(w, w.mapped[r]);
    forall o | 0 <= o < |w.objs| ensures w.objs[o].seats.list == [] && Unmapped(w, o) {
      assert ObjOk(w, o);
      if w.objs[o].seats.list != [] { SeatIsOwned(w, o, 0); }
    }
  }
}
