/**
  Look-up then lock is linearizable: a handler that releases the map before it locks the room decides
  as one that held the map throughout, since a room taken out of the map is empty for ever. And freeing
  a seat takes effect at once: the later question whether the room is empty changes nothing a handler
  can see. So the fine-grained system refines the one whose handlers are single steps on the map.
*/
module CallAtomic {
  import opened Options
  import opened Seating
  import opened RoomMap
  import opened CallSeats

  // The room map as a handler that held its lock throughout would see it: a room that was emptied is
  // gone, also while the handler that emptied it has still to take its entry out.
  function View(w: World): (rooms: Rooms)
    requires MapOk(w)
  {
    map r | r in w.mapped && w.objs[w.mapped[r]].seats.list != [] :: w.objs[w.mapped[r]].seats
  }

  lemma ViewOk(w: World)
    requires Inv(w)
    ensures RoomsOk(View(w))
  {
    forall r | r in View(w) ensures Valid(View(w)[r]) && View(w)[r].list != [] { assert ObjOk(w, w.mapped[r]); }
  }

  // The one operation on the map that each step amounts to.
  datatype Atomic =
    | NoOperation
    | AtomicJoin(room: RoomId, peer: Peer)
    | AtomicResume(room: RoomId, seat: PeerId, peer: Peer)
    | AtomicMark(room: RoomId, id: PeerId)
    | AtomicLeave(room: RoomId, id: PeerId)
    | AtomicExpire(room: RoomId, id: PeerId)

  function AtomicOf(w: World, step: Step): (a: Atomic)
    requires Sound(w)
  {
    match step
    case JoinUnderGuard(p, room, group) =>
      if At(w, p, Looping) && w.tasks[p].room.None? && room !in w.guards
      then AtomicJoin(room, Peer(p, w.tasks[p].user, group)) else NoOperation
    case LockToResume(p) =>
      if p < |w.tasks| && w.tasks[p].pc.Resuming?
      then AtomicResume(w.objs[w.tasks[p].pc.obj].room, w.tasks[p].pc.seat, Peer(p, w.tasks[p].user, w.tasks[p].pc.group))
      else NoOperation
    case LockToMark(p) =>
      if p < |w.tasks| && w.tasks[p].pc.GoingAway? then AtomicMark(w.objs[w.tasks[p].pc.obj].room, p) else NoOperation
    case EndAndLeave(p) =>
      if At(w, p, Looping) && w.tasks[p].room.Some? && Unguarded(w, p)
      then AtomicLeave(w.tasks[p].room.value, p) else NoOperation
    case FireTimer(timer) =>
      if timer in w.timers && timer.room !in w.guards then AtomicExpire(timer.room, timer.peer) else NoOperation
    case _ => NoOperation
  }

  function DoAtomic(rooms: Rooms, a: Atomic): (r: Rooms)
    requires RoomsOk(rooms)
  {
    match a
    case NoOperation => rooms
    case AtomicJoin(room, peer) => JoinAt(rooms, room, peer).0
    case AtomicResume(room, seat, peer) => ResumeAt(rooms, room, seat, peer).0
    case AtomicMark(room, id) => MarkAbsentAt(rooms, room, id).0
    case AtomicLeave(room, id) => LeaveAt(rooms, room, id).0
    case AtomicExpire(room, id) => ExpireAt(rooms, room, id).0
  }

  // A room object of which the map knows nothing any more decides as the map does: nothing.
  lemma StaleDecidesNothing(w: World, o: nat, holder: PeerId)
    requires Inv(w) && FoundOk(w, o, holder) && Unmapped(w, o)
    ensures w.objs[o].seats.list == []
    ensures w.objs[o].room in w.mapped ==> !Holds(w.objs[w.mapped[w.objs[o].room]].seats, holder)
  {
    var r := w.objs[o].room;
    UnmappedIsEmpty(w, o);
    OnlyTheMappedHolds(w, r);
    if r in w.mapped { UnseatedHoldsNothing(w, holder, w.mapped[r]); }
  }

  /** The decision a resume takes under the room's lock is the one the map would have given at that
      instant, whatever happened since the room was looked up. */
  lemma ResumeDecisionIsAtomic(w: World, p: PeerId)
    requires Inv(w) && Sound(w) && p < |w.tasks| && w.tasks[p].pc.Resuming?
    ensures RoomsOk(View(w))
    ensures var Resuming(o, seat, group) := w.tasks[p].pc;
      var peer := Peer(p, w.tasks[p].user, group);
      Resume(w.objs[o].seats, seat, peer).1 == ResumeAt(View(w), w.objs[o].room, seat, peer).1
  {
    ViewOk(w);
    var Resuming(o, seat, group) := w.tasks[p].pc;
    assert TaskOk(w, p);
    if Unmapped(w, o) { StaleDecidesNothing(w, o, seat); }
  }

  /** So is the decision of a lost socket to mark its seat absent. */
  lemma MarkDecisionIsAtomic(w: World, p: PeerId)
    requires Inv(w) && Sound(w) && p < |w.tasks| && w.tasks[p].pc.GoingAway?
    ensures RoomsOk(View(w))
    ensures var o := w.tasks[p].pc.obj;
      MarkAbsent(w.objs[o].seats, p).1 == MarkAbsentAt(View(w), w.objs[o].room, p).1
  {
    ViewOk(w);
    var o := w.tasks[p].pc.obj;
    assert TaskOk(w, p);
    if Unmapped(w, o) { StaleDecidesNothing(w, o, p); }
  }

  /** And the choice of the partner a frame is relayed to. */
  lemma RelayDecisionIsAtomic(w: World, p: PeerId)
    requires Inv(w) && Sound(w) && p < |w.tasks| && w.tasks[p].pc.Relaying?
    ensures RoomsOk(View(w))
    ensures var o := w.tasks[p].pc.obj;
      PartnerOf(w.objs[o].seats, p) == PartnerAt(View(w), w.objs[o].room, p)
  {
    ViewOk(w);
    var o := w.tasks[p].pc.obj;
    assert TaskOk(w, p);
    if Unmapped(w, o) { StaleDecidesNothing(w, o, p); }
  }

  lemma OtherEntry(w: World, t: World, r: RoomId, x: RoomId)
    requires MapOk(w) && MapOk(t) && |t.objs| >= |w.objs| && r in t.mapped && x != r
    requires t.mapped == w.mapped[r := t.mapped[r]]
    requires forall o :: 0 <= o < |w.objs| && o != t.mapped[r] ==> t.objs[o] == w.objs[o]
    ensures (x in View(t) <==> x in View(w)) && (x in View(w) ==> View(t)[x] == View(w)[x])
  {
    if x in w.mapped { assert t.objs[t.mapped[x]].room == x && t.objs[t.mapped[r]].room == r; }
  }

  // A change of one mapped object is a change of one entry of the view, which goes when it is empty.
  lemma ViewOfPut(w: World, t: World, r: RoomId)
    requires MapOk(w) && MapOk(t) && |t.objs| >= |w.objs| && r in t.mapped
    requires t.mapped == w.mapped[r := t.mapped[r]]
    requires forall o :: 0 <= o < |w.objs| && o != t.mapped[r] ==> t.objs[o] == w.objs[o]
    ensures View(t) == Settle(View(w), r, t.objs[t.mapped[r]].seats)
  {
    forall x | x != r ensures (x in View(t) <==> x in View(w)) && (x in View(w) ==> View(t)[x] == View(w)[x]) {
      OtherEntry(w, t, r, x);
    }
  }

  /** The system of two-step handlers refines the atomic one: every step, of any task, acts on the
      map as one atomic handler or not at all. */
  lemma EveryStepIsAtomic(w: World, step: Step)
    requires Inv(w) && Sound(w)
    ensures Inv(Do(w, step)) && RoomsOk(View(w))
    ensures View(Do(w, step)) == DoAtomic(View(w), AtomicOf(w, step))
  {
    DoKeepsInv(w, step);
    ViewOk(w);
    forall r ensures r in w.mapped - w.guards ==> r in View(w) { UnguardedIsSeen(w, r); }
    match step
    case JoinUnderGuard(p, room, group) => JoinIsAtomic(w, p, room, group);
    case LockToResume(p) => ResumeIsAtomic(w, p);
    case LockToMark(p) => MarkIsAtomic(w, p);
    case EndAndLeave(p) => LeaveIsAtomic(w, p);
    case FireTimer(timer) => FireIsAtomic(w, timer);
    case _ => OtherStepsAreQuiet(w, step);
  }

  lemma SameViewWhenUntouched(w: World, t: World)
    requires MapOk(w) && t.objs == w.objs && t.mapped == w.mapped && t.guards == w.guards
    ensures MapOk(t) && View(t) == View(w)
  {}

  lemma AskingIsQuiet(w: World, room: RoomId)
    requires MapOk(w) && room in w.mapped && MapOk(DoAskEmpty(w, room))
    ensures View(DoAskEmpty(w, room)) == View(w)
  {}

  lemma OtherStepsTouchNothing(w: World, step: Step)
    requires Sound(w) && !step.JoinUnderGuard? && !step.LockToResume? && !step.AskEmpty?
    requires !step.LockToMark? && !step.EndAndLeave? && !step.FireTimer?
    ensures var t := Do(w, step); t.objs == w.objs && t.mapped == w.mapped && t.guards == w.guards
  {}

  lemma OtherStepsAreQuiet(w: World, step: Step)
    requires Sound(w) && MapOk(w) && MapOk(Do(w, step)) && !step.JoinUnderGuard? && !step.LockToResume?
    requires !step.LockToMark? && !step.EndAndLeave? && !step.FireTimer?
    ensures View(Do(w, step)) == View(w) && AtomicOf(w, step) == NoOperation
  {
    if step.AskEmpty? {
      if step.room in w.guards && step.room in w.mapped { AskingIsQuiet(w, step.room); }
    } else {
      OtherStepsTouchNothing(w, step);
      SameViewWhenUntouched(w, Do(w, step));
    }
  }

  // What a join does to the world: one object changed, mapped under its room.
  lemma JoinShape(w: World, p: PeerId, room: RoomId, group: GroupId)
    requires Sound(w) && MapOk(w) && p < |w.tasks| && RoomsOk(View(w))
    requires room in w.mapped ==> room in View(w)
    ensures var t, o := DoJoin(w, p, room, group), Entry(w, room).1;
      && o < |t.objs| && |w.objs| <= |t.objs| && t.mapped == w.mapped[room := o]
      && (forall x :: 0 <= x < |w.objs| && x != o ==> t.objs[x] == w.objs[x])
      && t.objs[o].seats == Join(Find(View(w), room), Peer(p, w.tasks[p].user, group)).0
  {}

  lemma JoinIsAtomic(w: World, p: PeerId, room: RoomId, group: GroupId)
    requires Sound(w) && MapOk(w) && RoomsOk(View(w)) && MapOk(Do(w, JoinUnderGuard(p, room, group)))
    requires room in w.mapped - w.guards ==> room in View(w)
    ensures var step := JoinUnderGuard(p, room, group); View(Do(w, step)) == DoAtomic(View(w), AtomicOf(w, step))
  {
    if At(w, p, Looping) && w.tasks[p].room.None? && room !in w.guards {
      JoinShape(w, p, room, group);
      JoinSomebodyStays(Find(View(w), room), Peer(p, w.tasks[p].user, group));
      ViewOfPut(w, DoJoin(w, p, room, group), room);
    }
  }

  // A mapped room that no handler guards is in the view.
  lemma UnguardedIsSeen(w: World, room: RoomId)
    requires Inv(w)
    ensures room in w.mapped - w.guards ==> room in View(w)
  {
    if room in w.mapped { assert ObjOk(w, w.mapped[room]); }
  }

  lemma FreshResumeIsAtomic(w: World, p: PeerId)
    requires Sound(w) && MapOk(w) && RoomsOk(View(w)) && p < |w.tasks| && w.tasks[p].pc.Resuming?
    requires !Unmapped(w, w.tasks[p].pc.obj) && MapOk(DoResume(w, p))
    ensures var Resuming(o, seat, group) := w.tasks[p].pc;
      View(DoResume(w, p)) == ResumeAt(View(w), w.objs[o].room, seat, Peer(p, w.tasks[p].user, group)).0
  {
    ViewOfPut(w, DoResume(w, p), w.objs[w.tasks[p].pc.obj].room);
  }

  lemma ResumeIsAtomic(w: World, p: PeerId)
    requires Inv(w) && Sound(w) && RoomsOk(View(w)) && Inv(Do(w, LockToResume(p)))
    ensures View(Do(w, LockToResume(p))) == DoAtomic(View(w), AtomicOf(w, LockToResume(p)))
  {
    if p < |w.tasks| && w.tasks[p].pc.Resuming? {
      var Resuming(o, seat, group) := w.tasks[p].pc;
      assert TaskOk(w, p);
      if Unmapped(w, o) {
        StaleDecidesNothing(w, o, seat);
      } else {
        FreshResumeIsAtomic(w, p);
      }
    }
  }

  lemma FreshMarkIsAtomic(w: World, p: PeerId)
    requires Sound(w) && MapOk(w) && RoomsOk(View(w)) && p < |w.tasks| && w.tasks[p].pc.GoingAway?
    requires !Unmapped(w, w.tasks[p].pc.obj) && MapOk(DoMark(w, p))
    ensures View(DoMark(w, p)) == MarkAbsentAt(View(w), w.objs[w.tasks[p].pc.obj].room, p).0
  {
    ViewOfPut(w, DoMark(w, p), w.objs[w.tasks[p].pc.obj].room);
  }

  lemma MarkIsAtomic(w: World, p: PeerId)
    requires Inv(w) && Sound(w) && RoomsOk(View(w)) && Inv(Do(w, LockToMark(p)))
    ensures View(Do(w, LockToMark(p))) == DoAtomic(View(w), AtomicOf(w, LockToMark(p)))
  {
    if p < |w.tasks| && w.tasks[p].pc.GoingAway? {
      var o := w.tasks[p].pc.obj;
      assert TaskOk(w, p);
      if Unmapped(w, o) {
        StaleDecidesNothing(w, o, p);
        StaleMarkIsAtomic(w, p);
      } else {
        FreshMarkIsAtomic(w, p);
      }
    }
  }

  lemma StaleMarkIsAtomic(w: World, p: PeerId)
    requires Sound(w) && MapOk(w) && RoomsOk(View(w)) && p < |w.tasks| && w.tasks[p].pc.GoingAway?
    requires var o := w.tasks[p].pc.obj;
      && w.objs[o].seats.list == []
      && (w.objs[o].room in w.mapped ==> !Holds(w.objs[w.mapped[w.objs[o].room]].seats, p))
    ensures MapOk(DoMark(w, p)) && View(DoMark(w, p)) == MarkAbsentAt(View(w), w.objs[w.tasks[p].pc.obj].room, p).0
  {
    SameViewWhenUntouched(w, DoMark(w, p));
  }

  lemma LeaveIsAtomic(w: World, p: PeerId)
    requires Sound(w) && MapOk(w) && RoomsOk(View(w)) && MapOk(Do(w, EndAndLeave(p)))
    requires forall r :: r in w.mapped - w.guards ==> r in View(w)
    ensures View(Do(w, EndAndLeave(p))) == DoAtomic(View(w), AtomicOf(w, EndAndLeave(p)))
  {
    if At(w, p, Looping) && Unguarded(w, p) {
      if w.tasks[p].room.Some? && w.tasks[p].room.value in w.mapped {
        ViewOfPut(w, DoLeave(w, p), w.tasks[p].room.value);
      } else {
        SameViewWhenUntouched(w, DoLeave(w, p));
      }
    }
  }

  lemma FireIsAtomic(w: World, timer: Timer)
    requires Sound(w) && MapOk(w) && RoomsOk(View(w)) && MapOk(Do(w, FireTimer(timer)))
    requires timer.room in w.mapped - w.guards ==> timer.room in View(w)
    ensures View(Do(w, FireTimer(timer))) == DoAtomic(View(w), AtomicOf(w, FireTimer(timer)))
  {
    if timer in w.timers && timer.room !in w.guards {
      if timer.room in w.mapped {
        ViewOfPut(w, DoFire(w, timer), timer.room);
      } else {
        SameViewWhenUntouched(w, DoFire(w, timer));
      }
    }
  }

  // ---------- Whole runs ----------

  // The atomic operations a run amounts to, one per step.
  ghost function AtomicsOf(steps: seq<Step>): (atomics: seq<Atomic>) {
    if steps == [] then []
    else
      var before := RunFrom(INIT, steps[..|steps| - 1]);
      InvIsSound(before);
      AtomicsOf(steps[..|steps| - 1]) + [AtomicOf(before, steps[|steps| - 1])]
  }

  // The room map after atomic operations that each keep it well formed.
  ghost predicate AtomicRun(atomics: seq<Atomic>, rooms: Rooms) {
    if atomics == [] then rooms == map[]
    else exists before :: AtomicRun(atomics[..|atomics| - 1], before) && RoomsOk(before) &&
                          rooms == DoAtomic(before, atomics[|atomics| - 1])
  }

  lemma AtomicRunMore(atomics: seq<Atomic>, a: Atomic, before: Rooms)
    requires AtomicRun(atomics, before) && RoomsOk(before)
    ensures AtomicRun(atomics + [a], DoAtomic(before, a))
  {
    assert (atomics + [a])[..|atomics|] == atomics;
  }

  lemma OneMoreStep(w: World, step: Step, atomics: seq<Atomic>)
    requires Inv(w) && Sound(w) && AtomicRun(atomics, View(w))
    ensures Inv(Do(w, step)) && AtomicRun(atomics + [AtomicOf(w, step)], View(Do(w, step)))
  {
    EveryStepIsAtomic(w, step);
    AtomicRunMore(atomics, AtomicOf(w, step), View(w));
  }

  /** Every run of the fine-grained system ends in the room map that a run of atomic handlers ends in:
      the same handlers, one for each step that locked a room. */
  lemma {:induction false} EveryRunIsAtomic(steps: seq<Step>)
    ensures AtomicRun(AtomicsOf(steps), View(RunFrom(INIT, steps)))
  {
    if steps != [] {
      var front := steps[..|steps| - 1];
      InvIsSound(RunFrom(INIT, front));
      EveryRunIsAtomic(front);
      OneMoreStep(RunFrom(INIT, front), steps[|steps| - 1], AtomicsOf(front));
    }
  }
}
