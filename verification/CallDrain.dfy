/**
  No handler of the call service waits for ever. What is left to do in a world is a number: each socket
  task, each grace timer and each guard counts for the steps it still has before it. Every step that goes
  on with something begun lowers it, while there is something left one such step is possible, and so every
  world runs down to rest, with no room mapped and no seat held.
*/
module CallDrain {
  import opened Options
  import opened Seating
  import opened RoomMap
  import opened CallSeats

  function TaskTodo(pc: Pc): (n: nat) {
    match pc
    case Resuming(_, _, _) => 7
    case Relaying(_, _) => 7
    case Looping => 6
    case GoingAway(_) => 4
    case Marked => 3
    case Ended => 0
  }

  function TasksTodo(tasks: seq<Task>): (n: nat) {
    if tasks == [] then 0 else TasksTodo(tasks[..|tasks| - 1]) + TaskTodo(tasks[|tasks| - 1].pc)
  }

  function Todo(w: World): (n: nat) {
    TasksTodo(w.tasks) + 2 * |w.timers| + |w.guards|
  }

  // The step goes on with what was begun, and nothing keeps it from doing so.
  predicate GoesOn(w: World, step: Step) {
    match step
    case LockToResume(p) => p < |w.tasks| && w.tasks[p].pc.Resuming?
    case LockToRelay(p) => p < |w.tasks| && w.tasks[p].pc.Relaying?
    case EndAndLeave(p) => At(w, p, Looping) && Unguarded(w, p)
    case EndAndFind(p) => At(w, p, Looping) && Unguarded(w, p)
    case LockToMark(p) => p < |w.tasks| && w.tasks[p].pc.GoingAway?
    case SpawnTimer(p) => At(w, p, Marked)
    case FireTimer(timer) => timer in w.timers && timer.room !in w.guards
    case AskEmpty(room) => room in w.guards
    case _ => false
  }

  lemma {:induction false} TodoOfUpdate(tasks: seq<Task>, p: nat, task: Task)
    requires p < |tasks|
    ensures TasksTodo(tasks[p := task]) == TasksTodo(tasks) - TaskTodo(tasks[p].pc) + TaskTodo(task.pc)
  {
    var n := |tasks| - 1;
    if p < n {
      assert tasks[p := task][..n] == tasks[..n][p := task];
      TodoOfUpdate(tasks[..n], p, task);
    } else {
      assert tasks[p := task][..n] == tasks[..n];
    }
  }

  lemma OneMoreGuard(guards: set<RoomId>, room: RoomId)
    ensures |guards + {room}| <= |guards| + 1
  {
    if room in guards { assert guards + {room} == guards; }
  }

  // What a step of a task leaves of the world, as far as what is left to do is concerned.
  lemma TaskMoves(w: World, t: World, p: PeerId, pc: Pc)
    requires p < |w.tasks| && |t.tasks| == |w.tasks| && t.tasks == w.tasks[p := t.tasks[p]] && t.tasks[p].pc == pc
    ensures Todo(t) == Todo(w) - TaskTodo(w.tasks[p].pc) + TaskTodo(pc) + 2 * (|t.timers| - |w.timers|) + |t.guards| - |w.guards|
  {
    TodoOfUpdate(w.tasks, p, t.tasks[p]);
  }

  lemma LockedGoesOn(w: World, p: PeerId)
    requires Sound(w) && p < |w.tasks|
    ensures w.tasks[p].pc.Resuming? ==> Todo(DoResume(w, p)) < Todo(w)
    ensures w.tasks[p].pc.Relaying? ==> Todo(SetPc(w, p, Looping)) < Todo(w)
    ensures w.tasks[p].pc.GoingAway? ==> Todo(DoMark(w, p)) < Todo(w)
  {
    if w.tasks[p].pc.Resuming? { TaskMoves(w, DoResume(w, p), p, Looping); }
    if w.tasks[p].pc.Relaying? { TaskMoves(w, SetPc(w, p, Looping), p, Looping); }
    if w.tasks[p].pc.GoingAway? { TaskMoves(w, DoMark(w, p), p, DoMark(w, p).tasks[p].pc); }
  }

  lemma LoopEnds(w: World, p: PeerId)
    requires Sound(w) && At(w, p, Looping) && Unguarded(w, p)
    ensures Todo(Do(w, EndAndLeave(p))) < Todo(w) && Todo(Do(w, EndAndFind(p))) < Todo(w)
  {
    TaskMoves(w, Do(w, EndAndLeave(p)), p, Ended);
    TaskMoves(w, Do(w, EndAndFind(p)), p, Do(w, EndAndFind(p)).tasks[p].pc);
    if w.tasks[p].room.Some? { OneMoreGuard(w.guards, w.tasks[p].room.value); }
  }

  lemma TimerGoesOn(w: World, timer: Timer)
    requires Sound(w) && timer in w.timers
    ensures Todo(DoFire(w, timer)) < Todo(w)
  {
    assert |w.timers - multiset{timer}| == |w.timers| - 1;
    OneMoreGuard(w.guards, timer.room);
  }

  lemma GuardGoesOn(w: World, room: RoomId)
    requires MapOk(w) && room in w.guards
    ensures room in w.mapped && Todo(DoAskEmpty(w, room)) < Todo(w)
  {
    assert |w.guards - {room}| == |w.guards| - 1;
  }

  /** Every step that goes on with something begun leaves less to do: in whatever order such steps come,
      there are at most as many of them as there was to do. */
  lemma EveryStepOnIsProgress(w: World, step: Step)
    requires Inv(w) && Sound(w) && GoesOn(w, step)
    ensures Todo(Do(w, step)) < Todo(w)
  {
    match step
    case LockToResume(p) => LockedGoesOn(w, p);
    case LockToRelay(p) => LockedGoesOn(w, p);
    case LockToMark(p) => LockedGoesOn(w, p);
    case EndAndLeave(p) => LoopEnds(w, p);
    case EndAndFind(p) => LoopEnds(w, p);
    case SpawnTimer(p) =>
      assert TaskOk(w, p);
      TaskMoves(w, Do(w, step), p, Ended);
    case FireTimer(timer) => TimerGoesOn(w, timer);
    case AskEmpty(room) => GuardGoesOn(w, room);
  }

  /** While a socket task has not ended, a timer has not fired or a handler is at work, some such step is
      possible. */
  lemma SomethingGoesOn(w: World) returns (step: Step)
    requires Inv(w) && !AtRest(w)
    ensures GoesOn(w, step)
  {
    if w.guards != {} {
      var room :| room in w.guards;
      return AskEmpty(room);
    }
    if p :| 0 <= p < |w.tasks| && !w.tasks[p].pc.Ended? {
      match w.tasks[p].pc
      case Looping => step := EndAndLeave(p);
      case Resuming(_, _, _) => step := LockToResume(p);
      case Relaying(_, _) => step := LockToRelay(p);
      case GoingAway(_) => step := LockToMark(p);
      case Marked => step := SpawnTimer(p);
    } else {
      assert |w.timers| > 0;
      var timer :| timer in w.timers;
      return FireTimer(timer);
    }
  }

  lemma RunFromLast(w: World, steps: seq<Step>, last: Step)
    requires Inv(w)
    ensures Sound(RunFrom(w, steps)) && RunFrom(w, steps + [last]) == Do(RunFrom(w, steps), last)
  {
    InvIsSound(RunFrom(w, steps));
    assert (steps + [last])[..|steps|] == steps;
  }

  lemma StepDown(w: World, done: seq<Step>, step: Step)
    requires Inv(w) && GoesOn(RunFrom(w, done), step)
    ensures Todo(RunFrom(w, done + [step])) < Todo(RunFrom(w, done))
  {
    RunFromLast(w, done, step);
    EveryStepOnIsProgress(RunFrom(w, done), step);
  }

  lemma {:induction false} RunsDownAfter(w: World, done: seq<Step>) returns (steps: seq<Step>)
    requires Inv(w)
    ensures AtRest(RunFrom(w, steps)) && |steps| <= |done| + Todo(RunFrom(w, done))
    decreases Todo(RunFrom(w, done))
  {
    if AtRest(RunFrom(w, done)) {
      steps := done;
    } else {
      var step := SomethingGoesOn(RunFrom(w, done));
      StepDown(w, done, step);
      steps := RunsDownAfter(w, done + [step]);
    }
  }

  /** So from every world there is a run to rest, where no room is mapped and nobody holds a seat. */
  lemma EveryWorldRunsDown(w: World) returns (steps: seq<Step>)
    requires Inv(w)
    ensures AtRest(RunFrom(w, steps)) && RunFrom(w, steps).mapped == map[] && |steps| <= Todo(w)
    ensures forall o :: 0 <= o < |RunFrom(w, steps).objs| ==> RunFrom(w, steps).objs[o].seats.list == []
  {
    steps := RunsDownAfter(w, []);
    RestIsEmpty(RunFrom(w, steps));
  }
}
