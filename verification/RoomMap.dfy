/**
  The map of peer-to-peer rooms, and what each handler does to it as one atomic step. A room is
  created by the join that finds none, and removed by the expiry or hangup that empties it.
*/
module RoomMap {
  import opened Options
  import opened Seating

  type RoomId = nat
  type Rooms = map<RoomId, Seats>

  // Every mapped room is well formed and holds at least one seat.
  predicate RoomsOk(rooms: Rooms) {
    forall r :: r in rooms ==> Valid(rooms[r]) && rooms[r].list != []
  }

  function Find(rooms: Rooms, r: RoomId): (s: Seats) {
    if r in rooms then rooms[r] else EMPTY
  }

  function JoinAt(rooms: Rooms, r: RoomId, peer: Peer): (res: (Rooms, JoinOutcome))
    requires RoomsOk(rooms)
  {
    var (after, outcome) := Join(Find(rooms, r), peer);
    (rooms[r := after], outcome)
  }

  function ResumeAt(rooms: Rooms, r: RoomId, seat: PeerId, peer: Peer): (res: (Rooms, ResumeOutcome))
    requires RoomsOk(rooms)
  {
    if r !in rooms then (rooms, Unknown)
    else
      var (after, outcome) := Resume(rooms[r], seat, peer);
      (rooms[r := after], outcome)
  }

  function MarkAbsentAt(rooms: Rooms, r: RoomId, id: PeerId): (res: (Rooms, Option<Option<Peer>>))
    requires RoomsOk(rooms)
  {
    if r !in rooms then (rooms, None)
    else
      var (after, partner) := MarkAbsent(rooms[r], id);
      (rooms[r := after], partner)
  }

  // Removes the room when the operation emptied it.
  function Settle(rooms: Rooms, r: RoomId, after: Seats): (res: Rooms) {
    if after.list == [] then rooms - {r} else rooms[r := after]
  }

  function ExpireAt(rooms: Rooms, r: RoomId, id: PeerId): (res: (Rooms, Option<Option<Peer>>))
    requires RoomsOk(rooms)
  {
    if r !in rooms then (rooms, None)
    else
      var (after, partner) := Expire(rooms[r], id);
      (Settle(rooms, r, after), partner)
  }

  function LeaveAt(rooms: Rooms, r: RoomId, id: PeerId): (res: (Rooms, Option<Peer>))
    requires RoomsOk(rooms)
  {
    if r !in rooms then (rooms, None)
    else
      var (after, remaining) := Leave(rooms[r], id);
      (Settle(rooms, r, after), remaining)
  }

  function PartnerAt(rooms: Rooms, r: RoomId, id: PeerId): (res: Option<Peer>)
    requires RoomsOk(rooms)
  {
    if r in rooms then PartnerOf(rooms[r], id) else None
  }

  lemma SettledOk(rooms: Rooms, r: RoomId, s: Seats)
    requires RoomsOk(rooms) && Valid(s)
    ensures RoomsOk(Settle(rooms, r, s))
  {}

  lemma JoinSomebodyStays(s: Seats, peer: Peer)
    requires Valid(s)
    ensures Join(s, peer).0.list != []
  {}

  lemma ResumedAndMarkedStay(s: Seats, id: PeerId, peer: Peer)
    requires Valid(s)
    ensures |Resume(s, id, peer).0.list| == |s.list| == |MarkAbsent(s, id).0.list|
  {}

  /** No handler leaves an empty or ill-formed room in the map: a refused join never maps one, and
      the operation that frees the last seat removes its room. */
  lemma HandlersKeepRoomsOk(rooms: Rooms, r: RoomId, peer: Peer, id: PeerId)
    requires RoomsOk(rooms) && IdNamesUser(Find(rooms, r), peer)
    ensures RoomsOk(JoinAt(rooms, r, peer).0)
    ensures !Holds(Find(rooms, r), peer.id) ==> RoomsOk(ResumeAt(rooms, r, id, peer).0)
    ensures RoomsOk(MarkAbsentAt(rooms, r, id).0)
    ensures RoomsOk(ExpireAt(rooms, r, id).0)
    ensures RoomsOk(LeaveAt(rooms, r, id).0)
  {
    var s := Find(rooms, r);
    OperationsKeepValid(s, peer, id);
    JoinSomebodyStays(s, peer);
    SettledOk(rooms, r, Join(s, peer).0);
    if r in rooms {
      ResumedAndMarkedStay(s, id, peer);
      if !Holds(s, peer.id) { SettledOk(rooms, r, Resume(s, id, peer).0); }
      SettledOk(rooms, r, MarkAbsent(s, id).0);
      SettledOk(rooms, r, Expire(s, id).0);
      SettledOk(rooms, r, Leave(s, id).0);
    }
  }

  // A refusal leaves the map as it was.
  lemma RefusedJoinMapsNothing(rooms: Rooms, room: RoomId, peer: Peer)
    requires RoomsOk(rooms)
    ensures var (after, o) := JoinAt(rooms, room, peer); o.Full? || o.OtherGroup? ==> after == rooms
  {}

  lemma RefusedResumeMapsNothing(rooms: Rooms, room: RoomId, seat: PeerId, peer: Peer)
    requires RoomsOk(rooms)
    ensures var (after, o) := ResumeAt(rooms, room, seat, peer); o.Unknown? ==> after == rooms
  {}

  // ---------- The past of a room ----------

  // Whether `r`, without leaving the map since, held both parties present at some moment of the trace.
  ghost predicate HeldBothIn(trace: seq<Rooms>, r: RoomId) {
    exists k :: 0 <= k < |trace| && HeldBothFrom(trace, r, k)
  }

  ghost predicate HeldBothFrom(trace: seq<Rooms>, r: RoomId, k: nat)
    requires k < |trace|
  {
    && (forall j :: k <= j < |trace| ==> r in trace[j])
    && BothPresent(trace[k][r])
  }

  // One step of the map, as far as the flag of `r` is concerned.
  predicate FlagStepAt(before: Rooms, after: Rooms, r: RoomId) {
    r in after ==> FlagStep(Find(before, r), after[r])
  }

  lemma HandlersStepTheFlag(rooms: Rooms, at: RoomId, peer: Peer, id: PeerId, r: RoomId)
    requires RoomsOk(rooms)
    ensures FlagStepAt(rooms, rooms, r)
    ensures FlagStepAt(rooms, JoinAt(rooms, at, peer).0, r)
    ensures FlagStepAt(rooms, ResumeAt(rooms, at, id, peer).0, r)
    ensures FlagStepAt(rooms, MarkAbsentAt(rooms, at, id).0, r)
    ensures FlagStepAt(rooms, ExpireAt(rooms, at, id).0, r)
    ensures FlagStepAt(rooms, LeaveAt(rooms, at, id).0, r)
  {
    OperationsStepTheFlag(Find(rooms, at), peer, id);
  }

  /** Along any trace that starts with no room, the flag of a room is exactly its history: set iff
      the room held both parties present at some moment since it was last created. */
  lemma {:induction false} FlagIsHistory(trace: seq<Rooms>, r: RoomId)
    requires trace != [] && r !in trace[0]
    requires forall j :: 0 <= j < |trace| - 1 ==> FlagStepAt(trace[j], trace[j + 1], r)
    requires r in trace[|trace| - 1]
    ensures trace[|trace| - 1][r].pairedOnce <==> HeldBothIn(trace, r)
  {
    var n := |trace| - 1;
    var front := trace[..n];
    assert FlagStepAt(trace[n - 1], trace[n], r);
    if r in trace[n - 1] {
      FlagIsHistory(front, r);
      if k :| 0 <= k < |front| && HeldBothFrom(front, r, k) { assert HeldBothFrom(trace, r, k); }
    }
    if BothPresent(trace[n][r]) { assert HeldBothFrom(trace, r, n); }
    if k :| 0 <= k < n && HeldBothFrom(trace, r, k) {
      assert HeldBothFrom(front, r, k);
    }
  }
}
