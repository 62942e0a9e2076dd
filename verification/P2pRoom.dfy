/**
  The room as the source updates it: a mutable list of seats and the flag `pairedOnce`. Each
  method is proved against the closed form of its operation.
*/
module P2pRoom {
  import opened Options
  import opened Seating

  class Room {
    var seats: seq<Seat>
    var pairedOnce: bool

    function State(): (s: Seats)
      reads this
    {
      Seats(seats, pairedOnce)
    }

    constructor ()
      ensures State() == EMPTY && Valid(State())
    {
      seats, pairedOnce := [], false;
    }

    // Splits the seats by whether they belong to `user`: the seats kept, the peers evicted.
    method Retain(user: UserId) returns (kept: seq<Seat>, evicted: seq<Peer>)
      requires |seats| <= 2
      ensures kept == Kept(seats, user) && evicted == Evicted(seats, user)
    {
      kept, evicted := [], [];
      for i := 0 to |seats|
        invariant kept == Kept(seats[..i], user) && evicted == Evicted(seats[..i], user)
      {
        if seats[i].peer.user == user {
          evicted := evicted + [seats[i].peer];
        } else {
          kept := kept + [seats[i]];
        }
      }
      assert seats[..|seats|] == seats;
    }

    method Join(peer: Peer) returns (outcome: JoinOutcome)
      requires Valid(State()) && IdNamesUser(State(), peer)
      modifies this
      ensures (State(), outcome) == Seating.Join(old(State()), peer)
      ensures Valid(State())
    {
      JoinKeepsValid(State(), peer);
      for i := 0 to |seats|
        invariant forall j :: 0 <= j < i ==> seats[j].peer.group == peer.group
      {
        if seats[i].peer.group != peer.group { return OtherGroup; }
      }
      var kept, evicted := Retain(peer.user);
      if |kept| >= 2 { return Full; }
      seats := kept + [Seat(peer, true)];
      assert kept == [] ==> seats == [Seat(peer, true)];
      assert |kept| == 1 ==> seats == [kept[0], Seat(peer, true)];
      if |seats| < 2 { return Waiting(evicted); }
      if seats[0].present {
        pairedOnce := true;
        return Paired(seats[0].peer, evicted);
      }
      return PartnerAway(evicted);
    }

    method Resume(seat: PeerId, peer: Peer) returns (outcome: ResumeOutcome)
      requires Valid(State()) && !Holds(State(), peer.id)
      modifies this
      ensures (State(), outcome) == Seating.Resume(old(State()), seat, peer)
      ensures Valid(State())
    {
      ResumeKeepsValid(State(), seat, peer);
      var idx := 0;
      while idx < |seats| && seats[idx].peer != Peer(seat, peer.user, peer.group)
        invariant idx <= |seats|
        invariant forall j :: 0 <= j < idx ==> seats[j].peer != Peer(seat, peer.user, peer.group)
      {
        idx := idx + 1;
      }
      if idx == |seats| { return Unknown; }
      var stale := seats[idx];
      seats := seats[idx := Seat(peer, true)];
      var replaced := if stale.present then Some(stale.peer) else None;
      var k := 0;
      while k < |seats| && k == idx
        invariant k == 0 || (k == 1 && idx == 0)
      {
        k := k + 1;
      }
      if k == |seats| { return Resumed(replaced, Alone(pairedOnce)); }
      if !seats[k].present { return Resumed(replaced, Away); }
      var resumed := pairedOnce;
      pairedOnce := true;
      return Resumed(replaced, Present(seats[k].peer, idx == 0, resumed));
    }

    // The first present seat whose id is not `id`.
    method FindPresentOther(id: PeerId) returns (r: Option<Peer>)
      requires |seats| <= 2
      ensures IsFirstOther(r, seats, id)
    {
      for i := 0 to |seats|
        invariant forall j :: 0 <= j < i ==> !(seats[j].present && seats[j].peer.id != id)
      {
        if seats[i].present && seats[i].peer.id != id { return Some(seats[i].peer); }
      }
      return None;
    }

    method MarkAbsent(id: PeerId) returns (partner: Option<Option<Peer>>)
      requires Valid(State())
      modifies this
      ensures (State(), partner) == Seating.MarkAbsent(old(State()), id)
      ensures Valid(State()) && pairedOnce == old(pairedOnce)
    {
      var i := 0;
      while i < |seats| && !(seats[i].peer.id == id && seats[i].present)
        invariant i <= |seats|
        invariant forall j :: 0 <= j < i ==> !(seats[j].peer.id == id && seats[j].present)
      {
        i := i + 1;
      }
      if i == |seats| { return None; }
      ghost var before := State();
      assert i == IdIndex(before, id, true);
      seats := seats[i := seats[i].(present := false)];
      var other := FindPresentOther(id);
      AbsentHidesNoOther(before, i, id, seats, other);
      return Some(other);
    }

    method Expire(id: PeerId) returns (partner: Option<Option<Peer>>)
      requires Valid(State())
      modifies this
      ensures (State(), partner) == Seating.Expire(old(State()), id)
      ensures Valid(State()) && pairedOnce == old(pairedOnce)
    {
      var i := 0;
      while i < |seats| && !(seats[i].peer.id == id && !seats[i].present)
        invariant i <= |seats|
        invariant forall j :: 0 <= j < i ==> !(seats[j].peer.id == id && !seats[j].present)
      {
        i := i + 1;
      }
      if i == |seats| { return None; }
      ghost var before := State();
      seats := seats[..i] + seats[i + 1..];
      assert |seats| == 1 ==> seats[0] == before.list[1 - i];
      if |seats| > 0 && seats[0].present { return Some(Some(seats[0].peer)); }
      return Some(None);
    }

    method Leave(id: PeerId) returns (remaining: Option<Peer>)
      requires Valid(State())
      modifies this
      ensures (State(), remaining) == Seating.Leave(old(State()), id)
      ensures Valid(State()) && pairedOnce == old(pairedOnce)
    {
      ghost var before := State();
      var kept := [];
      for i := 0 to |seats|
        invariant kept == KeptIds(seats[..i], id)
      {
        if seats[i].peer.id != id { kept := kept + [seats[i]]; }
      }
      assert seats[..|seats|] == seats;
      LeftIs(before, id);
      var was := |seats|;
      seats := kept;
      if |seats| == was { return None; }
      if |seats| > 0 && seats[0].present { return Some(seats[0].peer); }
      return None;
    }

    method PartnerOf(id: PeerId) returns (partner: Option<Peer>)
      requires Valid(State())
      ensures partner == Seating.PartnerOf(State(), id)
    {
      var seated := false;
      for i := 0 to |seats|
        invariant seated <==> exists j :: 0 <= j < i && seats[j].peer.id == id
      {
        if seats[i].peer.id == id { seated := true; }
      }
      if !seated { return None; }
      partner := FindPresentOther(id);
      FirstOtherIs(State(), id, partner);
    }
  }

  // `r` is the first present seat whose id is not `id`.
  ghost predicate IsFirstOther(r: Option<Peer>, list: seq<Seat>, id: PeerId) {
    match r
    case None => forall j :: 0 <= j < |list| ==> !(list[j].present && list[j].peer.id != id)
    case Some(peer) =>
      exists i :: 0 <= i < |list| && list[i] == Seat(peer, true) && peer.id != id &&
                  forall j :: 0 <= j < i ==> !(list[j].present && list[j].peer.id != id)
  }

  lemma FirstOtherIs(s: Seats, id: PeerId, r: Option<Peer>)
    requires Valid(s) && IsFirstOther(r, s.list, id)
    ensures r == PresentOther(s, id)
  {}

  // Marking the seat of `id` hides no other seat.
  lemma AbsentHidesNoOther(s: Seats, i: nat, id: PeerId, list: seq<Seat>, r: Option<Peer>)
    requires Valid(s) && i < |s.list| && s.list[i].peer.id == id
    requires list == s.list[i := s.list[i].(present := false)] && IsFirstOther(r, list, id)
    ensures r == PresentOther(s, id)
  {
    assert forall j :: 0 <= j < |list| ==>
      (list[j].present && list[j].peer.id != id <==> s.list[j].present && s.list[j].peer.id != id);
    assert forall j :: 0 <= j < |list| && j != i ==> list[j] == s.list[j];
    FirstOtherIs(s, id, r);
  }

  lemma FirstOfRest(s: Seats, id: PeerId)
    requires Valid(s) && |KeptIds(s.list, id)| < |s.list|
    ensures var kept := KeptIds(s.list, id);
      PresentOther(s, id) == if kept != [] && kept[0].present then Some(kept[0].peer) else None
  {}

  // A hangup in those terms.
  lemma LeftIs(s: Seats, id: PeerId)
    requires Valid(s)
    ensures var kept := KeptIds(s.list, id);
      && (|kept| == |s.list| ==> kept == s.list && Leave(s, id) == (s, None))
      && (|kept| < |s.list| ==>
            Leave(s, id) == (Seats(kept, s.pairedOnce), if kept != [] && kept[0].present then Some(kept[0].peer) else None))
  {
    var kept := KeptIds(s.list, id);
    if |kept| == |s.list| {
      assert kept == s.list && !Holds(s, id);
    } else {
      assert Holds(s, id);
      assert kept == if s.list[0].peer.id == id then s.list[1..] else s.list[..1];
      FirstOfRest(s, id);
    }
  }

  // What a hangup of `id` leaves, whatever else the room holds.
  function KeptIds(list: seq<Seat>, id: PeerId): (r: seq<Seat>)
    requires |list| <= 2
  {
    (if |list| > 0 && list[0].peer.id != id then [list[0]] else [])
    + (if |list| > 1 && list[1].peer.id != id then [list[1]] else [])
  }
}
