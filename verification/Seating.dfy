/**
  The seats of a peer-to-peer call: at most two, of two distinct users of one group, in arrival
  order. Each room operation is given in closed form on rooms of at most two seats, and the laws
  of the room are proved of these forms.
*/
module Seating {
  import opened Options

  // Identifiers are compared for equality and for nothing else.
  type PeerId = nat
  type UserId = nat
  type GroupId = nat

  datatype Peer = Peer(id: PeerId, user: UserId, group: GroupId)

  // A seat whose socket died without a Close frame is kept, absent, for its device to resume.
  datatype Seat = Seat(peer: Peer, present: bool)

  datatype Seats = Seats(list: seq<Seat>, pairedOnce: bool)

  datatype JoinOutcome =
    | Waiting(evicted: seq<Peer>)
    | Paired(initiator: Peer, evicted: seq<Peer>)
    | PartnerAway(evicted: seq<Peer>)
    | Full
    | OtherGroup

  datatype PartnerState =
    | Alone(wasPaired: bool)
    | Away
    | Present(partner: Peer, iAmInitiator: bool, resumed: bool)

  datatype ResumeOutcome = Unknown | Resumed(replaced: Option<Peer>, partner: PartnerState)

  // What one party relays to the other.
  datatype RelayedKind = Offer | Answer | Ice | IceRestartRequest | MicSuspended

  const EMPTY := Seats([], false)

  predicate BothPresent(s: Seats) {
    |s.list| == 2 && s.list[0].present && s.list[1].present
  }

  // The invariant of a room. The last clause ties the flag to the present moment; what it says
  // about the past is a theorem about runs.
  predicate Valid(s: Seats) {
    && |s.list| <= 2
    && (|s.list| == 2 ==>
          && s.list[0].peer.user != s.list[1].peer.user
          && s.list[0].peer.id != s.list[1].peer.id
          && s.list[0].peer.group == s.list[1].peer.group)
    && (BothPresent(s) ==> s.pairedOnce)
  }

  predicate Holds(s: Seats, id: PeerId) {
    exists i :: 0 <= i < |s.list| && s.list[i].peer.id == id
  }

  // A peer id embeds its user's id, so equal ids belong to one user.
  predicate IdNamesUser(s: Seats, peer: Peer) {
    forall i :: 0 <= i < |s.list| && s.list[i].peer.id == peer.id ==> s.list[i].peer.user == peer.user
  }

  // ---------- Closed forms on rooms of at most two seats ----------

  function Kept(list: seq<Seat>, user: UserId): (r: seq<Seat>)
    requires |list| <= 2
  {
    (if |list| > 0 && list[0].peer.user != user then [list[0]] else [])
    + (if |list| > 1 && list[1].peer.user != user then [list[1]] else [])
  }

  function Evicted(list: seq<Seat>, user: UserId): (r: seq<Peer>)
    requires |list| <= 2
  {
    (if |list| > 0 && list[0].peer.user == user then [list[0].peer] else [])
    + (if |list| > 1 && list[1].peer.user == user then [list[1].peer] else [])
  }

  function Join(s: Seats, peer: Peer): (r: (Seats, JoinOutcome))
    requires Valid(s)
  {
    if |s.list| > 0 && s.list[0].peer.group != peer.group then (s, OtherGroup)
    else
      var kept := Kept(s.list, peer.user);
      var evicted := Evicted(s.list, peer.user);
      if |kept| == 2 then (s, Full)
      else if |kept| == 0 then (Seats([Seat(peer, true)], s.pairedOnce), Waiting(evicted))
      else if kept[0].present then
        (Seats([kept[0], Seat(peer, true)], true), Paired(kept[0].peer, evicted))
      else (Seats([kept[0], Seat(peer, true)], s.pairedOnce), PartnerAway(evicted))
  }

  // The index of the seat `id` of this user and group, or the length of the list.
  function SeatIndex(s: Seats, id: PeerId, peer: Peer): (i: nat)
    requires Valid(s)
    ensures i <= |s.list|
    ensures i < |s.list| ==> s.list[i].peer == Peer(id, peer.user, peer.group)
    ensures i == |s.list| ==> forall j :: 0 <= j < |s.list| ==> s.list[j].peer != Peer(id, peer.user, peer.group)
  {
    var wanted := Peer(id, peer.user, peer.group);
    if |s.list| > 0 && s.list[0].peer == wanted then 0
    else if |s.list| > 1 && s.list[1].peer == wanted then 1
    else |s.list|
  }

  function Resume(s: Seats, seat: PeerId, peer: Peer): (r: (Seats, ResumeOutcome))
    requires Valid(s)
  {
    var i := SeatIndex(s, seat, peer);
    if i == |s.list| then (s, Unknown)
    else
      var list := s.list[i := Seat(peer, true)];
      var replaced := if s.list[i].present then Some(s.list[i].peer) else None;
      if |list| == 1 then (Seats(list, s.pairedOnce), Resumed(replaced, Alone(s.pairedOnce)))
      else
        var other := list[1 - i];
        if !other.present then (Seats(list, s.pairedOnce), Resumed(replaced, Away))
        else (Seats(list, true), Resumed(replaced, Present(other.peer, i == 0, s.pairedOnce)))
  }

  // The present seat other than `id`, if there is one.
  function PresentOther(s: Seats, id: PeerId): (r: Option<Peer>)
    requires Valid(s)
  {
    if |s.list| > 0 && s.list[0].peer.id != id && s.list[0].present then Some(s.list[0].peer)
    else if |s.list| > 1 && s.list[1].peer.id != id && s.list[1].present then Some(s.list[1].peer)
    else None
  }

  // The index of the seat of `id` with that presence, or the length of the list.
  function IdIndex(s: Seats, id: PeerId, present: bool): (i: nat)
    requires Valid(s)
    ensures i <= |s.list|
    ensures i < |s.list| ==> s.list[i].peer.id == id && s.list[i].present == present
    ensures i == |s.list| ==> forall j :: 0 <= j < |s.list| && s.list[j].peer.id == id ==> s.list[j].present != present
  {
    if |s.list| > 0 && s.list[0].peer.id == id && s.list[0].present == present then 0
    else if |s.list| > 1 && s.list[1].peer.id == id && s.list[1].present == present then 1
    else |s.list|
  }

  function MarkAbsent(s: Seats, id: PeerId): (r: (Seats, Option<Option<Peer>>))
    requires Valid(s)
  {
    var i := IdIndex(s, id, true);
    if i == |s.list| then (s, None)
    else (Seats(s.list[i := s.list[i].(present := false)], s.pairedOnce), Some(PresentOther(s, id)))
  }

  function Expire(s: Seats, id: PeerId): (r: (Seats, Option<Option<Peer>>))
    requires Valid(s)
  {
    var i := IdIndex(s, id, false);
    if i == |s.list| then (s, None)
    else (Seats(s.list[..i] + s.list[i + 1..], s.pairedOnce), Some(PresentOther(s, id)))
  }

  function Leave(s: Seats, id: PeerId): (r: (Seats, Option<Peer>))
    requires Valid(s)
  {
    if !Holds(s, id) then (s, None)
    else if s.list[0].peer.id == id then (Seats(s.list[1..], s.pairedOnce), PresentOther(s, id))
    else (Seats(s.list[..1], s.pairedOnce), PresentOther(s, id))
  }

  function PartnerOf(s: Seats, id: PeerId): (r: Option<Peer>)
    requires Valid(s)
  {
    if Holds(s, id) then PresentOther(s, id) else None
  }

  // ---------- The laws of the room ----------

  lemma JoinKeepsValid(s: Seats, peer: Peer)
    requires Valid(s) && IdNamesUser(s, peer)
    ensures Valid(Join(s, peer).0)
  {
    forall i | 0 <= i < |s.list| ensures s.list[i].peer.id == peer.id ==> Holds(s, peer.id) {}
  }

  lemma ResumeKeepsValid(s: Seats, seat: PeerId, peer: Peer)
    requires Valid(s) && !Holds(s, peer.id)
    ensures Valid(Resume(s, seat, peer).0)
  {
    forall i | 0 <= i < |s.list| ensures s.list[i].peer.id != peer.id {}
  }

  lemma EndingsKeepValid(s: Seats, id: PeerId)
    requires Valid(s)
    ensures Valid(MarkAbsent(s, id).0) && Valid(Expire(s, id).0) && Valid(Leave(s, id).0)
  {
    if |s.list| == 2 { assert s.list[1..] == [s.list[1]] && s.list[..1] == [s.list[0]]; }
  }

  /** Every operation keeps the invariant: at most two seats, distinct users, one group. */
  lemma OperationsKeepValid(s: Seats, peer: Peer, id: PeerId)
    requires Valid(s) && IdNamesUser(s, peer)
    ensures Valid(Join(s, peer).0)
    ensures !Holds(s, peer.id) ==> Valid(Resume(s, id, peer).0)
    ensures Valid(MarkAbsent(s, id).0)
    ensures Valid(Expire(s, id).0)
    ensures Valid(Leave(s, id).0)
  {
    JoinKeepsValid(s, peer);
    if !Holds(s, peer.id) { ResumeKeepsValid(s, id, peer); }
    EndingsKeepValid(s, id);
  }

  /** A join is refused exactly when the room holds another group, or two users other than the
      joiner; a refused join leaves the room as it was. */
  lemma JoinAdmission(s: Seats, peer: Peer)
    requires Valid(s)
    ensures var (t, o) := Join(s, peer);
      var othersGroup := exists i :: 0 <= i < |s.list| && s.list[i].peer.group != peer.group;
      var twoOthers := |s.list| == 2 && s.list[0].peer.user != peer.user && s.list[1].peer.user != peer.user;
      && (o.OtherGroup? <==> othersGroup)
      && (o.Full? <==> !othersGroup && twoOthers)
      && (o.OtherGroup? || o.Full? ==> t == s)
  {
    if |s.list| > 0 && s.list[0].peer.group != peer.group {
      assert exists i :: 0 <= i < |s.list| && s.list[i].peer.group != peer.group;
    }
  }

  /** An admitted joiner sits last and present; before it, in order, the seats of other users, as
      they were; and the evicted are the seats of its own user. */
  lemma JoinReplacesSiblings(s: Seats, peer: Peer, x: Seat)
    requires Valid(s) && !Join(s, peer).1.OtherGroup? && !Join(s, peer).1.Full?
    ensures var (t, o) := Join(s, peer);
      && |t.list| > 0 && t.list[|t.list| - 1] == Seat(peer, true)
      && (x in t.list[..|t.list| - 1] <==> x in s.list && x.peer.user != peer.user)
      && (x in s.list && x.peer.user == peer.user ==> x.peer in o.evicted)
      && |t.list| - 1 + |o.evicted| == |s.list|
  {
    var (t, o) := Join(s, peer);
    assert t.list[..|t.list| - 1] == Kept(s.list, peer.user);
  }

  /** A resume succeeds exactly on a seat of that id, user and group; it moves no seat, so every
      role is kept, and it leaves the other seat untouched. */
  lemma ResumeKeepsThePlace(s: Seats, seat: PeerId, peer: Peer, i: nat)
    requires Valid(s) && i < |s.list|
    ensures var (t, o) := Resume(s, seat, peer);
      && (o.Unknown? <==> forall j :: 0 <= j < |s.list| ==> s.list[j].peer != Peer(seat, peer.user, peer.group))
      && |t.list| == |s.list|
      && t.list[i].peer.user == s.list[i].peer.user
      && t.list[i].peer.group == s.list[i].peer.group
      && (t.list[i] != s.list[i] ==> t.list[i] == Seat(peer, true) && s.list[i].peer.id == seat)
      && (o.Unknown? ==> t == s)
  {
    var k := SeatIndex(s, seat, peer);
    if k < |s.list| { assert s.list[k].peer == Peer(seat, peer.user, peer.group); }
  }

  /** The seat a resume names becomes the newcomer's, present, in its place and alone of them all. The peer
      it was held by is answered exactly when it was still present, and the partner as it stands: nobody,
      with what the room remembers; away; or present, with the roles and the past. */
  lemma AResumeGivesTheSeatBack(s: Seats, seat: PeerId, peer: Peer, i: nat)
    requires Valid(s) && i < |s.list| && s.list[i].peer == Peer(seat, peer.user, peer.group)
    ensures var (t, o) := Resume(s, seat, peer);
      && t.list == s.list[i := Seat(peer, true)]
      && o.Resumed?
      && (o.replaced == Some(s.list[i].peer) <==> s.list[i].present) && (o.replaced.None? <==> !s.list[i].present)
      && (|s.list| == 1 ==> o.partner == Alone(s.pairedOnce))
      && (|s.list| == 2 && !s.list[1 - i].present ==> o.partner == Away)
      && (|s.list| == 2 && s.list[1 - i].present ==> o.partner == Present(s.list[1 - i].peer, i == 0, s.pairedOnce))
  {
    assert SeatIndex(s, seat, peer) == i;
  }

  /** An admitted joiner is answered by the seat of the other user: there is none, it is away, or it is
      present and the initiator. */
  lemma AJoinIsAnsweredByThePartner(s: Seats, peer: Peer, i: nat)
    requires Valid(s) && i < |s.list| && !Join(s, peer).1.OtherGroup? && !Join(s, peer).1.Full?
    ensures var o := Join(s, peer).1;
      && (o.Waiting? <==> forall j :: 0 <= j < |s.list| ==> s.list[j].peer.user == peer.user)
      && (s.list[i].peer.user != peer.user && s.list[i].present ==> o.Paired? && o.initiator == s.list[i].peer)
      && (s.list[i].peer.user != peer.user && !s.list[i].present ==> o.PartnerAway?)
  {}

  /** What an ending answers: for a lost socket and for an expiry, whether there was such a seat; for all
      three, the party left behind, if it is present. */
  lemma EndingsNameTheOther(s: Seats, id: PeerId, i: nat)
    requires Valid(s) && i < |s.list| && s.list[i].peer.id == id
    ensures var other := if |s.list| == 2 && s.list[1 - i].present then Some(s.list[1 - i].peer) else None;
      && MarkAbsent(s, id).1 == (if s.list[i].present then Some(other) else None)
      && Expire(s, id).1 == (if s.list[i].present then None else Some(other))
      && Leave(s, id).1 == other
  {
    assert Holds(s, id);
  }

  /** And nothing to anybody who holds no seat. */
  lemma EndingsOfNobody(s: Seats, id: PeerId)
    requires Valid(s) && !Holds(s, id)
    ensures MarkAbsent(s, id) == (s, None) && Expire(s, id) == (s, None) && Leave(s, id) == (s, None)
  {}

  /** An expiry frees nothing but the absent seat of that very id; a seat resumed meanwhile
      carries another id and is out of its reach. */
  lemma ExpireFreesOnlyThatAbsentSeat(s: Seats, id: PeerId, x: Seat)
    requires Valid(s) && x in s.list
    ensures x in Expire(s, id).0.list <==> !(x.peer.id == id && !x.present)
    ensures Expire(s, id).1.None? ==> Expire(s, id).0 == s
  {
    var i := IdIndex(s, id, false);
    if i < |s.list| {
      var t := s.list[..i] + s.list[i + 1..];
      if x != s.list[i] {
        var k :| 0 <= k < |s.list| && s.list[k] == x;
        assert t[if k < i then k else k - 1] == x;
      }
    }
  }

  /** A hangup frees the seat of that very id, present or absent, and no other. */
  lemma LeaveFreesOnlyThatSeat(s: Seats, id: PeerId, x: Seat)
    requires Valid(s)
    ensures x in Leave(s, id).0.list <==> x in s.list && x.peer.id != id
  {}

  /** A lost socket makes its own present seat absent, in place; every other seat is kept. */
  lemma MarkAbsentMovesNothing(s: Seats, id: PeerId, i: nat)
    requires Valid(s) && i < |s.list|
    ensures var (t, o) := MarkAbsent(s, id);
      && |t.list| == |s.list| && t.list[i].peer == s.list[i].peer
      && t.list[i].present == (s.list[i].present && s.list[i].peer.id != id)
      && (o.Some? <==> exists j :: 0 <= j < |s.list| && s.list[j] == Seat(s.list[j].peer, true) && s.list[j].peer.id == id)
      && (o.None? ==> t == s)
  {
    var k := IdIndex(s, id, true);
    if k < |s.list| { assert s.list[k] == Seat(s.list[k].peer, true); }
  }

  /** A relayed frame is addressed to the one other seat, present, of another user of the same
      group; and to nobody exactly when the sender is out, alone, or its partner is away. */
  lemma PartnerIsTheOtherPresentSeat(s: Seats, id: PeerId, q: Peer)
    requires Valid(s)
    ensures PartnerOf(s, id) == Some(q) <==>
      exists i :: 0 <= i < |s.list| && |s.list| == 2 && s.list[i].peer.id == id
                  && s.list[1 - i] == Seat(q, true)
    ensures PartnerOf(s, id) == Some(q) ==>
      exists i :: 0 <= i < |s.list| && s.list[i].peer.id == id
                  && q.id != id && q.user != s.list[i].peer.user && q.group == s.list[i].peer.group
  {
    if PartnerOf(s, id) == Some(q) {
      var i :| 0 <= i < |s.list| && s.list[i].peer.id == id;
      assert s.list[1 - i] == Seat(q, true);
    }
    if i :| 0 <= i < |s.list| && |s.list| == 2 && s.list[i].peer.id == id && s.list[1 - i] == Seat(q, true) {
      assert Holds(s, id);
    }
  }

  // One step of a room's life sets the flag exactly by leaving both parties present.
  predicate FlagStep(s: Seats, t: Seats) {
    t.pairedOnce <==> s.pairedOnce || BothPresent(t)
  }

  lemma OperationsStepTheFlag(s: Seats, peer: Peer, id: PeerId)
    requires Valid(s)
    ensures FlagStep(s, Join(s, peer).0)
    ensures FlagStep(s, Resume(s, id, peer).0)
    ensures FlagStep(s, MarkAbsent(s, id).0)
    ensures FlagStep(s, Expire(s, id).0)
    ensures FlagStep(s, Leave(s, id).0)
  {}
}
