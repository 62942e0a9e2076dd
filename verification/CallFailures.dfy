/**
  The ledger's column of candidates that went nowhere: it counts exactly those a seated party sent while
  its partner held no seat or was away.
*/
module CallFailures {
  import opened Counters
  import opened Options
  import opened Seating
  import opened RoomMap
  import opened CallService
  import opened CallFrames
  import opened CallRelay

  // Socket `p`, seated, sends a candidate and nobody is there to take it.
  predicate GoesNowhere(s: Service, e: Event, p: PeerId) {
    && e == RelayFrame(p, Ice) && p < |s.sockets| && s.sockets[p].open && SeatOf(RoomOf(s, p), p).Some?
    && !(OtherSeat(RoomOf(s, p), p).Some? && OtherSeat(RoomOf(s, p), p).value.present)
  }

  ghost function WentNowhere(es: seq<Event>, p: PeerId): (n: nat) {
    if es == [] then 0
    else
      var front := es[..|es| - 1];
      WentNowhere(front, p) + if GoesNowhere(Run(front), es[|es| - 1], p) then 1 else 0
  }

  function FailedOf(s: Service, p: PeerId): (n: nat) {
    if p < |s.sockets| then s.sockets[p].ledger.iceInFailed else 0
  }

  lemma QuietEvents(s: Service, e: Event)
    requires Inv(s) && !e.RelayFrame? && !e.Connect?
    ensures RoomsOk(s.rooms) && SameLedgers(s.sockets, Apply(s, e).sockets)
  {
    match e
    case JoinFrame(p, room, group) =>
      if MayJoin(s, p) {
        JoinSameLedgers(s.sockets, p, Session(room, group), JoinAt(s.rooms, room, Peer(p, s.sockets[p].user, group)).1);
      }
    case ResumeFrame(p, room, group, seat) =>
      if MayJoin(s, p) {
        ResumeSameLedgers(s.sockets, p, Session(room, group),
                          ResumeAt(s.rooms, room, seat, Peer(p, s.sockets[p].user, group)).1);
      }
    case SocketEnds(p, cause) => EndSameLedgers(s, p, cause);
    case GraceEnds(_, _) =>
  }

  lemma CountLeavesFailures(sockets: seq<Socket>, kind: RelayedKind, from: PeerId, to: PeerId, q: PeerId)
    requires from < |sockets| && to < |sockets| && q < |sockets|
    ensures Count(sockets, kind, from, to)[q].ledger.iceInFailed == sockets[q].ledger.iceInFailed
  {}

  lemma RelayCounts(s: Service, p: PeerId, kind: RelayedKind, q: PeerId)
    requires Inv(s) && p < |s.sockets| && s.sockets[p].open && s.sockets[p].session.Some? && q < |s.sockets|
    ensures RoomsOk(s.rooms)
    ensures var t := HandleRelay(s, p, kind);
      |t.sockets| == |s.sockets| &&
      FailedOf(t, q) == if GoesNowhere(s, RelayFrame(p, kind), q) then Bump(FailedOf(s, q)) else FailedOf(s, q)
  {
    var seats := RoomOf(s, p);
    RoomsAreOpen(s, s.sockets[p].session.value.room);
    PartnerAtIs(s, p);
    var partner := PartnerOf(seats, p);
    if partner.Some? {
      OtherIsPartner(seats, p, partner.value.id);
      CountLeavesFailures(Deliver(s.sockets, partner.value.id, Relayed(kind, p)), kind, p, partner.value.id, q);
    } else {
      if OtherSeat(seats, p).Some? { OtherIsPartner(seats, p, OtherSeat(seats, p).value.peer.id); }
      OtherIsPartner(seats, p, p);
    }
  }

  lemma EventCounts(s: Service, e: Event, q: PeerId)
    requires Inv(s)
    ensures FailedOf(Apply(s, e), q) == if GoesNowhere(s, e, q) then Bump(FailedOf(s, q)) else FailedOf(s, q)
  {
    if e.RelayFrame? {
      var p := e.p;
      if p < |s.sockets| && s.sockets[p].open && s.sockets[p].session.Some? && q < |s.sockets| {
        RelayCounts(s, p, e.kind, q);
      }
      NobodyElseConnects(s, e);
    } else if !e.Connect? {
      QuietEvents(s, e);
    }
  }

  // `failed` is `n`, as a counter says it.
  predicate Reads(failed: nat, n: nat) {
    failed == n % WORD
  }

  lemma ReadsOn(failed: nat, n: nat, one: bool)
    requires Reads(failed, n)
    ensures Reads(if one then Bump(failed) else failed, n + if one then 1 else 0)
  {
    RemainderPlusOne(n);
  }

  /** In every run a record counts as failed exactly the candidates its socket sent while seated and with
      nobody present to take them, modulo 32 bits. */
  lemma {:induction false} FailuresAreWhatWentNowhere(es: seq<Event>, p: PeerId)
    ensures Reads(FailedOf(Run(es), p), WentNowhere(es, p))
  {
    if es != [] {
      var front, last := es[..|es| - 1], es[|es| - 1];
      FailuresAreWhatWentNowhere(front, p);
      OneMoreCounts(Run(front), last, Run(es), p, WentNowhere(front, p), WentNowhere(es, p));
    }
  }

  lemma OneMoreCounts(s: Service, e: Event, t: Service, p: PeerId, n: nat, m: nat)
    requires Inv(s) && t == Apply(s, e) && m == n + (if GoesNowhere(s, e, p) then 1 else 0) && Reads(FailedOf(s, p), n)
    ensures Reads(FailedOf(t, p), m)
  {
    EventCounts(s, e, p);
    ReadsOn(FailedOf(s, p), n, GoesNowhere(s, e, p));
  }
}
