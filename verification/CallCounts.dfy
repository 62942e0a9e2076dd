/**
  The ledger tells the truth: what a socket's record counts as passed to it is, offer by offer, answer by
  answer and candidate by candidate, what was relayed into its inbox; and what it counts as sent is what
  the inboxes of all sockets hold of it.
*/
module CallCounts {
  import opened Counters
  import opened Options
  import opened Seating
  import opened RoomMap
  import opened CallService

  // The relayed frames of a kind, from one sender or from any.
  datatype Query = Query(kind: RelayedKind, sender: Option<PeerId>)

  predicate Matches(f: Frame, what: Query) {
    f.Relayed? && f.kind == what.kind && (what.sender.Some? ==> f.from == what.sender.value)
  }

  // How many of them an inbox holds.
  function Heard(inbox: seq<Frame>, what: Query): (n: nat) {
    if inbox == [] then 0
    else Heard(inbox[..|inbox| - 1], what) + if Matches(inbox[|inbox| - 1], what) then 1 else 0
  }

  lemma HeardSnoc(inbox: seq<Frame>, f: Frame, what: Query)
    ensures Heard(inbox + [f], what) == Heard(inbox, what) + if Matches(f, what) then 1 else 0
  {
    assert (inbox + [f])[..|inbox|] == inbox;
  }

  // The ledger's count of the frames of a kind passed to its socket; only three kinds are counted.
  predicate Counted(kind: RelayedKind) {
    kind.Offer? || kind.Answer? || kind.Ice?
  }

  function OutOf(l: Ledger, kind: RelayedKind): (n: nat)
    requires Counted(kind)
  {
    match kind
    case Offer => l.offersOut
    case Answer => l.answersOut
    case Ice => l.iceOut
  }

  ghost predicate Truthful(socket: Socket, kind: RelayedKind)
    requires Counted(kind)
  {
    OutOf(socket.ledger, kind) == Heard(socket.inbox, Query(kind, None)) % WORD
  }

  // ---------- What is not a relay counts nothing ----------

  // The ledger and the relayed frames of a socket are as they were.
  ghost predicate Same(a: Socket, b: Socket, what: Query) {
    b.ledger == a.ledger && Heard(b.inbox, what) == Heard(a.inbox, what)
  }

  ghost predicate Quiet(a: seq<Socket>, b: seq<Socket>, what: Query) {
    |a| == |b| && forall q :: 0 <= q < |a| ==> Same(a[q], b[q], what)
  }

  lemma QuietChains(a: seq<Socket>, b: seq<Socket>, c: seq<Socket>, what: Query)
    requires Quiet(a, b, what) && Quiet(b, c, what)
    ensures Quiet(a, c, what)
  {}

  lemma DeliverQuiet(sockets: seq<Socket>, p: PeerId, f: Frame, what: Query)
    requires !f.Relayed?
    ensures Quiet(sockets, Deliver(sockets, p, f), what)
  {
    if p < |sockets| { HeardSnoc(sockets[p].inbox, f, what); }
  }

  lemma DeliverToQuiet(sockets: seq<Socket>, to: Option<Peer>, f: Frame, what: Query)
    requires !f.Relayed?
    ensures Quiet(sockets, DeliverTo(sockets, to, f), what)
  {
    if to.Some? { DeliverQuiet(sockets, to.value.id, f, what); }
  }

  lemma EndThenDeliverQuiet(sockets: seq<Socket>, p: PeerId, why: Disposition, f: Frame, what: Query)
    requires !f.Relayed?
    ensures Quiet(sockets, Deliver(End(sockets, p, why), p, f), what)
  {
    DeliverQuiet(End(sockets, p, why), p, f, what);
    QuietChains(sockets, End(sockets, p, why), Deliver(End(sockets, p, why), p, f), what);
  }

  lemma {:induction false} EvictQuiet(sockets: seq<Socket>, evicted: seq<Peer>, what: Query)
    ensures Quiet(sockets, Evict(sockets, evicted), what)
    decreases |evicted|
  {
    if evicted != [] {
      var id := evicted[0].id;
      var first := Deliver(End(sockets, id, SiblingEvicted), id, PeerLeft);
      EndThenDeliverQuiet(sockets, id, SiblingEvicted, PeerLeft, what);
      EvictQuiet(first, evicted[1..], what);
      QuietChains(sockets, first, Evict(first, evicted[1..]), what);
    }
  }

  lemma AnnounceQuiet(sockets: seq<Socket>, a: PeerId, b: PeerId, resumed: bool, what: Query)
    ensures Quiet(sockets, AnnouncePair(sockets, a, b, resumed), what)
  {
    var first := Deliver(sockets, a, PeerReady(true, resumed));
    DeliverQuiet(sockets, a, PeerReady(true, resumed), what);
    DeliverQuiet(first, b, PeerReady(false, resumed), what);
    QuietChains(sockets, first, AnnouncePair(sockets, a, b, resumed), what);
  }

  // A session that begins, with whoever it displaces told, and its joiner seated.
  lemma SeatedQuiet(sockets: seq<Socket>, p: PeerId, session: Session, displaced: seq<Socket>, what: Query)
    requires p < |sockets| && Quiet(Begin(sockets, p, session), displaced, what)
    ensures Quiet(sockets, Deliver(displaced, p, Joined(p)), what)
  {
    var begun := Begin(sockets, p, session);
    assert Quiet(sockets, begun, what);
    QuietChains(sockets, begun, displaced, what);
    DeliverQuiet(displaced, p, Joined(p), what);
    QuietChains(sockets, displaced, Deliver(displaced, p, Joined(p)), what);
  }

  lemma JoinQuiet(sockets: seq<Socket>, p: PeerId, session: Session, o: JoinOutcome, what: Query)
    requires p < |sockets|
    ensures Quiet(sockets, JoinSends(sockets, p, session, o), what)
  {
    if o.Full? || o.OtherGroup? {
      DeliverQuiet(sockets, p, Refused, what);
    } else {
      var evicted := Evict(Begin(sockets, p, session), o.evicted);
      EvictQuiet(Begin(sockets, p, session), o.evicted, what);
      SeatedQuiet(sockets, p, session, evicted, what);
      var seated := Deliver(evicted, p, Joined(p));
      DeliverQuiet(seated, p, PeerAway, what);
      if o.Paired? { AnnounceQuiet(seated, o.initiator.id, p, false, what); }
      QuietChains(sockets, seated, JoinSends(sockets, p, session, o), what);
    }
  }

  lemma TellQuiet(sockets: seq<Socket>, p: PeerId, o: PartnerState, what: Query)
    ensures Quiet(sockets, TellPartner(sockets, p, o), what)
  {
    match o
    case Alone(_) => DeliverQuiet(sockets, p, PeerLeft, what);
    case Away => DeliverQuiet(sockets, p, PeerAway, what);
    case Present(partner, _, resumed) =>
      AnnounceQuiet(sockets, p, partner.id, resumed, what);
      AnnounceQuiet(sockets, partner.id, p, resumed, what);
  }

  lemma ResumeQuiet(sockets: seq<Socket>, p: PeerId, session: Session, o: ResumeOutcome, what: Query)
    requires p < |sockets|
    ensures Quiet(sockets, ResumeSends(sockets, p, session, o), what)
  {
    if o.Unknown? {
      DeliverQuiet(sockets, p, Refused, what);
    } else {
      var begun := Begin(sockets, p, session);
      if o.replaced.Some? { EndThenDeliverQuiet(begun, o.replaced.value.id, ResumedElsewhere, Shutdown, what); }
      SeatedQuiet(sockets, p, session, Replace(begun, o.replaced), what);
      var seated := Deliver(Replace(begun, o.replaced), p, Joined(p));
      TellQuiet(seated, p, o.partner, what);
      QuietChains(sockets, seated, TellPartner(seated, p, o.partner), what);
    }
  }

  lemma EndQuiet(s: Service, p: PeerId, cause: Disposition, what: Query)
    requires RoomsOk(s.rooms) && p < |s.sockets|
    ensures Quiet(s.sockets, HandleEnd(s, p, cause).sockets, what)
  {
    var ended := End(s.sockets[p := s.sockets[p].(open := false)], p, cause);
    assert Quiet(s.sockets, ended, what);
    forall to, f: Frame | !f.Relayed? ensures Quiet(s.sockets, DeliverTo(ended, to, f), what) {
      DeliverToQuiet(ended, to, f, what);
      QuietChains(s.sockets, ended, DeliverTo(ended, to, f), what);
    }
  }

  lemma GraceQuiet(s: Service, room: RoomId, p: PeerId, what: Query)
    requires RoomsOk(s.rooms)
    ensures Quiet(s.sockets, HandleGraceEnd(s, room, p).sockets, what)
  {
    var partner := ExpireAt(s.rooms, room, p).1;
    if partner.Some? { DeliverToQuiet(s.sockets, partner.value, PeerLeft, what); }
  }

  // ---------- Every event keeps the count true ----------

  ghost predicate AllTruthful(sockets: seq<Socket>, kind: RelayedKind)
    requires Counted(kind)
  {
    forall q :: 0 <= q < |sockets| ==> Truthful(sockets[q], kind)
  }

  lemma QuietIsTruthful(a: seq<Socket>, b: seq<Socket>, kind: RelayedKind)
    requires Counted(kind) && AllTruthful(a, kind) && Quiet(a, b, Query(kind, None))
    ensures AllTruthful(b, kind)
  {
    forall q | 0 <= q < |b| ensures Truthful(b[q], kind) { assert Same(a[q], b[q], Query(kind, None)); }
  }

  // A frame heard and counted at its receiver.
  lemma HeardAndCounted(before: Socket, after: Socket, relayed: RelayedKind, from: PeerId, kind: RelayedKind)
    requires Counted(kind) && Truthful(before, kind) && after.inbox == before.inbox + [Relayed(relayed, from)]
    requires var was := OutOf(before.ledger, kind); OutOf(after.ledger, kind) == if relayed == kind then Bump(was) else was
    ensures Truthful(after, kind)
  {
    HeardSnoc(before.inbox, Relayed(relayed, from), Query(kind, None));
  }

  lemma CountedOut(sockets: seq<Socket>, relayed: RelayedKind, from: PeerId, to: PeerId, q: PeerId, kind: RelayedKind)
    requires Counted(kind) && from < |sockets| && to < |sockets| && q < |sockets|
    ensures var was, after := sockets[q], Count(sockets, relayed, from, to)[q];
      && after.inbox == was.inbox
      && var n := OutOf(was.ledger, kind); OutOf(after.ledger, kind) == if q == to && relayed == kind then Bump(n) else n
  {}

  lemma PassedIsTruthful(sockets: seq<Socket>, relayed: RelayedKind, p: PeerId, to: PeerId, kind: RelayedKind)
    requires Counted(kind) && AllTruthful(sockets, kind) && p < |sockets| && to < |sockets| && sockets[to].open
    ensures AllTruthful(Count(Deliver(sockets, to, Relayed(relayed, p)), relayed, p, to), kind)
  {
    var heard := Deliver(sockets, to, Relayed(relayed, p));
    var counted := Count(heard, relayed, p, to);
    forall q | 0 <= q < |counted| ensures Truthful(counted[q], kind) {
      assert Truthful(sockets[q], kind);
      CountedOut(heard, relayed, p, to, q, kind);
      if q == to { HeardAndCounted(sockets[q], counted[q], relayed, p, kind); }
    }
  }

  lemma RelayIsTruthful(s: Service, p: PeerId, relayed: RelayedKind, kind: RelayedKind)
    requires Counted(kind) && RoomsOk(s.rooms) && p < |s.sockets| && s.sockets[p].session.Some?
    requires AllTruthful(s.sockets, kind)
    ensures AllTruthful(HandleRelay(s, p, relayed).sockets, kind)
  {
    var partner := PartnerAt(s.rooms, s.sockets[p].session.value.room, p);
    if partner.Some? && partner.value.id < |s.sockets| && s.sockets[partner.value.id].open {
      PassedIsTruthful(s.sockets, relayed, p, partner.value.id, kind);
    }
  }

  // Every event but a connection and a relay is quiet.
  lemma ApplyQuiet(s: Service, e: Event, what: Query)
    requires RoomsOk(s.rooms) && !e.Connect? && !e.RelayFrame?
    ensures Quiet(s.sockets, Apply(s, e).sockets, what)
  {
    match e
    case JoinFrame(p, room, group) =>
      if MayJoin(s, p) {
        JoinQuiet(s.sockets, p, Session(room, group), JoinAt(s.rooms, room, Peer(p, s.sockets[p].user, group)).1, what);
      }
    case ResumeFrame(p, room, group, seat) =>
      if MayJoin(s, p) {
        ResumeQuiet(s.sockets, p, Session(room, group),
                    ResumeAt(s.rooms, room, seat, Peer(p, s.sockets[p].user, group)).1, what);
      }
    case SocketEnds(p, cause) => if p < |s.sockets| && s.sockets[p].open { EndQuiet(s, p, cause, what); }
    case GraceEnds(room, p) => GraceQuiet(s, room, p, what);
  }

  lemma ApplyIsTruthful(s: Service, e: Event, kind: RelayedKind)
    requires Counted(kind) && RoomsOk(s.rooms) && AllTruthful(s.sockets, kind)
    ensures AllTruthful(Apply(s, e).sockets, kind)
  {
    match e
    case Connect(_) =>
    case RelayFrame(p, relayed) =>
      if p < |s.sockets| && s.sockets[p].open && s.sockets[p].session.Some? { RelayIsTruthful(s, p, relayed, kind); }
    case _ =>
      ApplyQuiet(s, e, Query(kind, None));
      QuietIsTruthful(s.sockets, Apply(s, e).sockets, kind);
  }

  /** In every run each socket's record counts out, of offers, answers and candidates, exactly the
      frames of that kind in its inbox, modulo the 32 bits of the counter. */
  lemma {:induction false} OutCountersAreTheFrames(es: seq<Event>, kind: RelayedKind)
    requires Counted(kind)
    ensures AllTruthful(Run(es).sockets, kind)
  {
    if es != [] {
      OutCountersAreTheFrames(es[..|es| - 1], kind);
      ApplyIsTruthful(Run(es[..|es| - 1]), es[|es| - 1], kind);
    }
  }

  // ---------- What a socket sent ----------

  function InOf(l: Ledger, kind: RelayedKind): (n: nat)
    requires Counted(kind)
  {
    match kind
    case Offer => l.offersIn
    case Answer => l.answersIn
    case Ice => l.iceIn
  }

  // What the record of `p` counts in; nothing for a socket not opened yet.
  function InCount(sockets: seq<Socket>, p: PeerId, kind: RelayedKind): (n: nat)
    requires Counted(kind)
  {
    if p < |sockets| then InOf(sockets[p].ledger, kind) else 0
  }

  // How many of the frames asked for are in all the inboxes together.
  function HeardByAll(sockets: seq<Socket>, what: Query): (n: nat) {
    if sockets == [] then 0
    else HeardByAll(sockets[..|sockets| - 1], what) + Heard(sockets[|sockets| - 1].inbox, what)
  }

  lemma {:induction false} QuietHeardByAll(a: seq<Socket>, b: seq<Socket>, what: Query)
    requires Quiet(a, b, what)
    ensures HeardByAll(a, what) == HeardByAll(b, what)
  {
    if a != [] {
      var n := |a| - 1;
      assert Same(a[n], b[n], what);
      forall q | 0 <= q < n ensures Same(a[..n][q], b[..n][q], what) { assert Same(a[q], b[q], what); }
      QuietHeardByAll(a[..n], b[..n], what);
    }
  }

  lemma {:induction false} HeardByOneMore(sockets: seq<Socket>, i: nat, socket: Socket, what: Query)
    requires i < |sockets|
    ensures HeardByAll(sockets[i := socket], what) + Heard(sockets[i].inbox, what) ==
            HeardByAll(sockets, what) + Heard(socket.inbox, what)
  {
    var n := |sockets| - 1;
    if i < n {
      assert sockets[i := socket][..n] == sockets[..n][i := socket];
      HeardByOneMore(sockets[..n], i, socket, what);
    } else {
      assert sockets[i := socket][..n] == sockets[..n];
    }
  }

  // Only the ledgers differ.
  lemma {:induction false} SameInboxesHeard(a: seq<Socket>, b: seq<Socket>, what: Query)
    requires |a| == |b| && forall q :: 0 <= q < |a| ==> a[q].inbox == b[q].inbox
    ensures HeardByAll(a, what) == HeardByAll(b, what)
  {
    if a != [] { SameInboxesHeard(a[..|a| - 1], b[..|b| - 1], what); }
  }

  ghost predicate SentTruly(sockets: seq<Socket>, p: PeerId, kind: RelayedKind)
    requires Counted(kind)
  {
    InCount(sockets, p, kind) == HeardByAll(sockets, Query(kind, Some(p))) % WORD
  }

  lemma CountedIn(sockets: seq<Socket>, relayed: RelayedKind, from: PeerId, to: PeerId, p: PeerId, kind: RelayedKind)
    requires Counted(kind) && from < |sockets| && to < |sockets|
    ensures var n := InCount(sockets, p, kind);
      InCount(Count(sockets, relayed, from, to), p, kind) == if p == from && relayed == kind then Bump(n) else n
  {}

  lemma DeliveredIsHeard(sockets: seq<Socket>, to: PeerId, f: Frame, what: Query)
    requires to < |sockets| && sockets[to].open
    ensures HeardByAll(Deliver(sockets, to, f), what) == HeardByAll(sockets, what) + if Matches(f, what) then 1 else 0
  {
    var heard := sockets[to].(inbox := sockets[to].inbox + [f]);
    HeardSnoc(sockets[to].inbox, f, what);
    HeardByOneMore(sockets, to, heard, what);
  }

  lemma DeliverCountsNothing(sockets: seq<Socket>, to: PeerId, f: Frame, p: PeerId, kind: RelayedKind)
    requires Counted(kind)
    ensures InCount(Deliver(sockets, to, f), p, kind) == InCount(sockets, p, kind)
  {}

  lemma PassedIsSent(sockets: seq<Socket>, relayed: RelayedKind, from: PeerId, to: PeerId, p: PeerId, kind: RelayedKind)
    requires Counted(kind) && SentTruly(sockets, p, kind) && from < |sockets| && to < |sockets| && sockets[to].open
    ensures SentTruly(Count(Deliver(sockets, to, Relayed(relayed, from)), relayed, from, to), p, kind)
  {
    var what, f := Query(kind, Some(p)), Relayed(relayed, from);
    var heard := Deliver(sockets, to, f);
    DeliveredIsHeard(sockets, to, f, what);
    DeliverCountsNothing(sockets, to, f, p, kind);
    CountedIn(heard, relayed, from, to, p, kind);
    var counted := Count(heard, relayed, from, to);
    SameInboxesHeard(heard, counted, what);
    OneMoreIsTrue(sockets, counted, p, kind, p == from && relayed == kind);
  }

  lemma OneMoreIsTrue(a: seq<Socket>, b: seq<Socket>, p: PeerId, kind: RelayedKind, one: bool)
    requires Counted(kind) && SentTruly(a, p, kind)
    requires InCount(b, p, kind) == if one then Bump(InCount(a, p, kind)) else InCount(a, p, kind)
    requires HeardByAll(b, Query(kind, Some(p))) == HeardByAll(a, Query(kind, Some(p))) + if one then 1 else 0
    ensures SentTruly(b, p, kind)
  {
    if one { WrapsAlike(InCount(a, p, kind), HeardByAll(a, Query(kind, Some(p)))); }
  }

  lemma WrapsAlike(n: nat, heard: nat)
    requires n == heard % WORD
    ensures Bump(n) == (heard + 1) % WORD
  {}

  lemma RelayIsSent(s: Service, from: PeerId, relayed: RelayedKind, p: PeerId, kind: RelayedKind)
    requires Counted(kind) && RoomsOk(s.rooms) && from < |s.sockets| && s.sockets[from].session.Some?
    requires SentTruly(s.sockets, p, kind)
    ensures SentTruly(HandleRelay(s, from, relayed).sockets, p, kind)
  {
    var partner := PartnerAt(s.rooms, s.sockets[from].session.value.room, from);
    if partner.Some? && partner.value.id < |s.sockets| && s.sockets[partner.value.id].open {
      PassedIsSent(s.sockets, relayed, from, partner.value.id, p, kind);
    } else {
      SameInboxesHeard(s.sockets, HandleRelay(s, from, relayed).sockets, Query(kind, Some(p)));
    }
  }

  lemma QuietIsSent(a: seq<Socket>, b: seq<Socket>, p: PeerId, kind: RelayedKind)
    requires Counted(kind) && SentTruly(a, p, kind) && Quiet(a, b, Query(kind, Some(p)))
    ensures SentTruly(b, p, kind)
  {
    QuietHeardByAll(a, b, Query(kind, Some(p)));
    if p < |a| { assert Same(a[p], b[p], Query(kind, Some(p))); }
  }

  lemma ConnectIsSent(s: Service, user: UserId, p: PeerId, kind: RelayedKind)
    requires Counted(kind) && RoomsOk(s.rooms) && SentTruly(s.sockets, p, kind)
    ensures SentTruly(Apply(s, Connect(user)).sockets, p, kind)
  {
    assert Apply(s, Connect(user)).sockets[..|s.sockets|] == s.sockets;
  }

  lemma ApplyIsSent(s: Service, e: Event, p: PeerId, kind: RelayedKind)
    requires Counted(kind) && RoomsOk(s.rooms) && SentTruly(s.sockets, p, kind)
    ensures SentTruly(Apply(s, e).sockets, p, kind)
  {
    match e
    case Connect(user) => ConnectIsSent(s, user, p, kind);
    case RelayFrame(from, relayed) =>
      if from < |s.sockets| && s.sockets[from].open && s.sockets[from].session.Some? {
        RelayIsSent(s, from, relayed, p, kind);
      }
    case _ =>
      ApplyQuiet(s, e, Query(kind, Some(p)));
      QuietIsSent(s.sockets, Apply(s, e).sockets, p, kind);
  }

  /** In every run each socket's record counts in, of offers, answers and candidates, exactly the frames
      of that kind it sent that are in any inbox, modulo the 32 bits of the counter. */
  lemma {:induction false} InCountersAreTheFrames(es: seq<Event>, p: PeerId, kind: RelayedKind)
    requires Counted(kind)
    ensures SentTruly(Run(es).sockets, p, kind)
  {
    if es != [] {
      InCountersAreTheFrames(es[..|es| - 1], p, kind);
      ApplyIsSent(Run(es[..|es| - 1]), es[|es| - 1], p, kind);
    }
  }
}
