/**
  What the service passes between the two parties: every relayed frame stays inside the pair that was
  present when the relay was decided, and what the ledgers count in equals what they count out.
*/
module CallRelay {
  import opened Counters
  import opened Options
  import opened Seating
  import opened RoomMap
  import opened CallService

  // The two seats a relayed frame travels between.
  predicate Partners(s: Service, r: RoomId, i: nat, p: PeerId, q: PeerId) {
    && r in s.rooms && |s.rooms[r].list| == 2 && i <= 1
    && var mine, other := s.rooms[r].list[i], s.rooms[r].list[1 - i];
       && mine.peer.id == p && mine.present && other.peer.id == q && other.present
       && mine.peer.user != other.peer.user && mine.peer.group == other.peer.group
  }

  lemma PartnerFound(s: Service, p: PeerId, r: RoomId)
    requires Inv(s) && p < |s.sockets| && s.sockets[p].open && PartnerAt(s.rooms, r, p).Some?
    ensures var q := PartnerAt(s.rooms, r, p).value.id;
      && q < |s.sockets| && q != p && s.sockets[q].open && s.sockets[q].disposition.None?
      && exists i :: Partners(s, r, i, p, q)
  {
    var peer := PartnerAt(s.rooms, r, p).value;
    PartnerIsTheOtherPresentSeat(s.rooms[r], p, peer);
    var i :| 0 <= i < |s.rooms[r].list| && s.rooms[r].list[i].peer.id == p && s.rooms[r].list[1 - i] == Seat(peer, true);
    assert SeatOk(s.sockets, r, s.rooms[r].list[i]) && SeatOk(s.sockets, r, s.rooms[r].list[1 - i]);
    assert Partners(s, r, i, p, peer.id);
  }

  lemma RelayHeard(s: Service, p: PeerId, kind: RelayedKind, q: PeerId)
    requires RoomsOk(s.rooms) && p < |s.sockets| && s.sockets[p].session.Some? && q < |s.sockets|
    ensures var t := HandleRelay(s, p, kind);
      && |t.sockets| == |s.sockets|
      && (t.sockets[q].inbox != s.sockets[q].inbox ==>
            && t.sockets[q].inbox == s.sockets[q].inbox + [Relayed(kind, p)]
            && PartnerAt(s.rooms, s.sockets[p].session.value.room, p).Some?
            && PartnerAt(s.rooms, s.sockets[p].session.value.room, p).value.id == q)
  {}

  /** A relayed frame goes to the one other seat of the sender's room, present, of another user of
      the same group, whose socket is open and whose record names no end; nobody else hears it. */
  lemma RelayConfined(es: seq<Event>, p: PeerId, kind: RelayedKind, q: PeerId)
    requires q < |Run(es).sockets|
    ensures var s := Run(es);
      var t := Run(es + [RelayFrame(p, kind)]);
      |t.sockets| == |s.sockets| && (t.sockets[q].inbox != s.sockets[q].inbox ==>
        && t.sockets[q].inbox == s.sockets[q].inbox + [Relayed(kind, p)]
        && s.sockets[q].open && s.sockets[q].disposition.None?
        && exists r, i :: Partners(s, r, i, p, q))
  {
    var s := Run(es);
    var e := RelayFrame(p, kind);
    assert (es + [e])[..|es|] == es;
    if p < |s.sockets| && s.sockets[p].open && s.sockets[p].session.Some? {
      var r := s.sockets[p].session.value.room;
      RelayHeard(s, p, kind, q);
      if PartnerAt(s.rooms, r, p).Some? { PartnerFound(s, p, r); }
    }
  }

  // ---------- Conservation ----------

  function Total(sockets: seq<Socket>, column: Ledger -> nat): (n: nat) {
    if sockets == [] then 0 else Total(sockets[..|sockets| - 1], column) + column(sockets[|sockets| - 1].ledger)
  }

  lemma {:induction false} TotalUpdate(sockets: seq<Socket>, i: nat, socket: Socket, column: Ledger -> nat)
    requires i < |sockets|
    ensures Total(sockets[i := socket], column) ==
            Total(sockets, column) - column(sockets[i].ledger) + column(socket.ledger)
  {
    var n := |sockets| - 1;
    var after := sockets[i := socket];
    if i < n {
      assert after[..n] == sockets[..n][i := socket];
      TotalUpdate(sockets[..n], i, socket, column);
    } else {
      assert after[..n] == sockets[..n];
    }
  }

  predicate SameLedgers(a: seq<Socket>, b: seq<Socket>) {
    |a| == |b| && forall q :: 0 <= q < |a| ==> a[q].ledger == b[q].ledger
  }

  lemma {:induction false} TotalSame(a: seq<Socket>, b: seq<Socket>, column: Ledger -> nat)
    requires SameLedgers(a, b)
    ensures Total(a, column) == Total(b, column)
  {
    if a != [] { TotalSame(a[..|a| - 1], b[..|b| - 1], column); }
  }

  // In equals out on a pair of columns, as 32-bit counters can say it.
  predicate Conserved(sockets: seq<Socket>, into: Ledger -> nat, out: Ledger -> nat) {
    Total(sockets, into) % WORD == Total(sockets, out) % WORD
  }

  predicate Balanced(sockets: seq<Socket>) {
    && Conserved(sockets, (l: Ledger) => l.offersIn, (l: Ledger) => l.offersOut)
    && Conserved(sockets, (l: Ledger) => l.answersIn, (l: Ledger) => l.answersOut)
    && Conserved(sockets, (l: Ledger) => l.iceIn, (l: Ledger) => l.iceOut)
  }

  // Congruence modulo the width of a counter.
  lemma SameRemainder(a: int, k: int)
    ensures (a + 0x1_0000_0000 * k) % 0x1_0000_0000 == a % 0x1_0000_0000
  {}

  lemma RemainderPlusOne(total: nat)
    ensures (total % 0x1_0000_0000 + 1) % 0x1_0000_0000 == (total + 1) % 0x1_0000_0000
  {
    SameRemainder(total % 0x1_0000_0000 + 1, total / 0x1_0000_0000);
  }

  lemma BumpIsPlusOne(total: nat, n: nat)
    requires n <= total
    ensures (total - n + Bump(n)) % WORD == (total % WORD + 1) % WORD
  {
    var k := (n + 1) / 0x1_0000_0000;
    assert Bump(n) == n + 1 - 0x1_0000_0000 * k;
    SameRemainder(total + 1 - 0x1_0000_0000 * k, k);
    RemainderPlusOne(total);
  }

  lemma BothPlusOne(a: nat, b: nat, m: nat, n: nat)
    requires m <= a && n <= b && a % WORD == b % WORD
    ensures (a - m + Bump(m)) % WORD == (b - n + Bump(n)) % WORD
  {
    BumpIsPlusOne(a, m);
    BumpIsPlusOne(b, n);
  }

  lemma {:induction false} TotalAtLeast(sockets: seq<Socket>, i: nat, column: Ledger -> nat)
    requires i < |sockets|
    ensures column(sockets[i].ledger) <= Total(sockets, column)
  {
    if i < |sockets| - 1 { TotalAtLeast(sockets[..|sockets| - 1], i, column); }
  }

  // One frame adds one to each side of a pair of columns, or to neither.
  predicate Counts(kind: RelayedKind, l: Ledger, into: Ledger -> nat, out: Ledger -> nat, counted: bool) {
    && into(CountIn(kind, l)) == (if counted then Bump(into(l)) else into(l))
    && out(CountOut(kind, l)) == (if counted then Bump(out(l)) else out(l))
    && out(CountIn(kind, l)) == out(l)
    && into(CountOut(kind, l)) == into(l)
  }

  // Changing one ledger's `into` and another's `out` alike keeps a pair of columns equal.
  lemma PairConserves(sockets: seq<Socket>, from: PeerId, first: Socket, to: PeerId, second: Socket,
                      into: Ledger -> nat, out: Ledger -> nat, counted: bool)
    requires from < |sockets| && to < |sockets| && Conserved(sockets, into, out)
    requires var l := sockets[from].ledger;
      into(first.ledger) == (if counted then Bump(into(l)) else into(l)) && out(first.ledger) == out(l)
    requires var l := sockets[from := first][to].ledger;
      out(second.ledger) == (if counted then Bump(out(l)) else out(l)) && into(second.ledger) == into(l)
    ensures Conserved(sockets[from := first][to := second], into, out)
  {
    var sent := sockets[from := first];
    TotalUpdate(sockets, from, first, into);
    TotalUpdate(sockets, from, first, out);
    TotalUpdate(sent, to, second, into);
    TotalUpdate(sent, to, second, out);
    TotalAtLeast(sockets, from, into);
    TotalAtLeast(sent, to, out);
    if counted {
      BothPlusOne(Total(sockets, into), Total(sent, out), into(sockets[from].ledger), out(sent[to].ledger));
    }
  }

  lemma CountConserves(sockets: seq<Socket>, kind: RelayedKind, from: PeerId, to: PeerId,
                       into: Ledger -> nat, out: Ledger -> nat, counted: bool)
    requires from < |sockets| && to < |sockets| && Conserved(sockets, into, out)
    requires Counts(kind, sockets[from].ledger, into, out, counted)
    requires var sent := sockets[from := sockets[from].(ledger := CountIn(kind, sockets[from].ledger))];
      Counts(kind, sent[to].ledger, into, out, counted)
    ensures Conserved(Count(sockets, kind, from, to), into, out)
  {
    var first := sockets[from].(ledger := CountIn(kind, sockets[from].ledger));
    var sent := sockets[from := first];
    var second := sent[to].(ledger := CountOut(kind, sent[to].ledger));
    PairConserves(sockets, from, first, to, second, into, out, counted);
  }

  lemma RelayBalances(sockets: seq<Socket>, kind: RelayedKind, from: PeerId, to: PeerId)
    requires from < |sockets| && to < |sockets| && Balanced(sockets)
    ensures Balanced(Count(sockets, kind, from, to))
  {
    CountConserves(sockets, kind, from, to, (l: Ledger) => l.offersIn, (l: Ledger) => l.offersOut, kind.Offer?);
    CountConserves(sockets, kind, from, to, (l: Ledger) => l.answersIn, (l: Ledger) => l.answersOut, kind.Answer?);
    CountConserves(sockets, kind, from, to, (l: Ledger) => l.iceIn, (l: Ledger) => l.iceOut, kind.Ice?);
  }

  lemma SameLedgersBalance(a: seq<Socket>, b: seq<Socket>)
    requires SameLedgers(a, b) && Balanced(a)
    ensures Balanced(b)
  {
    TotalSame(a, b, (l: Ledger) => l.offersIn);
    TotalSame(a, b, (l: Ledger) => l.offersOut);
    TotalSame(a, b, (l: Ledger) => l.answersIn);
    TotalSame(a, b, (l: Ledger) => l.answersOut);
    TotalSame(a, b, (l: Ledger) => l.iceIn);
    TotalSame(a, b, (l: Ledger) => l.iceOut);
  }

  // No frame the service sends of its own is counted.
  lemma {:induction false} EvictSameLedgers(sockets: seq<Socket>, evicted: seq<Peer>)
    ensures SameLedgers(sockets, Evict(sockets, evicted))
    decreases |evicted|
  {
    if evicted != [] {
      var first := Deliver(End(sockets, evicted[0].id, SiblingEvicted), evicted[0].id, PeerLeft);
      assert SameLedgers(sockets, first);
      EvictSameLedgers(first, evicted[1..]);
    }
  }

  lemma JoinSameLedgers(sockets: seq<Socket>, p: PeerId, session: Session, o: JoinOutcome)
    requires p < |sockets|
    ensures SameLedgers(sockets, JoinSends(sockets, p, session, o))
  {
    if !o.Full? && !o.OtherGroup? {
      var begun := Begin(sockets, p, session);
      EvictSameLedgers(begun, o.evicted);
      var seated := Deliver(Evict(begun, o.evicted), p, Joined(p));
      assert SameLedgers(sockets, seated);
    }
  }

  lemma ResumeSameLedgers(sockets: seq<Socket>, p: PeerId, session: Session, o: ResumeOutcome)
    requires p < |sockets|
    ensures SameLedgers(sockets, ResumeSends(sockets, p, session, o))
  {
    if o.Resumed? {
      var seated := Deliver(Replace(Begin(sockets, p, session), o.replaced), p, Joined(p));
      assert SameLedgers(sockets, seated);
      TellSameLedgers(seated, p, o.partner);
    }
  }

  lemma TellSameLedgers(sockets: seq<Socket>, p: PeerId, o: PartnerState)
    ensures SameLedgers(sockets, TellPartner(sockets, p, o))
  {}

  lemma JoinBalances(s: Service, p: PeerId, room: RoomId, group: GroupId)
    requires Inv(s) && MayJoin(s, p) && Balanced(s.sockets)
    ensures Balanced(HandleJoin(s, p, room, group).sockets)
  {
    JoinSameLedgers(s.sockets, p, Session(room, group), JoinAt(s.rooms, room, Peer(p, s.sockets[p].user, group)).1);
    SameLedgersBalance(s.sockets, HandleJoin(s, p, room, group).sockets);
  }

  lemma ResumeBalances(s: Service, p: PeerId, room: RoomId, group: GroupId, seat: PeerId)
    requires Inv(s) && MayJoin(s, p) && Balanced(s.sockets)
    ensures Balanced(HandleResume(s, p, room, group, seat).sockets)
  {
    var o := ResumeAt(s.rooms, room, seat, Peer(p, s.sockets[p].user, group)).1;
    ResumeSameLedgers(s.sockets, p, Session(room, group), o);
    SameLedgersBalance(s.sockets, HandleResume(s, p, room, group, seat).sockets);
  }

  lemma ConnectBalances(s: Service, user: UserId)
    requires Inv(s) && Balanced(s.sockets)
    ensures Balanced(Apply(s, Connect(user)).sockets)
  {
    assert Apply(s, Connect(user)).sockets[..|s.sockets|] == s.sockets;
  }

  lemma GraceBalances(s: Service, room: RoomId, p: PeerId)
    requires Inv(s) && Balanced(s.sockets)
    ensures Balanced(Apply(s, GraceEnds(room, p)).sockets)
  {
    SameLedgersBalance(s.sockets, Apply(s, GraceEnds(room, p)).sockets);
  }

  lemma ApplyBalances(s: Service, e: Event)
    requires Inv(s) && Balanced(s.sockets)
    ensures Balanced(Apply(s, e).sockets)
  {
    match e
    case Connect(user) => ConnectBalances(s, user);
    case JoinFrame(p, room, group) => if MayJoin(s, p) { JoinBalances(s, p, room, group); }
    case ResumeFrame(p, room, group, seat) => if MayJoin(s, p) { ResumeBalances(s, p, room, group, seat); }
    case RelayFrame(p, kind) => RelayStepBalances(s, p, kind);
    case SocketEnds(p, cause) =>
      EndSameLedgers(s, p, cause);
      SameLedgersBalance(s.sockets, Apply(s, e).sockets);
    case GraceEnds(room, p) => GraceBalances(s, room, p);
  }

  lemma EndSameLedgers(s: Service, p: PeerId, cause: Disposition)
    requires Inv(s)
    ensures SameLedgers(s.sockets, Apply(s, SocketEnds(p, cause)).sockets)
  {
    if p < |s.sockets| && s.sockets[p].open {
      var closed := s.sockets[p := s.sockets[p].(open := false)];
      var ended := End(closed, p, cause);
      assert SameLedgers(s.sockets, ended);
      forall to, f ensures SameLedgers(ended, DeliverTo(ended, to, f)) {}
    }
  }

  lemma RelayStepBalances(s: Service, p: PeerId, kind: RelayedKind)
    requires Inv(s) && Balanced(s.sockets)
    ensures Balanced(Apply(s, RelayFrame(p, kind)).sockets)
  {
    if p < |s.sockets| && s.sockets[p].open && s.sockets[p].session.Some? {
      var partner := PartnerAt(s.rooms, s.sockets[p].session.value.room, p);
      var t := HandleRelay(s, p, kind);
      if partner.None? {
        FailedIceBalances(s.sockets, p);
      } else if partner.value.id < |s.sockets| && s.sockets[partner.value.id].open {
        var sent := Deliver(s.sockets, partner.value.id, Relayed(kind, p));
        SameLedgersBalance(s.sockets, sent);
        RelayBalances(sent, kind, p, partner.value.id);
      }
    }
  }

  // A candidate that went nowhere is counted apart.
  lemma FailedIceBalances(sockets: seq<Socket>, p: PeerId)
    requires p < |sockets| && Balanced(sockets)
    ensures var l := sockets[p].ledger;
      Balanced(sockets[p := sockets[p].(ledger := l.(iceInFailed := Bump(l.iceInFailed)))])
  {
    var l := sockets[p].ledger;
    var failed := sockets[p].(ledger := l.(iceInFailed := Bump(l.iceInFailed)));
    TotalUpdate(sockets, p, failed, (l: Ledger) => l.offersIn);
    TotalUpdate(sockets, p, failed, (l: Ledger) => l.offersOut);
    TotalUpdate(sockets, p, failed, (l: Ledger) => l.answersIn);
    TotalUpdate(sockets, p, failed, (l: Ledger) => l.answersOut);
    TotalUpdate(sockets, p, failed, (l: Ledger) => l.iceIn);
    TotalUpdate(sockets, p, failed, (l: Ledger) => l.iceOut);
  }

  /** Over all the ledgers of a run, the frames counted in are the frames counted out: offers,
      answers and candidates, each modulo the 32 bits of its counter. */
  lemma {:induction false} FramesAreConserved(es: seq<Event>)
    ensures Balanced(Run(es).sockets)
  {
    if es != [] {
      FramesAreConserved(es[..|es| - 1]);
      ApplyBalances(Run(es[..|es| - 1]), es[|es| - 1]);
    }
  }
}
