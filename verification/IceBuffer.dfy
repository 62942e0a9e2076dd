/**
  Remote ICE candidates of one peer that arrive before its description: buffered, handed to the agent
  once the description is set, and dropped a whole buffer at a time past the cap. Every candidate is
  accounted for: the arrivals are the dropped blocks, then what the agent was handed, then what is
  still buffered, in that order.
*/
module IceBuffer {
  import opened Counters

  const PENDING_CAP: nat := 200

  // An empty candidate is the end-of-candidates mark.
  type Candidate = string

  datatype State = State(remoteSet: bool, pending: seq<Candidate>, handed: seq<Candidate>,
                         buffered: Counter, failed: Counter, overflows: nat)

  // What the agent says to a candidate is an input of each event.
  datatype Event = Arrives(c: Candidate, accepts: Candidate -> bool)
                 | Description(valid: bool, accepts: Candidate -> bool)

  const INITIAL := State(false, [], [], 0, 0, 0)

  function Refused(cs: seq<Candidate>, accepts: Candidate -> bool): (n: nat) {
    if cs == [] then 0 else Refused(cs[..|cs| - 1], accepts) + if accepts(cs[|cs| - 1]) then 0 else 1
  }

  function Flush(st: State, accepts: Candidate -> bool): (r: State) {
    st.(pending := [], handed := st.handed + st.pending, failed := Bump(st.failed, Refused(st.pending, accepts)))
  }

  function Step(st: State, e: Event): (r: State) {
    match e
    case Description(valid, accepts) => if valid then Flush(st.(remoteSet := true), accepts) else st
    case Arrives(c, accepts) =>
      if st.remoteSet then
        st.(handed := st.handed + [c], failed := if accepts(c) then st.failed else Bump(st.failed))
      else if c == "" then st
      else if |st.pending| >= PENDING_CAP then
        st.(pending := [], failed := Bump(st.failed, |st.pending|), overflows := st.overflows + 1)
      else st.(pending := st.pending + [c], buffered := Bump(st.buffered))
  }

  /** The peer's side of the connection as the handlers change it. */
  class PeerIce {
    var remoteSet: bool
    var pending: seq<Candidate>
    var handed: seq<Candidate>
    var buffered: Counter
    var failed: Counter
    ghost var overflows: nat

    constructor ()
      ensures Contents() == INITIAL
    {
      remoteSet, pending, handed, buffered, failed, overflows := false, [], [], 0, 0, 0;
    }

    ghost function Contents(): State
      reads this
    {
      State(remoteSet, pending, handed, buffered, failed, overflows)
    }

    method ApplyCandidate(c: Candidate, accepts: Candidate -> bool)
      modifies this
      ensures Contents() == Step(old(Contents()), Arrives(c, accepts))
    {
      if !remoteSet {
        if c == "" { return; }
        if |pending| >= PENDING_CAP {
          failed := Bump(failed, |pending|);
          pending := [];
          overflows := overflows + 1;
          return;
        }
        pending := pending + [c];
        buffered := Bump(buffered);
        return;
      }
      handed := handed + [c];
      if !accepts(c) { failed := Bump(failed); }
    }

    method SetRemoteDescription(valid: bool, accepts: Candidate -> bool)
      modifies this
      ensures Contents() == Step(old(Contents()), Description(valid, accepts))
    {
      if !valid { return; }
      remoteSet := true;
      FlushPending(accepts);
    }

    method FlushPending(accepts: Candidate -> bool)
      modifies this`pending, this`handed, this`failed
      ensures Contents() == Flush(old(Contents()), accepts)
    {
      var taken := pending;
      pending := [];
      for i := 0 to |taken|
        invariant pending == [] && handed == old(handed) + taken[..i]
        invariant failed == Bump(old(failed), Refused(taken[..i], accepts))
      {
        assert taken[..i + 1][..i] == taken[..i];
        BumpTwice(old(failed), Refused(taken[..i], accepts), 1);
        handed := handed + [taken[i]];
        if !accepts(taken[i]) { failed := Bump(failed); }
      }
      assert taken[..|taken|] == taken;
    }
  }

  // ---------- Runs ----------

  function After(run: seq<Event>): (st: State) {
    if run == [] then INITIAL else Step(After(run[..|run| - 1]), run[|run| - 1])
  }

  // The candidates that arrived, without the end-of-candidates marks.
  function Arrivals(run: seq<Event>): (cs: seq<Candidate>) {
    if run == [] then []
    else
      var last := run[|run| - 1];
      Arrivals(run[..|run| - 1]) + if last.Arrives? && last.c != "" then [last.c] else []
  }

  function NonEnd(cs: seq<Candidate>): (r: seq<Candidate>) {
    if cs == [] then [] else NonEnd(cs[..|cs| - 1]) + if cs[|cs| - 1] == "" then [] else [cs[|cs| - 1]]
  }

  lemma {:induction false} NonEndConcat(a: seq<Candidate>, b: seq<Candidate>)
    ensures NonEnd(a + b) == NonEnd(a) + NonEnd(b)
  {
    if b == [] {
      assert a + b == a;
    } else {
      assert (a + b)[..|a + b| - 1] == a + b[..|b| - 1];
      NonEndConcat(a, b[..|b| - 1]);
    }
  }

  lemma {:induction false} NonEndAll(cs: seq<Candidate>)
    requires "" !in cs
    ensures NonEnd(cs) == cs
  {
    if cs != [] {
      NonEndAll(cs[..|cs| - 1]);
      assert cs == cs[..|cs| - 1] + [cs[|cs| - 1]];
    }
  }

  // The arrivals split into the cleared blocks, what the agent got and what waits.
  ghost predicate Accounted(st: State, arrivals: seq<Candidate>) {
    var dropped := (PENDING_CAP + 1) * st.overflows;
    && dropped <= |arrivals|
    && arrivals[dropped..] == NonEnd(st.handed) + st.pending
    && |st.pending| <= PENDING_CAP && "" !in st.pending
    && (st.remoteSet ==> st.pending == [])
    && (!st.remoteSet ==> st.handed == [])
  }

  lemma FlushAccounts(st: State, arrivals: seq<Candidate>, accepts: Candidate -> bool)
    requires Accounted(st, arrivals)
    ensures Accounted(Flush(st.(remoteSet := true), accepts), arrivals)
  {
    NonEndConcat(st.handed, st.pending);
    NonEndAll(st.pending);
  }

  lemma HandedAccounts(st: State, arrivals: seq<Candidate>, c: Candidate, accepts: Candidate -> bool)
    requires Accounted(st, arrivals) && st.remoteSet
    ensures Accounted(Step(st, Arrives(c, accepts)), arrivals + if c != "" then [c] else [])
  {
    NonEndConcat(st.handed, [c]);
    assert NonEnd([c][..0]) == [];
    assert NonEnd([c]) == if c == "" then [] else [c];
  }

  lemma BufferedAccounts(st: State, arrivals: seq<Candidate>, c: Candidate)
    requires Accounted(st, arrivals) && !st.remoteSet && c != ""
    ensures |st.pending| < PENDING_CAP ==> Accounted(st.(pending := st.pending + [c]), arrivals + [c])
    ensures |st.pending| >= PENDING_CAP ==> Accounted(st.(pending := [], overflows := st.overflows + 1), arrivals + [c])
  {
    var dropped := (PENDING_CAP + 1) * st.overflows;
    assert (arrivals + [c])[dropped..] == arrivals[dropped..] + [c];
    assert NonEnd(st.handed) == [];
    if |st.pending| >= PENDING_CAP {
      assert |arrivals + [c]| == (PENDING_CAP + 1) * (st.overflows + 1);
    }
  }

  lemma StepAccounts(st: State, arrivals: seq<Candidate>, e: Event)
    requires Accounted(st, arrivals)
    ensures Accounted(Step(st, e), arrivals + if e.Arrives? && e.c != "" then [e.c] else [])
  {
    match e {
      case Description(_, accepts) =>
        FlushAccounts(st, arrivals, accepts);
        assert arrivals + [] == arrivals;
      case Arrives(c, accepts) =>
        if st.remoteSet {
          HandedAccounts(st, arrivals, c, accepts);
        } else if c == "" {
          assert arrivals + [] == arrivals;
        } else {
          BufferedAccounts(st, arrivals, c);
        }
    }
  }

  /** In every run each candidate is accounted for: the first arrivals are the cleared blocks, of 201
      each; then come, in the order they arrived, those the agent was handed, and last those still
      buffered, never more than 200. Before the description none was handed; after it none waits. */
  lemma {:induction false} NothingIsLostSilently(run: seq<Event>)
    ensures var st, arrivals := After(run), Arrivals(run);
      var dropped := (PENDING_CAP + 1) * st.overflows;
      && dropped <= |arrivals|
      && arrivals == arrivals[..dropped] + NonEnd(st.handed) + st.pending
      && |st.pending| <= PENDING_CAP
      && (if st.remoteSet then st.pending == [] else st.handed == [])
  {
    RunAccounts(run);
    var st, arrivals := After(run), Arrivals(run);
    var dropped := (PENDING_CAP + 1) * st.overflows;
    assert arrivals == arrivals[..dropped] + arrivals[dropped..];
  }

  lemma {:induction false} RunAccounts(run: seq<Event>)
    ensures Accounted(After(run), Arrivals(run))
  {
    if run != [] {
      RunAccounts(run[..|run| - 1]);
      StepAccounts(After(run[..|run| - 1]), Arrivals(run[..|run| - 1]), run[|run| - 1]);
    }
  }

  // ---------- What the agent was handed ----------

  // A valid description has come.
  ghost predicate Described(run: seq<Event>) {
    exists i :: 0 <= i < |run| && run[i].Description? && run[i].valid
  }

  // The candidates that came before it, without the end marks, and everything that came after it.
  ghost function Early(run: seq<Event>): (cs: seq<Candidate>) {
    if run == [] then []
    else
      var front, last := run[..|run| - 1], run[|run| - 1];
      Early(front) + if last.Arrives? && last.c != "" && !Described(front) then [last.c] else []
  }

  ghost function Late(run: seq<Event>): (cs: seq<Candidate>) {
    if run == [] then []
    else
      var front, last := run[..|run| - 1], run[|run| - 1];
      Late(front) + if last.Arrives? && Described(front) then [last.c] else []
  }

  // What is left of `early` once its first blocks were cleared waits for the description and is then
  // handed on, before everything that came later.
  ghost predicate HandsOn(st: State, described: bool, early: seq<Candidate>, late: seq<Candidate>) {
    var dropped := (PENDING_CAP + 1) * st.overflows;
    && st.remoteSet == described && dropped <= |early| <= dropped + PENDING_CAP
    && (described ==> st.pending == [] && st.handed == early[dropped..] + late)
    && (!described ==> st.pending == early[dropped..] && st.handed == [] && late == [])
  }

  lemma DescribedOneMore(front: seq<Event>, e: Event)
    ensures Described(front + [e]) <==> Described(front) || (e.Description? && e.valid)
  {
    var run := front + [e];
    if i :| 0 <= i < |run| && run[i].Description? && run[i].valid {
      if i < |front| { assert front[i] == run[i]; }
    }
    if i :| 0 <= i < |front| && front[i].Description? && front[i].valid { assert run[i] == front[i]; }
    if e.Description? && e.valid { assert run[|front|] == e; }
  }

  lemma EarlyHandsOn(st: State, early: seq<Candidate>, c: Candidate, accepts: Candidate -> bool)
    requires HandsOn(st, false, early, [])
    ensures HandsOn(Step(st, Arrives(c, accepts)), false, early + if c != "" then [c] else [], [])
  {
    var dropped := (PENDING_CAP + 1) * st.overflows;
    if c == "" {
      assert early + [] == early;
    } else {
      assert (early + [c])[dropped..] == early[dropped..] + [c];
      assert (PENDING_CAP + 1) * (st.overflows + 1) == dropped + PENDING_CAP + 1;
      if |st.pending| >= PENDING_CAP { assert (early + [c])[dropped + PENDING_CAP + 1..] == []; }
    }
  }

  lemma LateHandsOn(st: State, early: seq<Candidate>, late: seq<Candidate>, e: Event)
    requires HandsOn(st, true, early, late)
    ensures HandsOn(Step(st, e), true, early, late + if e.Arrives? then [e.c] else [])
  {
    var tail := early[(PENDING_CAP + 1) * st.overflows..];
    if e.Arrives? {
      assert tail + late + [e.c] == tail + (late + [e.c]);
    } else {
      assert late + [] == late && st.handed + [] == st.handed;
    }
  }

  lemma DescriptionHandsOn(st: State, early: seq<Candidate>, valid: bool, accepts: Candidate -> bool)
    requires HandsOn(st, false, early, [])
    ensures HandsOn(Step(st, Description(valid, accepts)), valid, early, [])
  {
    assert [] + st.pending == st.pending && st.pending + [] == st.pending;
  }

  /** In every run the agent was handed, once a valid description came and not before, what the cleared
      blocks left of the candidates that had come earlier, and then everything that came later, end
      marks included, all in the order they came. */
  lemma {:induction false} TheAgentIsHandedTheRest(run: seq<Event>)
    ensures HandsOn(After(run), Described(run), Early(run), Late(run))
  {
    if run != [] {
      var front, last := run[..|run| - 1], run[|run| - 1];
      assert run == front + [last];
      TheAgentIsHandedTheRest(front);
      DescribedOneMore(front, last);
      var st, early, late := After(front), Early(front), Late(front);
      assert early + [] == early && late + [] == late;
      if Described(front) {
        LateHandsOn(st, early, late, last);
      } else {
        match last
        case Arrives(c, accepts) => EarlyHandsOn(st, early, c, accepts);
        case Description(valid, accepts) => DescriptionHandsOn(st, early, valid, accepts);
      }
    }
  }

  // ---------- What the ledger says ----------

  // How many candidates the agent refused over the run.
  function Refusals(run: seq<Event>): (n: nat) {
    if run == [] then 0
    else
      var front, last := run[..|run| - 1], run[|run| - 1];
      Refusals(front) + match last
      case Arrives(c, accepts) => if After(front).remoteSet && !accepts(c) then 1 else 0
      case Description(valid, accepts) => if valid then Refused(After(front).pending, accepts) else 0
  }

  /** The ledger's failure counter is the agent's refusals plus 200 for every cleared block, modulo
      its width: one less per block than the candidates that were lost. */
  lemma {:induction false} FailuresCountTwoHundredPerBlock(run: seq<Event>)
    ensures After(run).failed == (Refusals(run) + PENDING_CAP * After(run).overflows) % WORD
  {
    if run != [] {
      var front, last := run[..|run| - 1], run[|run| - 1];
      FailuresCountTwoHundredPerBlock(front);
      RunAccounts(front);
      var was, n := After(front), Refusals(front) + PENDING_CAP * After(front).overflows;
      assert was.failed == Bump(0, n);
      BumpTwice(0, n, Refusals(run) - Refusals(front));
      BumpTwice(0, n, PENDING_CAP);
    }
  }

  // The candidates that came before the description.
  function EarlyArrivals(run: seq<Event>): (n: nat) {
    if run == [] then 0
    else
      var front, last := run[..|run| - 1], run[|run| - 1];
      EarlyArrivals(front) + if last.Arrives? && last.c != "" && !After(front).remoteSet then 1 else 0
  }

  // In those terms, the candidates that came early are counted one by one.
  lemma {:induction false} EarlyIsCounted(run: seq<Event>)
    ensures EarlyArrivals(run) == |Early(run)|
  {
    if run != [] {
      EarlyIsCounted(run[..|run| - 1]);
      TheAgentIsHandedTheRest(run[..|run| - 1]);
    }
  }

  /** The ledger counts as buffered every candidate that came before the description, but for the one
      that overflowed each cleared block. */
  lemma {:induction false} BufferedCountsTheEarly(run: seq<Event>)
    ensures After(run).overflows <= EarlyArrivals(run)
    ensures After(run).buffered == (EarlyArrivals(run) - After(run).overflows) % WORD
  {
    if run != [] {
      var front := run[..|run| - 1];
      BufferedCountsTheEarly(front);
      BumpTwice(0, EarlyArrivals(front) - After(front).overflows, 1);
    }
  }

  // ---------- When the failure counter is right ----------

  // Before the description the arrivals fill blocks of 201: those cleared, and the one pending.
  lemma {:induction false} EarlyFillBlocks(run: seq<Event>)
    ensures var st, early := After(run), EarlyArrivals(run);
      if st.remoteSet then (PENDING_CAP + 1) * st.overflows <= early < (PENDING_CAP + 1) * (st.overflows + 1)
      else early == (PENDING_CAP + 1) * st.overflows + |st.pending| && |st.pending| <= PENDING_CAP
  {
    if run != [] { EarlyFillBlocks(run[..|run| - 1]); }
  }

  /** The cap clears its buffer once for every 201 candidates that came before the description. */
  lemma OverflowsAreBlocks(run: seq<Event>)
    ensures After(run).overflows == EarlyArrivals(run) / (PENDING_CAP + 1)
  {
    EarlyFillBlocks(run);
    DivIs(EarlyArrivals(run), After(run).overflows);
  }

  lemma DivIs(early: nat, blocks: nat)
    requires (PENDING_CAP + 1) * blocks <= early < (PENDING_CAP + 1) * (blocks + 1)
    ensures early / (PENDING_CAP + 1) == blocks
  {}

  lemma ShortByBlocks(n: nat, blocks: nat)
    ensures n % WORD == (n + blocks) % WORD <==> blocks % WORD == 0
  {}

  lemma RightIff(refusals: nat, early: nat, blocks: nat, failed: nat)
    requires failed == (refusals + PENDING_CAP * blocks) % WORD && blocks == early / (PENDING_CAP + 1)
    ensures failed == (refusals + (PENDING_CAP + 1) * blocks) % WORD <==> blocks % WORD == 0
    ensures early < (PENDING_CAP + 1) * WORD ==> (blocks % WORD == 0 <==> early < PENDING_CAP + 1)
  {
    ShortByBlocks(refusals + PENDING_CAP * blocks, blocks);
    assert refusals + (PENDING_CAP + 1) * blocks == refusals + PENDING_CAP * blocks + blocks;
  }

  /** The failure counter counts every candidate the cap dropped exactly when the number of cleared
      blocks is a multiple of its width; so, while fewer than 201 times 2^32 candidates came before the
      description, exactly when fewer than 201 did and the cap dropped none. */
  lemma FailuresAreRightIff(run: seq<Event>)
    ensures After(run).failed == (Refusals(run) + (PENDING_CAP + 1) * After(run).overflows) % WORD <==>
      EarlyArrivals(run) / (PENDING_CAP + 1) % WORD == 0
    ensures EarlyArrivals(run) < (PENDING_CAP + 1) * WORD ==>
      (EarlyArrivals(run) / (PENDING_CAP + 1) % WORD == 0 <==> EarlyArrivals(run) < PENDING_CAP + 1)
  {
    FailuresCountTwoHundredPerBlock(run);
    OverflowsAreBlocks(run);
    RightIff(Refusals(run), EarlyArrivals(run), After(run).overflows, After(run).failed);
  }

  // `n` candidates before any description.
  function EarlyRun(n: nat, c: Candidate): (run: seq<Event>) {
    seq(n, _ => Arrives(c, _ => true))
  }

  lemma {:induction false} EarlyRunArrives(n: nat, c: Candidate)
    requires c != ""
    ensures var run := EarlyRun(n, c); EarlyArrivals(run) == n && !After(run).remoteSet && Refusals(run) == 0
  {
    if n > 0 {
      assert EarlyRun(n, c)[..n - 1] == EarlyRun(n - 1, c);
      EarlyRunArrives(n - 1, c);
    }
  }

  /** A run of 201 early candidates loses all of them and counts 200. */
  lemma TwoHundredAndOneAreCountedShort(c: Candidate)
    requires c != ""
    ensures var st := After(EarlyRun(201, c));
      |Arrivals(EarlyRun(201, c))| == 201 && st.handed == [] && st.pending == [] && st.failed == 200
  {
    EarlyRunArrives(201, c);
    OverflowsAreBlocks(EarlyRun(201, c));
    FailuresCountTwoHundredPerBlock(EarlyRun(201, c));
    NothingIsLostSilently(EarlyRun(201, c));
    EarlyFillBlocks(EarlyRun(201, c));
  }
}
