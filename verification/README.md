# Canari: its protocols, modelled and proved

This project models the concurrent cores of the canari messenger in Dafny and proves, for every run or
every input, what they are for. Nothing here executes the original program.

- **The peer-to-peer call room** (`Seating`, `P2pRoom`, `RoomMap`, `CallService`, `CallHistory`, `CallEndings`,
  `CallFrames`, `CallRelay`, `CallCounts`, `CallFailures`, `CallSeats`, `CallDrain`, `CallAtomic`, `CallRefinement`). A
  room has two seats at most; devices join, lose their socket, resume within a grace period or leave. `P2pRoom.Room` is
  the mutable room, proved against the closed forms of `Seating`. `CallService` makes each handler one step (decide on
  the map, then send); over its runs it is proved what every peer was told, every frame every inbox gains, how sessions
  end, and what is relayed and counted. `CallSeats` makes every acquisition of a room's lock a step of its own, lets
  anything happen in between, and proves who owns each seat; `CallDrain` proves that everything begun runs down to rest;
  `CallAtomic` proves that each of its steps is one atomic handler or none, and `CallRefinement` that each of its runs
  is a run of `CallService`. A socket's id is its index in the list of sockets opened, so it is fresh and never reused,
  as the source's random ids are.
- **The shared session record of the gateway** (`SessionStore`, `SessionRuns`, `Heartbeat`). Two scripts change the keys
  of a device under expiries; sessions of any number of processes interleave with late refreshes in flight; a
  heartbeat has to fit the time to live.
- **The census series** (`Sorting`, `Census`, `CensusMerge`, `CensusOverflow`, `CensusLeaders`, `CensusPeaks`,
  `CensusSums`, `CensusGroupings`, `CensusPastTheCap`, `CensusRollup`, `CensusSeries`, `CensusCoarse`). The algebra of a
  bounded maximum of cell counts, what survives the cap in every grouping and order of folds, the roll-up by buckets,
  minute samples written by replicas with wrong clocks, and the compare-and-swap fold into coarse buckets.
- **Smaller cores**: the ICE candidate buffer (`IceBuffer`), the keepalive and rate counters of a socket
  (`SocketLiveness`), the renegotiation debounce (`Renegotiation`), the commit-log hole query (`CommitLogHoles`), and
  the replacement order of services (`ReplacementOrder`). `Options`, `Counters` and `IntSets` hold what several share.

Clocks, random ids, the network, token validity, the media stack's verdict on a candidate and the order in which tasks
run are inputs: parameters of an operation or events of a run. A run is a sequence of events; an event that is not
possible where it stands changes nothing.

## Where the code and its words differ

The model follows the code.

- The fold of a census is documented as idempotent (`apps/chat-gateway/src/census.rs:228-232` and `606-611`). Past the
  cap of 64 cells it is not. `CensusOverflow.FoldTwiceIff` gives the exact condition on the two censuses;
  `AReplayPastTheCapCountsAgain` and `AReplayWithinTheCapCountsAgain` are failing families, the second within the cap
  the sampler keeps (`census.rs:746`), and `ASampledMinuteIsCountedTwice` is one pair of it.
- The same words call it order-free. Past the cap that is true of the totals, of the cells named and of the devices in
  each: `CensusGroupings.EveryGroupingAgrees` proves it of every grouping and order of the same censuses, and that the
  residues differ exactly as the sums over the cells do. It is false of the residue, and of the users of a cell that
  was folded away and came back, which `UsersAreOfThePeak` bounds on both sides. `CensusPastTheCap` has the inputs:
  residues of 7 and 5 for two groupings, of 8 and 6 for two orders, users of 1 and 2.
- A read is documented to answer every sample of its window (`apps/chat-gateway/src/census.rs:468-471`). It asks for the
  store's clock in a command before the range, and a day's window is the whole retention, so a script between the two
  can trim its oldest minute. `CensusSeries.AReadIsTheHistory` says exactly what is answered and when that is the whole
  window, and `ADaysReadCanMissAMinute` is a run where it is not.
- The ICE failure counter adds 200 for an overflow that loses 201 candidates: the one that found the buffer full is
  dropped uncounted (`apps/call-service/src/main.rs:2678-2693`). `IceBuffer.FailuresCountTwoHundredPerBlock` is the law,
  `FailuresAreRightIff` says when the counter is right, and `TwoHundredAndOneAreCountedShort` is a run where it is not.
- The rate limiter is documented as 50 frames per second (`apps/call-service/src/main.rs:1022`).
  `SocketLiveness.FiftyOnePassIff` says exactly when the last of fifty-one frames within a second passes: when one of
  the last fifty starts a new window. `AHundredCanPass` reaches a hundred, which is the most any second sees.
- A silent socket is held dead more than two periods after its last frame, except that a frame served at the very
  instant of a ping, just before it, is followed by death after exactly two: `SocketLiveness.HeldDeadInTime` has the
  condition and `DeadAfterExactlyTwoPeriods` such a run.
- A pairing made by a join always says `resumed: false`, also in a room that was paired before; only a resume reports
  the room's past (`apps/call-service/src/main.rs:1989`, `2149-2172`). `CallHistory.JoinedIsHistoryIff` says when the two
  agree, and `AJoinHidesThePast` is a run where they do not.

## Model

| member | source | states |
|---|---|---|
| `P2pRoom.Room.Join` | apps/call-service/src/p2p.rs:168-210 | The in-place join yields the room and the outcome of the closed form, and keeps at most two seats, of distinct users and one group |
| `P2pRoom.Room.Resume` | apps/call-service/src/p2p.rs:214-250 | The in-place resume yields the room and the outcome of the closed form and keeps the room well formed |
| `P2pRoom.Room.MarkAbsent` | apps/call-service/src/p2p.rs:255-268 | A lost socket's seat becomes absent as the closed form says; the flag of the past is untouched |
| `P2pRoom.Room.Expire` | apps/call-service/src/p2p.rs:273-286 | The expiry of a grace period frees the seat the closed form frees and names the same remaining peer |
| `P2pRoom.Room.Leave` | apps/call-service/src/p2p.rs:292-303 | A hangup frees the seat the closed form frees and names the same remaining peer |
| `P2pRoom.Room.PartnerOf` | apps/call-service/src/p2p.rs:307-316 | The partner found is the closed form's |
| `Seating.OperationsKeepValid` | apps/call-service/src/p2p.rs:146-152 | Every room operation keeps at most two seats, of distinct users and one group, and the flag set whenever both are present |
| `Seating.JoinAdmission` | apps/call-service/src/p2p.rs:168-192 | A join is refused exactly when the room holds another group or two users other than the joiner, and then changes nothing |
| `Seating.JoinReplacesSiblings` | apps/call-service/src/p2p.rs:168-210 | An admitted joiner sits last, the seats of other users stay as they were and in order, and the evicted are exactly its own user's devices |
| `Seating.ResumeKeepsThePlace` | apps/call-service/src/p2p.rs:214-250 | A resume succeeds exactly on a seat of that id, user and group; no seat changes index, user or group, and the other seat is untouched |
| `Seating.AResumeGivesTheSeatBack` | apps/call-service/src/p2p.rs:214-250 | The seat asked back becomes the newcomer's, present, in its place; the peer that held it is answered iff it was still present; the partner is answered as alone with the room's past, away, or present with roles and past |
| `Seating.AJoinIsAnsweredByThePartner` | apps/call-service/src/p2p.rs:199-209 | An admitted join waits iff no other user sits there, pairs with the other user's seat iff that is present, and finds it away otherwise |
| `Seating.EndingsNameTheOther` | apps/call-service/src/p2p.rs:255-303 | A lost socket, an expiry and a hangup answer whether they found their seat and name the other party iff it is present |
| `Seating.MarkAbsentMovesNothing` | apps/call-service/src/p2p.rs:255-268 | Only the present seat of that id becomes absent, in place |
| `Seating.ExpireFreesOnlyThatAbsentSeat` | apps/call-service/src/p2p.rs:273-286 | A grace period's end frees the absent seat of its own id and no other, so never a resumed one |
| `Seating.LeaveFreesOnlyThatSeat` | apps/call-service/src/p2p.rs:292-303 | A hangup frees the seat of its own id, present or absent, and no other |
| `Seating.PartnerIsTheOtherPresentSeat` | apps/call-service/src/p2p.rs:307-316 | The partner is the other seat, present, of a distinct user and the same group; nobody exactly when the sender is out, alone or its partner is away |
| `RoomMap.HandlersKeepRoomsOk` | apps/call-service/src/main.rs:2177-2242 | No handler leaves an empty or ill-formed room in the map |
| `RoomMap.FlagIsHistory` | apps/call-service/src/p2p.rs:193-240 | Along any trace of the map, a room's flag is set exactly when the room held both parties present since it was last created |
| `CallService.ApplyKeepsInv` | apps/call-service/src/main.rs:1885-2242 | Every handler keeps the agreement between the rooms, the sockets, their records and what each peer was last told |
| `CallService.ToldTheTruth` | apps/call-service/src/main.rs:1885-2242 | In every run a present seat was last told `PeerReady` iff the other seat is present, `PeerAway` iff it is held but absent, `PeerLeft` or nothing iff there is none; its socket is open and unended |
| `CallService.RolesAreOpposite` | apps/call-service/src/main.rs:1994-2019 | In every run two present seats were last told opposite roles, the first seat the initiator's, and agree on `resumed` |
| `CallHistory.PairedOnceIsHistory` | apps/call-service/src/p2p.rs:193-250 | In every run a room's flag says exactly whether it held both parties present since it was created |
| `CallHistory.ResumedIsHistory` | apps/call-service/src/main.rs:2149-2172 | A resume that finds its partner present tells both `resumed` exactly when the room held both present before |
| `CallHistory.JoinedIsHistoryIff` | apps/call-service/src/main.rs:1982-1990 | A join that pairs tells both parties `resumed: false`, whatever the past; that is the room's history iff the room's flag is unset before the join, that is iff it never held both present |
| `CallHistory.AJoinHidesThePast` | apps/call-service/src/main.rs:1982-1990 | A caller, a callee and the callee's second device: the room held both parties, and the caller is last told the pairing is not resumed |
| `CallEndings.TheFirstCauseStands` | apps/call-service/src/main.rs:461-473 | Once a record names the cause of an end, every continuation of the run leaves that cause |
| `CallEndings.TheSeatSurvivesTheNetworkOnly` | apps/call-service/src/main.rs:339-349 | When the socket of a present seat ends, the seat stays in place, absent, iff the network failed it, and is freed otherwise, its room too if it was the last; the record names the cause and the other seat is untouched |
| `CallEndings.ARefusalIsOnlyAnswered` | apps/call-service/src/main.rs:1911-1943 | A refused join or resume appends one refusal to the asker's inbox and changes nothing else in the service |
| `CallEndings.TheEvictedIsToldItIsOut` | apps/call-service/src/main.rs:1957-1965 | A present device whose user joins with another is told `PeerLeft`, and its record says a sibling evicted it |
| `CallEndings.TheReplacedIsToldToClose` | apps/call-service/src/main.rs:2139-2144 | A live socket whose seat is resumed elsewhere is told to shut down, and its record says it was resumed |
| `CallRelay.RelayConfined` | apps/call-service/src/main.rs:2269-2353 | A relayed frame reaches only the one other present seat, of a distinct user with the same group, on an open socket whose record names no end; nobody else's inbox changes |
| `CallFrames.ARelayArrives` | apps/call-service/src/main.rs:2325-2328 | In every run a frame relayed while both parties are present is added, once, to the other one's inbox and to no other |
| `CallFrames.EverybodyHearsWhatIsDue` | apps/call-service/src/main.rs:1885-2372 | In every run every event adds to each inbox exactly the frames its receiver is due by the seats of the room, in their order: confirmations, refusals, roles, absences, departures, shutdowns and relays, and nothing to anybody else |
| `CallFailures.FailuresAreWhatWentNowhere` | apps/call-service/src/main.rs:2293-2305 | In every run a record's failed candidates are exactly those its socket sent while seated with nobody present to take them, modulo 32 bits |
| `CallRelay.FramesAreConserved` | apps/call-service/src/p2p.rs:363-379 | In every run the offers, answers and candidates counted in over all ledgers equal those counted out, modulo the 32-bit counters |
| `CallCounts.OutCountersAreTheFrames` | apps/call-service/src/p2p.rs:363-379 | In every run each socket's record counts out, kind by kind, exactly the relayed frames in its inbox, modulo 32 bits |
| `CallCounts.InCountersAreTheFrames` | apps/call-service/src/p2p.rs:363-379 | In every run each socket's record counts in, kind by kind, exactly the frames it sent that are in any inbox, modulo 32 bits |
| `CallSeats.DoKeepsInv` | apps/call-service/src/main.rs:2215-2220 | Every acquisition of a room's lock, in any interleaving, also between freeing a seat and asking whether the room is empty, keeps every seat owned, every object of a room empty unless mapped, and every timer matched to an ended task |
| `CallSeats.AskEmptyKeepsInv` | apps/call-service/src/main.rs:2360-2363 | Whatever stale handles did since the seat was freed, the entry of an empty room goes and that of any other stays |
| `CallSeats.EverySeatIsOwnedOnce` | apps/call-service/src/main.rs:1178-1190 | In every reachable world a present seat belongs to one live loop and no timer; an absent one to one grace timer or to the socket task about to spawn it, never both |
| `CallSeats.NoSocketHoldsTwoSeats` | apps/call-service/src/main.rs:1003 | No socket holds two seats, in one room or in two |
| `CallSeats.TimersSpareResumedSeats` | apps/call-service/src/main.rs:2215-2242 | A timer that fires frees exactly the absent seat of its own peer; while another handler guards the room's entry it waits |
| `CallSeats.RemovedRoomsStayEmpty` | apps/call-service/src/main.rs:2215-2220 | A room taken out of the map is empty and stays unmapped and empty in every continuation |
| `CallSeats.AtRestTheMapIsEmpty` | apps/call-service/src/main.rs:2358-2372 | Once every socket task has ended, every timer has fired and no handler is at work, no room is mapped and no seat is left |
| `CallDrain.EveryStepOnIsProgress` | apps/call-service/src/main.rs:2178-2372 | Every step that goes on with a handler, a timer or an ending socket leaves strictly less to do |
| `CallDrain.SomethingGoesOn` | apps/call-service/src/main.rs:2178-2372 | While a task has not ended, a timer has not fired or a handler is at work, some such step is possible |
| `CallDrain.EveryWorldRunsDown` | apps/call-service/src/main.rs:2178-2372 | So from every world of the invariant there is a run to rest, where no room is mapped and no seat held |
| `CallAtomic.ResumeDecisionIsAtomic` | apps/call-service/src/main.rs:2108-2130 | A resume decides under the room's lock what the map would have decided at that instant, whatever happened since the look-up |
| `CallAtomic.MarkDecisionIsAtomic` | apps/call-service/src/main.rs:2178-2188 | So does a lost socket that marks its seat absent |
| `CallAtomic.RelayDecisionIsAtomic` | apps/call-service/src/main.rs:2284-2293 | So does a relay that looks for the partner |
| `CallAtomic.EveryStepIsAtomic` | apps/call-service/src/main.rs:1906-1909 | Every fine-grained step changes the map as one atomic handler does, or not at all |
| `CallAtomic.EveryRunIsAtomic` | apps/call-service/src/main.rs:2358-2363 | Every run of the fine-grained system ends in the map of a run of atomic handlers |
| `CallRefinement.EveryRunIsTheServices` | apps/call-service/src/main.rs:1885-2372 | Every run of the fine-grained system is a run of the service of single-step handlers, relays and refused resumes included: the same sockets, users, rooms and lives, and the same room map as a handler sees it |
| `CallRefinement.ARelayFindsTheServicesPartner` | apps/call-service/src/main.rs:2284-2313 | In every run the partner a relay finds under its room's lock, however stale its handle, is the one the service passes its frame to |
| `CallRefinement.WhatIsAskedIsHandled` | apps/call-service/src/main.rs:1906-2293 | A relay and a resume in a mapped, unguarded room take a look-up and a lock and are then the service's event; a join is it at once |
| `SessionStore.DeviceStore.WriteSession` | apps/chat-gateway/src/addressing.rs:180-198 | The write script, key by key, yields the closed form; any answer but success leaves every key as it was |
| `SessionStore.DeviceStore.LeaveSession` | apps/chat-gateway/src/addressing.rs:208-223 | The leave script, key by key, yields the closed form, the presence going only with the last live session |
| `SessionStore.DeviceStore.AnyLive` | apps/chat-gateway/src/addressing.rs:218-221 | Finds a live field exactly when there is one |
| `SessionStore.RefusedChangesNothing` | apps/chat-gateway/src/addressing.rs:180-223 | A refused script changes nothing; a write succeeds exactly when its arguments are in order and its session has not left |
| `SessionStore.WhatAWriteLeaves` | apps/chat-gateway/src/addressing.rs:191-197 | A write that is taken leaves in each hash the value given for that hash, for one ttl, and the presence this gateway's unless an older `true` lives; every other field and key is untouched |
| `SessionStore.OlderPresenceIsKept` | apps/chat-gateway/src/addressing.rs:194-221 | Neither script changes or deletes an older gateway's living `true` |
| `SessionStore.RefreshAfterRetirement` | apps/chat-gateway/src/addressing.rs:191-196 | A refresh of a retired session writes nothing until one ttl after the retirement, and from then on writes it again |
| `SessionStore.PresenceGoesWithTheLastSession` | apps/chat-gateway/src/addressing.rs:213-221 | A retirement deletes the presence and the client declaration exactly when no other session lives and no older gateway's `true` does; the other sessions are untouched |
| `SessionRuns.RunKeepsInv` | apps/chat-gateway/src/addressing.rs:180-223 | Over every interleaving with late refreshes in time, retired sessions are gone from both hashes and their names held |
| `SessionRuns.RetiredIsNeverBroughtBack` | apps/chat-gateway/src/handlers.rs:117-191 | A retired session is in neither hash ever again, however many refreshes were in flight |
| `SessionRuns.AllRetiredLeavesNothing` | apps/chat-gateway/src/handlers.rs:117-191 | Once every session that wrote has retired, no field, no twin and no presence is left but one an older gateway wrote |
| `SessionRuns.ALateRefreshBringsItBack` | apps/chat-gateway/src/addressing.rs:191-196 | The bound is exact: a refresh a full ttl late brings its session back |
| `SessionRuns.TwinsAgree` | apps/chat-gateway/src/addressing.rs:192-193 | In every run the two hashes hold the same fields with equal expiries, each value its hash's capability or the undeclared marker |
| `SessionRuns.TheFieldsAreTheDeclaration` | apps/chat-gateway/src/addressing.rs:180-223 | In every run, older gateways and late refreshes included, a session's two fields are there iff it declared itself since it was last retired, not within 90 s of that; they hold `addressed-history-1` and `join-ask-1` as it last declared, else `-`, until 90 s after |
| `SessionRuns.LiveFieldsAreCovered` | apps/chat-gateway/src/addressing.rs:192-196 | With no older gateway, a live field means the presence key holds `sessions-1` and expires no earlier |
| `SessionRuns.OlderTrueSurvivesThisGateway` | apps/chat-gateway/src/addressing.rs:194-221 | No event of this gateway changes an older one's living `true` |
| `Heartbeat.SendTask` | apps/chat-gateway/src/handlers.rs:477-512 | The ping loop closes the socket at least 60 s and at most 75 s after the client was last heard, exactly 60 s only if that frame was served at a ping's own instant before it, and never while its silences are shorter |
| `Heartbeat.Hear` | apps/chat-gateway/src/handlers.rs:530-549 | Takes exactly the frames served before the ping, those of its own instant in either order |
| `Heartbeat.AnOpenSocketIsPresent` | apps/chat-gateway/src/handlers.rs:385-405 | Whatever other sessions do, an open socket's two fields are live and its device present, since 75 s and the start of its tasks fit inside the ttl |
| `Heartbeat.ThePhasesOfASocket` | apps/chat-gateway/src/handlers.rs:477-549 | Pings come 15 s apart, each one more unanswered until the fifth closes; a frame leaves none unanswered and refreshes the session at once |
| `Heartbeat.TheClosingPingIsInTime` | apps/chat-gateway/src/handlers.rs:20-30 | The ping that closes a socket comes 60 to 75 s after its last refresh, and its tasks' lead, while its fields still live |
| `CensusMerge.Partition` | apps/chat-gateway/src/census.rs:263-265 | Splits the cells into the residue and the others, each in order |
| `CensusMerge.FoldOverflow` | apps/chat-gateway/src/census.rs:273-282 | The residue gains the sums of devices and users of the overflow |
| `CensusMerge.BoundGroups` | apps/chat-gateway/src/census.rs:258-286 | The bounding loop yields the closed form whose laws follow |
| `CensusMerge.MergeMax` | apps/chat-gateway/src/census.rs:233-254 | The fold by loops over both lists yields the maximum of totals and the bounded maximum of cells |
| `Census.BoundLaws` | apps/chat-gateway/src/census.rs:258-286 | Bounding distinct cells keeps min(n, cap) of them, distinct and in canonical order, and preserves the sums of devices and of users |
| `Census.BoundKeepsTheLargest` | apps/chat-gateway/src/census.rs:266-272 | No cell folded away has more devices than one that was kept, nor as many and a smaller platform, nor the same platform and a smaller version; kept cells are unchanged |
| `Census.BoundIsInOrder` | apps/chat-gateway/src/census.rs:218-226 | The answer is listed by platform, within one by devices descending, and of equal devices by version |
| `Sorting.StringLeIsLexicographic` | apps/chat-gateway/src/census.rs:219-226 | The order of platforms and versions is the lexicographic one, prefixes first |
| `CensusMerge.BoundOrderFree` | apps/chat-gateway/src/census.rs:258-286 | The result depends on the cells alone, not on the order they came in |
| `CensusMerge.MergeIsPointwiseMax` | apps/chat-gateway/src/census.rs:228-254 | While the union of cells fits the cap, the fold is the pointwise maximum in canonical order |
| `CensusMerge.MergeCommutes` | apps/chat-gateway/src/census.rs:228-254 | The fold is commutative whatever the cap |
| `CensusGroupings.MergeAssociates` | apps/chat-gateway/src/census.rs:228-254 | Its totals, the cells it names and their devices are associative whatever the cap, the whole census while the union of the three fits |
| `CensusMerge.MergeIsIdempotent` | apps/chat-gateway/src/census.rs:228-254 | Folding the same census twice changes nothing while the union fits |
| `CensusOverflow.FoldTwiceIff` | apps/chat-gateway/src/census.rs:228-286 | For every cap of at least one, folding a census again changes nothing iff the union of cells fits the cap, or every cell of that census that neither is the residue nor ranks among the first of the union counts nothing |
| `CensusOverflow.AReplayPastTheCapCountsAgain` | apps/chat-gateway/src/census.rs:258-286 | A census of more cells than the cap, each counting a device, is counted again by a replay |
| `CensusOverflow.AReplayWithinTheCapCountsAgain` | apps/chat-gateway/src/census.rs:258-286 | A minute of one new, counted cell smaller than every cell of a full bucket is counted again by a replay, both censuses within the cap |
| `CensusOverflow.ASampledMinuteIsCountedTwice` | apps/chat-gateway/src/census.rs:740-750 | Such a bucket and minute at the cap of 64, each with one group per cell |
| `CensusOverflow.RegroupedReplayIff` | apps/chat-gateway/src/census.rs:228-286 | A census folded twice in a row, or with itself first: the two agree iff the union fits the cap, or every cell of that census that neither is the residue nor ranks among the first of the union counts nothing |
| `CensusLeaders.CutKeepsTheLeaders` | apps/chat-gateway/src/census.rs:256-286 | Past the cap exactly the cells that fewer than cap - 1 others rank ahead of stay, unchanged, beside the residue |
| `CensusLeaders.MaxStandsForMax` | apps/chat-gateway/src/census.rs:233-254 | What holds the leaders of two maps with their devices, raised to its maximum, holds the leaders of the maps' maximum with theirs |
| `CensusLeaders.FoldTops` | apps/chat-gateway/src/census.rs:228-286 | One fold of what stands for two unions is their maximum where that fits the cap, and otherwise the maximum's leaders with their exact devices and the residue, nothing else |
| `CensusPastTheCap.AssociationFailsPastTheCap` | apps/chat-gateway/src/census.rs:228-286 | With a full bucket and a newcomer folded twice, one after the other or with itself first, the residue is 7 or 5; every other cell is the same |
| `CensusPastTheCap.OrderShowsPastTheCap` | apps/chat-gateway/src/census.rs:229-231 | A newcomer folded away and back, or the other way round: residues of 8 and 6, users of 1 and 2; the cells named and their devices are the same |
| `CensusPeaks.PeakIsLeast` | apps/chat-gateway/src/census.rs:228-232 | The maximum of some censuses is the least that lies above all of them |
| `CensusPeaks.FoldTotals` | apps/chat-gateway/src/census.rs:233-254 | A run of folds has as totals the maxima over everything folded, whatever the cap |
| `CensusPeaks.FoldCells` | apps/chat-gateway/src/census.rs:233-286 | Its cells are the maxima, in canonical order, while their union fits the cap; past it they are exactly the union's leaders, with the union's device counts and no more than its users, and the residue |
| `CensusPeaks.AnyOrderAgrees` | apps/chat-gateway/src/census.rs:229-231 | The same minutes in any order, each as often as one likes, give the same totals, the same named cells and the same devices whatever the cap, and the same census while the cells fit |
| `CensusGroupings.GroupingStands` | apps/chat-gateway/src/census.rs:228-286 | In every grouping of folds the leaders of the union stand with their exact devices, and nothing else does but the residue |
| `CensusGroupings.EveryGroupingAgrees` | apps/chat-gateway/src/census.rs:228-286 | Any two groupings of the same censuses agree on the totals, the named cells and their devices whatever the cap; their residues differ exactly as the sums over their cells do |
| `CensusGroupings.UsersAreOfThePeak` | apps/chat-gateway/src/census.rs:241-242 | In every grouping the users of a leader lie between those it had where its devices peaked and its own peak |
| `CensusSums.MergeWeighs` | apps/chat-gateway/src/census.rs:256-257 | Whatever the cap, the sums over a fold's cells are at least those of either census |
| `CensusSums.FoldWeighs` | apps/chat-gateway/src/census.rs:256-257 | And those of a run of folds at least those of every census folded |
| `CensusRollup.RollupMax` | apps/chat-gateway/src/census.rs:543-559 | The roll-up lists its buckets oldest first, one sample per bucket |
| `CensusRollup.BucketIsTheLastMultiple` | apps/chat-gateway/src/census.rs:543-546 | A sample's bucket starts at the last multiple of the step not after it |
| `CensusRollup.RollByBucket` | apps/chat-gateway/src/census.rs:543-559 | A bucket is the run of folds over its samples; a bucket nobody sampled has no entry |
| `CensusRollup.FineEntriesStandForSamples` | apps/chat-gateway/src/census.rs:543-576 | The fine entries of a coarse bucket have the totals of its samples and hold the leaders of their cells with their devices |
| `CensusRollup.RollupsCompose` | apps/chat-gateway/src/census.rs:543-576 | Rolling up to 300 s and then to 1800 s gives the buckets, the totals, the named cells and their devices of rolling up to 1800 s directly, always, and the whole census where the union of cells fits the cap or one fine bucket holds all |
| `CensusRollup.RollupsAgree` | apps/chat-gateway/src/census.rs:543-576 | The two answers list the same buckets with the same totals, named cells and devices, always; under the cap they are the same list |
| `CensusRollup.RollupsBoundEverySample` | apps/chat-gateway/src/census.rs:543-576 | Past the cap too, rolled up directly or in two stages, the sums over the cells of a sample's bucket are at least the sample's own |
| `CensusRollup.StagesShowPastTheCap` | apps/chat-gateway/src/census.rs:543-576 | A full bucket and, five minutes later, the same newcomer twice: the residue is 7 rolled up directly and 5 through 300 s; every other cell is the same |
| `CensusSeries.Series.RecordSample` | apps/chat-gateway/src/census.rs:387-406 | The script, command by command, yields the closed form, its error and its refusal leaving the key as it was |
| `CensusSeries.WhatTheScriptAnswers` | apps/chat-gateway/src/census.rs:387-406 | The script fails exactly on bad arguments and refuses exactly a skewed minute, changing nothing; otherwise nothing past the retention is left and the minute is held |
| `CensusSeries.FirstWriterWins` | apps/chat-gateway/src/census.rs:378-406 | An attempt writes its minute iff it is within one interval of the store's clock and the first such; a later one finds it taken; a skewed one is refused and neither stores nor trims |
| `CensusSeries.AReadIsTheHistory` | apps/chat-gateway/src/census.rs:373-499 | A read answers, oldest first, the first acceptable sample of every minute of its window that is still left, scripts between its two commands included; that is the whole window iff no minute of it is gone, and always while the window and the delay fit the retention |
| `CensusSeries.ADaysReadCanMissAMinute` | apps/chat-gateway/src/census.rs:468-486 | A day's read whose clock is a second old when a script trims misses its oldest minute |
| `CensusCoarse.CoarseSeries.Swap` | apps/chat-gateway/src/census.rs:584-601 | The script writes, trims and renews exactly when the score still holds what the caller read, and otherwise changes nothing |
| `CensusCoarse.WhatASwapLeaves` | apps/chat-gateway/src/census.rs:595-599 | A swap that is taken holds its payload at the score unless that is past the retention, keeps every other member that is not, and expires an hour past the retention |
| `CensusCoarse.AFoldBegins` | apps/chat-gateway/src/census.rs:603-631 | A fold of an accepted minute begins at its first of five attempts, reading |
| `CensusCoarse.AFoldLeftAloneSucceeds` | apps/chat-gateway/src/census.rs:630-674 | A fold that nobody comes in between reads, swaps and succeeds: its minute is the last of its bucket's successes |
| `CensusCoarse.RunKeepsInv` | apps/chat-gateway/src/census.rs:622-687 | Over every interleaving of replicas, members, successes and the store's clock stay in agreement |
| `CensusCoarse.AtMostOneMember` | apps/chat-gateway/src/census.rs:580-601 | In every run a bucket holds at most one member |
| `CensusCoarse.ALostRaceWasWon` | apps/chat-gateway/src/census.rs:592-681 | In every run a lost compare-and-swap writes nothing and reports no success, was lost to a fold of the same bucket that succeeded after the loser read it unless the bucket is past its retention, and the next attempt reads what won |
| `CensusCoarse.SuccessesAreListedOnce` | apps/chat-gateway/src/census.rs:665-687 | The folds counted are exactly those that reported success, each once |
| `CensusCoarse.GivesUpAfterFiveRaces` | apps/chat-gateway/src/census.rs:603-687 | A fold gives up exactly when it has lost five races of the run |
| `CensusCoarse.TotalsAreTheMaximum` | apps/chat-gateway/src/census.rs:606-687 | While a bucket is retained it has a live member iff some fold of it succeeded, and its totals are the maxima over every fold that did |
| `CensusCoarse.CellsAreTheMaximum` | apps/chat-gateway/src/census.rs:606-687 | In every run, the minutes having one group per cell, a member's cells are the maxima over the folds that succeeded: all of them while their union fits the cap, and past it exactly the union's leaders with its device counts, beside the residue |
| `CensusCoarse.SumsAreUpperBounds` | apps/chat-gateway/src/census.rs:256-257 | Whatever the cap, the sums over a member's cells are at least those of every minute folded into it, the minutes having one group per cell |
| `IceBuffer.PeerIce.ApplyCandidate` | apps/call-service/src/main.rs:2672-2711 | A candidate is handed on, buffered, ignored as an early end mark, or lost with the full buffer, as the closed form says |
| `IceBuffer.PeerIce.SetRemoteDescription` | apps/call-service/src/main.rs:1696-1704 | A valid description is followed by the flush; an invalid one changes nothing |
| `IceBuffer.PeerIce.FlushPending` | apps/call-service/src/main.rs:2714-2735 | Everything buffered is handed to the agent in order, and each refusal counted |
| `IceBuffer.NothingIsLostSilently` | apps/call-service/src/main.rs:2672-2735 | In every run the arrivals are the cleared blocks of 201, then what the agent was handed in arrival order, then at most 200 still buffered; none is handed before the description and none waits after it |
| `IceBuffer.TheAgentIsHandedTheRest` | apps/call-service/src/main.rs:2672-2735 | In every run the agent was handed, once a valid description came and not before, what the cleared blocks left of the earlier candidates and then everything later, end marks included, in order |
| `IceBuffer.FailuresCountTwoHundredPerBlock` | apps/call-service/src/main.rs:2678-2693 | The failure counter is the agent's refusals plus 200 for every cleared block, modulo 32 bits |
| `IceBuffer.OverflowsAreBlocks` | apps/call-service/src/main.rs:2682-2693 | The cap clears its buffer once for every 201 candidates that came before the description |
| `IceBuffer.FailuresAreRightIff` | apps/call-service/src/main.rs:2678-2693 | The failure counter counts every dropped candidate iff the number of cleared blocks is a multiple of 2^32; below 201 times 2^32 early candidates, iff fewer than 201 came |
| `IceBuffer.TwoHundredAndOneAreCountedShort` | apps/call-service/src/main.rs:2682-2693 | A run of 201 early candidates loses them all and counts 200 |
| `IceBuffer.BufferedCountsTheEarly` | apps/call-service/src/main.rs:2694-2698 | The buffered counter is the candidates that came before the description, less one per cleared block, modulo 32 bits |
| `SocketLiveness.Watch` | apps/call-service/src/main.rs:1140-1154 | The loop ends the socket at the first tick that finds two pings sent since the last frame, and at no other |
| `SocketLiveness.HeldDeadInTime` | apps/call-service/src/main.rs:90-93 | A socket held dead was pinged at the two ticks before with nothing heard since, its last frame two to three periods back, more than two unless a ping shares its instant |
| `SocketLiveness.DeadAfterExactlyTwoPeriods` | apps/call-service/src/main.rs:1146-1154 | A run whose last frame shares its instant with the ping after it, held dead exactly two periods later |
| `SocketLiveness.SurvivorsWereHeard` | apps/call-service/src/main.rs:1146-1154 | A socket that passes a tick was heard, or connected, at most two periods before |
| `SocketLiveness.LimitRate` | apps/call-service/src/main.rs:1039-1051 | Any hundred and one dispatched frames span more than a second; a socket is closed only on the last of fifty-one frames within a second |
| `SocketLiveness.RateBounds` | apps/call-service/src/main.rs:1041-1051 | The same of the counter itself, with the window it keeps |
| `SocketLiveness.FiftyOnePassIff` | apps/call-service/src/main.rs:1041-1051 | The last of fifty-one frames within a second passes iff one of the last fifty found the socket open and its window over, and started a new one |
| `SocketLiveness.AHundredCanPass` | apps/call-service/src/main.rs:1041-1051 | The bound of a hundred is reached |
| `Renegotiation.RunKeepsInv` | apps/call-service/src/main.rs:2434-2509 | Every interleaving of schedules, wakings, offers and departures keeps timers, generations and the log in agreement |
| `Renegotiation.EveryScheduleIsServed` | apps/call-service/src/main.rs:2434-2468 | Every schedule is followed by an offer attempt, or by the peer being found gone, unless that peer's newest timer is still pending |
| `Renegotiation.AScheduleAddsTheNewest` | apps/call-service/src/main.rs:2434-2443 | A schedule adds the newest timer of its peer, to be started, and leaves every other as it was |
| `Renegotiation.OffersAreOfTheNewest` | apps/call-service/src/main.rs:2446-2456 | Only a timer that woke as its peer's newest, a debounce after every schedule before it, goes on to an offer |
| `Renegotiation.WakingsAreADebounceApart` | apps/call-service/src/main.rs:2444-2456 | Two timers of one peer that go on to an offer woke at least 300 ms apart |
| `Renegotiation.AWakingDecides` | apps/call-service/src/main.rs:2446-2454 | A timer that wakes goes on iff no later one of its peer was scheduled, and otherwise stops with no trace |
| `Renegotiation.ATimerSleepsForTheDebounce` | apps/call-service/src/main.rs:2443-2444 | A started timer may wake exactly from 300 ms on, whatever happens meanwhile |
| `Renegotiation.TheNewestTimerServes` | apps/call-service/src/main.rs:2443-2464 | The newest timer of a peer, started, left to sleep, woken and gone on, makes its attempt or finds the peer gone |
| `Renegotiation.AnOfferIsDroppedOnlyForTheGone` | apps/call-service/src/main.rs:2456-2464 | A timer that goes on makes its attempt exactly when its peer is in the room, and records it once |
| `CommitLogHoles.ReportIsTheHoles` | apps/chat-delivery-service/src/app.controller.ts:1093-1127 | A group with recorded commits is reported iff some epoch from the oldest retained to its head has no row; the first hole is the least such epoch, the missing count is exact, and the date is that of the commit just before |
| `CommitLogHoles.NothingToReport` | apps/chat-delivery-service/src/app.controller.ts:1096-1115 | A deleted or unknown group, or one with no commit below its head, is never reported |
| `CommitLogHoles.GapsAreMarked` | apps/chat-delivery-service/src/app.controller.ts:1100-1105 | Under three-valued logic a row is marked exactly when the epoch after it is below the head and has no row, the last row included |
| `ReplacementOrder.OrderServices` | infrastructure/lib/replace-modes.py:127-139 | The loop ends with an order exactly when the dependencies inside the file have no cycle; the order is by rank, then name; otherwise it names exactly the services whose dependencies lead to a cycle |
| `ReplacementOrder.BothFormsAreRead` | infrastructure/lib/replace-modes.py:66-69 | The names of a list and of a mapping are both read, in order; nothing else is |
| `ReplacementOrder.OrderIsTopological` | infrastructure/lib/replace-modes.py:127-139 | In such an order every service of the file appears once, after everything the file lists or maps under its `depends_on` |
| `ReplacementOrder.OrderIsUnique` | infrastructure/lib/replace-modes.py:127-128 | The file alone decides the order |
| `ReplacementOrder.StuckHasACycle` | infrastructure/lib/replace-modes.py:132-134 | Where nothing is ready, the services left hold a cycle of dependencies |

## Left out

- Media: peer connections, forwarding of packets, keyframe timers and the choice of relay servers are foreign calls.
- SFU rooms and the check that a room has one mode: both are a check followed by a separate act, so no whole-run claim holds.
- Tokens: signing and verification are inputs, and issuing a resume token never fails; cookies and query parsing are not modelled.
- Delivery: a frame given to an open socket is never dropped in `CallService`; the source drops one on a full queue. A handler's frames are sent at the moment its decision takes effect; the source sends them after it has released the lock.
- Locks: a poisoned lock and its recovery are not modelled.
- `partner_is_away`: used for one log line only.
- Disconnections of an SFU peer and the renegotiation media calls: an offer attempt is one event, and its success is not modelled.
- Generations and the totals of a census are unbounded here; the source keeps them in 64 bits.
- Keepalive: ticks are served on time and Redis answers at once; a write that fails or is not taken, and a tick after the record was ended, end the loop in ways not modelled here.
- The lifetime of the client declaration key, which is written outside the session script.
- Capability parsing and the filter of deliverable sessions: single-branch pure functions.
- Counting a population into a census, client declarations and their encoding: the census enters as a value.
- Unreadable members of a series: every member is one this code wrote.
- The gate of chat-delivery on the session hashes, the other cron jobs and reports, and the order of the report lines.
- The refusals of a compose file, the proxy rotation labels and the deploy script around the order.
- CORS, drain, health, configuration and the user interfaces.
- P2pRoom.Room.Join: requires that a seat with the joiner's id is of the joiner's user, which holds since ids are random and carry the user.
- P2pRoom.Room.Resume: requires that the newcomer's id holds no seat yet, which holds since ids are random.
