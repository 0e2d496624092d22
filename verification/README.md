# Maturana: verified core

Maturana runs software agents. This project models the four places where its host software must not lose,
repeat or overspend anything, and proves what they keep, over every input, every interleaving and every crash.

* **The graph store** (`GraphModel`, `WalLog`, `Durability`, `CodecModel`, `Traversal`, `GraphStore`). A property graph with
  three derived indexes, a write-ahead log and atomic snapshots. The log is modelled byte by byte and the disk as
  a state machine that may die between any two actions or in the middle of an append. `GraphStore.Store` is the
  object itself; each of its calls is proved to be a run of that machine.
* **The board and the goal run** (`BoardModel`, `BoardValidate`, `BoardEdits`, `BoardRun`, `BoardDispatch`,
  `Budget`, `GoalRun`, `PlanExecution`). A dependency graph checked by a three-colour search, a dispatch loop with
  priorities, parallelism, retries and goal rounds, and a plan runner under a turn budget with an admission check.
  Worker replies, judge verdicts, errors, aborts and the clock are arbitrary inputs.
* **The session queue and delivery** (`SessionQueue`, `Delivery`). A leased work queue with retries, back-off,
  dead letters and cancel flags as a timed state machine, and the claim/finalise/unclaim protocol shared by
  several deliverers, with crashes and failed writes anywhere.
* **The chunker** (`Words`, `Chunker`). Splitting a document into chunks near a target size.

`Text` holds the few facts about characters they share. Code that changes things step by step in the original is
a class or a method with loops here, proved against functions whose own properties are the lemmas below.

## Where the code and its promises differ

The model follows the code. Each difference has a witness and the exact condition.

* `wal.rs` promises that a torn tail and an un-truncated log are harmless. Replaying a log that the snapshot
  contains is (`GraphModel.LogIdempotent`). A torn tail is not: opening does not repair it, so the next record lands
  on the same line and is lost after the next restart, acknowledged or not. A power loss that costs one newline is
  enough (`Durability.UnterminatedLogIsReached`); every later write is kept if and only if the log ends in a newline
  (`Durability.NextCallSurvivesIff`, `Durability.AllLaterRunsSurviveIffClean`). A snapshot renamed over such a log is
  rolled back by the readable prefix (`Durability.SnapshotOverGluedLogRollsBack`). A cut inside a multi-byte
  character makes opening fail for good instead of being skipped (`Durability.CutCharacterIsFatal`,
  `CodecModel.StoreCanBecomeUnopenable`).
* A fsync'd record is to be safe. JSON has no infinity: an edge weight of `1e39` arrives as an infinite float, is
  acknowledged, and is written as `null`, which does not parse. On a log that ends in a newline the next
  acknowledged mutation survives if and only if all its floats are finite (`Durability.NextCallSurvivesIff`); one
  that is not hides itself and everything behind it until a snapshot (`Durability.UnencodableHidesTheRest`), and in
  a snapshot it makes the store unopenable (`Durability.UnencodableSnapshotIsFatal`).
* The admission check is to keep a run from dying mid-plan. Under given caps it does if and only if a plan of that
  size is refused or payable, both after one planning turn and after two (`GoalRun.AdmissionSoundIff`); a review
  round costs two turns, not the one the formula counts. `max_replans >= 1` is enough
  (`GoalRun.FormulaCoversIsEnough`); six steps, two cycles, no re-plan and 21 turns are not
  (`GoalRun.AdmissionCanFail`). Both callers start from the default caps and tighten them
  (crates/maturana-cli/src/orchestrate.rs:446, 1425), and an override cannot name re-plans, so `max_replans == 0`
  reaches the check only through the public type.
* A dead-lettered request is to be answered always. It goes unanswered if and only if its lease runs out between
  the query that lists the dead and the update that buries them, or the notice cannot be written
  (`SessionQueue.UnansweredIff`, `SessionQueue.GapLosesTheAnswer`).
* A cancel flag is to end with its turn. It ends with a completion only, so a message whose lease ran out is handed
  out already cancelled (`SessionQueue.FlagOutlivesItsTurn`), if and only if a cancel request met it in flight before
  and nobody completed it since (`SessionQueue.HandOutStartsFlaggedIff`).
* A claimed reply is to be retried if it was not sent. A deliverer that dies between claim and send takes it along:
  it is never listed and never sent (`Delivery.CrashLosesTheMessage`). Delivery is at most once, not at least once;
  a message stays unlisted if and only if nobody holds it unsent (`Delivery.NeverListedAgainIff`).
* Board ids are to be unique. They come from a 32-bit counter; the next id is new if and only if the counter has not
  wrapped onto an existing `c0` (`BoardEdits.NextIdFreshIff`, `BoardEdits.NextIdCanCollide`). A removed highest id is
  issued again (`BoardEdits.IdIsReissued`).

## Model

| member | source | states |
|---|---|---|
| GraphModel.EffectiveIdIsStable | crates/maturana-graph/src/model.rs:84-96 | a caller's id is kept, a blank one becomes source, type and target; the id an edge is logged under is the id a replay resolves to, and is never blank |
| GraphModel.DerivedIdIdentifiesRelation | crates/maturana-graph/src/model.rs:84-87 | two relations without the separator in source or type share a derived id if and only if they are the same relation |
| GraphModel.ReplayAt | crates/maturana-graph/src/store.rs:258-265 | replaying a log, cascading deletes included, is an independent fold per node id and per edge id |
| GraphModel.EdgeFoldShape | crates/maturana-graph/src/store.rs:284-322 | seen from one edge id a whole log either forgets the old edge or can only drop it |
| GraphModel.NodeFoldShape | crates/maturana-graph/src/store.rs:267-316 | seen from one node id a whole log either forgets the old node or keeps it |
| GraphModel.EdgeSurvivesIff | crates/maturana-graph/src/store.rs:284-322 | an edge whose id no record of a log writes is still there, unchanged, if and only if no record deletes one of its ends |
| GraphModel.NodeSurvives | crates/maturana-graph/src/store.rs:267-316 | a node whose id no record writes or deletes is still there, unchanged, and none appears |
| GraphModel.LastEdgeWriteWins | crates/maturana-graph/src/store.rs:284-299 | after any log the last write of an edge stands, unless a later record deletes one of its ends |
| GraphModel.LastNodeWriteWins | crates/maturana-graph/src/store.rs:267-316 | after any log the last write of a node stands, and a last delete leaves none |
| GraphModel.LogIdempotent | crates/maturana-graph/src/wal.rs:8-10 | for every graph and log, replaying the log on the result of replaying it changes nothing |
| GraphModel.SuffixReplayHarmless | crates/maturana-graph/src/wal.rs:8-10 | replaying any suffix of a log that has been applied changes nothing |
| GraphModel.PrefixReplayRollsBack | crates/maturana-graph/src/wal.rs:8-10 | replaying a proper prefix can undo a later write |
| GraphModel.ReplayKeepsKeyed | crates/maturana-graph/src/store.rs:267-299 | every node and edge stays stored under its own id |
| GraphModel.EncodableIff | crates/maturana-graph/src/model.rs:19-65 | a mutation can be encoded if and only if the bit pattern of every float in it lies below that of infinity |
| WalLog.ReadWal | crates/maturana-graph/src/wal.rs:103-125 | the reading loop returns the records in front of the first unparsable line, skips blank lines, and fails on a line that is not UTF-8 |
| WalLog.Wal.Append | crates/maturana-graph/src/wal.rs:66-72 | the file grows by exactly one encoded record and its newline |
| WalLog.Wal.Truncate | crates/maturana-graph/src/wal.rs:75-84 | the file is empty afterwards |
| WalLog.ReadAfterFrames | crates/maturana-graph/src/wal.rs:103-125 | complete records in front of any tail are read back in order, up to the first that JSON cannot hold, which hides the rest |
| WalLog.TornRead | crates/maturana-graph/src/wal.rs:101-125 | a torn append reads as exactly the complete records, the last one too if only its newline is missing, and as an error when cut inside a character |
| WalLog.GluedRead | crates/maturana-graph/src/wal.rs:58-72 | records appended after a cut one are all lost to the reader |
| WalLog.AppendSurvivesIff | crates/maturana-graph/src/wal.rs:58-72 | what is appended next is read back if and only if the file ended in a newline and every record can be encoded |
| Durability.StepKeepsInv | crates/maturana-graph/src/store.rs:237-256 | every append, torn or failed append, apply, rename, truncate, crash and reopen keeps snapshot plus log equal to the mutations written |
| Durability.CrashRecovery | crates/maturana-graph/src/store.rs:46-106 | after every run with any crashes and failed writes that appends finite floats to clean tails, reopening gives exactly the written mutations in order; memory lacks at most the one being applied |
| Durability.CallRuns | crates/maturana-graph/src/store.rs:75-106 | an uninterrupted mutation call is a run of the crash machine with this resulting memory, log and snapshot |
| Durability.NextCallSurvivesIff | crates/maturana-graph/src/wal.rs:50-72 | on a log ending in a newline an acknowledged mutation survives a restart if and only if its floats are finite; all finite ones survive if and only if the log ends in a newline; on any other log none does |
| Durability.UnterminatedLogIsReached | crates/maturana-graph/src/wal.rs:66-72 | a run from an empty store leaves a readable log without final newline, for every mutation |
| Durability.FailedWriteLeavesItsStart | crates/maturana-graph/src/wal.rs:66-72 | a write that fails part-way while the process lives leaves the start of its record in the log and nothing in memory |
| Durability.CutCharacterIsFatal | crates/maturana-graph/src/wal.rs:111-112 | after a cut inside a character no run goes on from the disk |
| Durability.AllLaterRunsSurviveIffClean | crates/maturana-graph/src/store.rs:46-106 | at any moment every later run of finite-float writes, snapshots and crashes between steps recovers to everything written before and after, if and only if the log ends in a newline |
| Durability.TruncateHeals | crates/maturana-graph/src/store.rs:237-248 | whatever was lost before, once the log is truncated behind a snapshot of finite floats every later undisturbed run recovers to that memory plus everything written since |
| Durability.UnencodableHidesTheRest | crates/maturana-graph/src/model.rs:54-65 | an acknowledged non-finite float hides its record and all behind it from every reopening until a snapshot |
| Durability.UnencodableSnapshotIsFatal | crates/maturana-graph/src/wal.rs:88-99 | once in a snapshot it makes the store unopenable after the next crash |
| Durability.SnapshotOverGluedLogRollsBack | crates/maturana-graph/src/store.rs:237-248 | a nine-step run from an empty store in which a snapshot renamed over an unterminated log is undone by the next reopening |
| CodecModel.JsonCodecExists | crates/maturana-graph/src/wal.rs:66-72 | what is assumed of the encoder can be met together, with records that can be cut inside a character |
| CodecModel.StoreCanBecomeUnopenable | crates/maturana-graph/src/wal.rs:111-112 | such a codec and a two-step run from an empty store after which nothing opens |
| Traversal.BallHasWalk | crates/maturana-graph/src/store.rs:172-234 | every id in the ball of radius d has a walk of at most d hops from a live seed |
| Traversal.WalkStaysInBall | crates/maturana-graph/src/store.rs:172-234 | every walk of d hops ends in the ball of radius d |
| Traversal.FirstAtIsShortest | crates/maturana-graph/src/store.rs:172-234 | first appearing at radius d is having shortest hop count d |
| Traversal.SeedQueue | crates/maturana-graph/src/store.rs:172-196 | the search starts from exactly the seeds that have a node, each once, at distance 0 |
| Traversal.FollowEdge | crates/maturana-graph/src/store.rs:197-222 | following one allowed edge keeps all distances exact and the queue ordered, and records a new end only below the cap |
| Traversal.ExpandNode | crates/maturana-graph/src/store.rs:197-222 | expanding a node takes all its allowed edges and keeps the search invariant |
| Traversal.UncappedSearchIsComplete | crates/maturana-graph/src/store.rs:172-234 | if the cap is not reached every id within depth has been found |
| Traversal.NearestAreKept | crates/maturana-graph/src/store.rs:192-217 | a capped search keeps the nearest: whatever has fewer hops than something recorded is recorded |
| Traversal.SearchFinished | crates/maturana-graph/src/store.rs:172-234 | an empty queue means exact distances, completeness below the cap, the nearest ids first, and no more ids than the cap or the live seeds |
| Traversal.KeptEdges | crates/maturana-graph/src/store.rs:223-234 | returned edges are allowed and have both ends recorded; below the cap they are all allowed edges with an end closer than the depth |
| GraphStore.DetachExact | crates/maturana-graph/src/store.rs:333-337 | dropping an edge from an index keeps it equal to a scan, without duplicates |
| GraphStore.AttachExact | crates/maturana-graph/src/store.rs:284-299 | adding an edge to an index keeps it equal to a scan, without duplicates |
| GraphStore.SnapshotRoundTrip | crates/maturana-graph/src/store.rs:46-72 | a snapshot written in any order loads back as the graph it was taken from |
| GraphStore.SnapshotParsesIff | crates/maturana-graph/src/wal.rs:88-99 | a snapshot file parses if and only if every float in the graph is finite |
| GraphStore.IncidentEdges | crates/maturana-graph/src/store.rs:324-331 | the indexes list exactly the edges a scan finds at a node, self-loops included |
| GraphStore.Search | crates/maturana-graph/src/store.rs:172-234 | the queue loop ends and returns an exact expansion |
| GraphStore.Store.Open | crates/maturana-graph/src/store.rs:46-72 | opening fails if and only if the snapshot does not parse or the log is unreadable; otherwise the store is the crash machine's reopened state and all indexes are exact |
| GraphStore.Store.UpsertNode | crates/maturana-graph/src/store.rs:75-82 | exactly this node is stored and nothing else changes; the call is a run of the crash machine; indexes stay exact |
| GraphStore.Store.UpsertEdge | crates/maturana-graph/src/store.rs:84-92 | exactly this edge is stored, under its own id or the triple, endpoints may be missing; nothing else changes; indexes stay exact |
| GraphStore.Store.DeleteNode | crates/maturana-graph/src/store.rs:94-99 | exactly the node and the edges with an end at it are gone, every other node and edge is unchanged; indexes stay exact |
| GraphStore.Store.DeleteEdge | crates/maturana-graph/src/store.rs:101-106 | exactly this edge is gone and nothing else changes; the call is a run of the crash machine; indexes stay exact |
| GraphStore.Store.Mutate | crates/maturana-graph/src/store.rs:75-106 | log, memory, snapshot and truncate happen in the crash machine's order, every 512th call with a snapshot |
| GraphStore.Store.MaybeSnapshot | crates/maturana-graph/src/store.rs:250-256 | a snapshot is taken exactly when the counter reaches the limit, nothing on disk changes otherwise |
| GraphStore.Store.TakeSnapshot | crates/maturana-graph/src/store.rs:237-248 | the snapshot file loads as the graph in memory, parses if and only if that graph can be encoded, and the log is empty |
| GraphStore.Store.ByLabel | crates/maturana-graph/src/store.rs:118-125 | the label index answers like a scan of all nodes |
| GraphStore.Store.Expand | crates/maturana-graph/src/store.rs:172-234 | distances are true shortest hop counts from the seeds that have a node, which alone are at 0; complete below the cap, and under it nothing nearer is left out; at most max(cap, live seeds) ids; edges of the types asked for with both ends recorded |
| GraphStore.Store.PutNode | crates/maturana-graph/src/store.rs:267-282 | replacing a node re-labels it so that the label index equals a scan |
| GraphStore.Store.PutEdge | crates/maturana-graph/src/store.rs:284-299 | re-pointing an edge moves it between adjacency lists so that both equal a scan |
| GraphStore.Store.RemoveEdge | crates/maturana-graph/src/store.rs:317-322 | index-driven removal equals removal by scan |
| GraphStore.Store.RemoveNode | crates/maturana-graph/src/store.rs:301-315 | index-driven cascading delete equals deleting every incident edge by scan |
| BoardModel.TopoIsAcyclic | crates/maturana-core/src/board.rs:320-340 | an order with dependencies first excludes every cycle |
| BoardModel.SortSorts | crates/maturana-core/src/board.rs:360-361 | sorting by priority then id is ordered, loses nothing and repeats nothing |
| BoardModel.ReadySpec | crates/maturana-core/src/board.rs:342-362 | ready returns exactly the due Todo cards with all dependencies Done, each once, highest priority first |
| BoardModel.ReadyAre | crates/maturana-core/src/board.rs:345-359 | a card is listed if and only if it is Todo, due, and each dependency is a Done card |
| BoardModel.ReadyOrder | crates/maturana-core/src/board.rs:360-361 | of two listed cards the earlier has no lower priority, and at equal priority the lexicographically smaller id |
| BoardModel.StuckForAReason | crates/maturana-core/src/board.rs:320-371 | with nothing in flight and nothing ready every Todo card reaches a parked, blocked, archived or not yet due card through its dependencies |
| BoardModel.DueBoardDrains | crates/maturana-core/src/board.rs:320-371 | at any moment a board of due Todo and Done cards has a ready card if and only if it is not complete |
| BoardRun.ActiveBoardIsReady | crates/maturana-cli/src/orchestrate.rs:1540-1550 | at every loop head of a run an active, due board that is not complete has a ready card |
| BoardValidate.Visit | crates/maturana-core/src/board.rs:499-513 | the search ends, and either finishes the id with all its dependencies finished before it or exhibits a cycle |
| BoardValidate.CheckReferences | crates/maturana-core/src/board.rs:323-334 | the first check passes if and only if dependencies exist and no card names itself; an error names a real culprit |
| BoardValidate.Validate | crates/maturana-core/src/board.rs:320-340 | with unique ids Ok if and only if every dependency exists and there is no cycle; the finish order is topological; each error names a real culprit |
| BoardEdits.NextIdIsNext | crates/maturana-core/src/board.rs:292-300 | the next id is c and one more than the highest number behind a c, wrapping at 32 bits |
| BoardEdits.NextIdFreshIff | crates/maturana-core/src/board.rs:292-300 | the next id is unused if and only if the counter has not wrapped onto an existing c0 |
| BoardEdits.NextIdCanCollide | crates/maturana-core/src/board.rs:292-300 | a runnable board on which add issues an id that is taken |
| BoardEdits.ParseFormat | crates/maturana-core/src/board.rs:292-300 | formatting a number and parsing it as 32 bits is the identity |
| BoardEdits.AppendKeepsRunnable | crates/maturana-core/src/board.rs:217-250 | adding a card with a new id and existing dependencies keeps ids unique and a topological order |
| BoardEdits.RemoveKeepsRunnable | crates/maturana-core/src/board.rs:310-318 | removing a card and its mentions keeps ids unique and a topological order |
| BoardEdits.EditsKeepRunnableIff | crates/maturana-cli/src/orchestrate.rs:1176-1195 | checked adds and removals keep a board runnable throughout if and only if none adds under a wrapped id that is taken |
| BoardEdits.BuiltBoardIsRunnable | crates/maturana-core/src/board.rs:217-318 | a board built from nothing by fewer than 2^32 adds and removals is runnable |
| BoardEdits.RunnableValidates | crates/maturana-core/src/board.rs:320-340 | a runnable board meets everything validation asks for |
| BoardEdits.IdIsReissued | crates/maturana-core/src/board.rs:292-318 | removing the newest card gives its id out again |
| BoardEdits.Board.Add | crates/maturana-core/src/board.rs:217-250 | one card is appended, fresh, with the dependencies, priority, schedule and limits wished for; nothing else changes |
| BoardEdits.Board.AddChecked | crates/maturana-cli/src/orchestrate.rs:1176-1195 | refused, changing nothing, if and only if a dependency is unknown; otherwise one fresh card as wished for |
| BoardEdits.Board.Remove | crates/maturana-core/src/board.rs:310-318 | reports a change if and only if the id existed; every other card stays, unchanged but for mentions of the id |
| BoardEdits.Board.ReclaimInFlight | crates/maturana-core/src/board.rs:384-393 | exactly the Doing cards become Todo, attempts and all else kept, and their number is returned |
| BoardEdits.Board.ResetForRerun | crates/maturana-core/src/board.rs:397-411 | exactly the Done, Doing and Blocked cards become Todo without result, attempts and all else kept, and their number is returned |
| BoardRun.ClaimKeepsInv | crates/maturana-cli/src/orchestrate.rs:1556-1590 | a claim of a ready card keeps the run invariant and uses up one unit of the work left |
| BoardRun.SettleKeepsInv | crates/maturana-cli/src/orchestrate.rs:1591-1738 | whatever the reply and verdict, settling keeps the run invariant and never gives work back |
| BoardRun.CardOverRun | crates/maturana-cli/src/orchestrate.rs:1527-1741 | in a run dependencies never change, Done stays Done, and a card is claimed at most 1 + goal rounds (5 if unset) + retries left times |
| BoardRun.StuckBoard | crates/maturana-cli/src/orchestrate.rs:1544-1550 | when the loop finds nothing ready every Todo card waits for a held one |
| BoardRun.FinishedAfterDeps | crates/maturana-cli/src/orchestrate.rs:1556-1590 | a card finished in the run was claimed in it, and at each of its claims all its dependencies were already done |
| BoardDispatch.Dispatcher.ClaimBatch | crates/maturana-cli/src/orchestrate.rs:1552-1590 | the batch is a prefix of the ready list within the parallelism cap, one turn paid per card, each in flight with one more attempt and otherwise unchanged |
| BoardDispatch.Dispatcher.AskJudge | crates/maturana-cli/src/orchestrate.rs:1609-1660 | a card is sent back if and only if goal rounds and a turn are left and the judge says so; the verdict is paid for |
| BoardDispatch.Dispatcher.SettleOne | crates/maturana-cli/src/orchestrate.rs:1591-1738 | a failed worker's card goes back to Todo while it has retries and to Blocked otherwise, with the error; a reply makes it Done with its note, or Todo with its note and one more goal round if and only if rounds and a turn are left and the judge sends it back |
| BoardDispatch.Dispatcher.SettleBatch | crates/maturana-cli/src/orchestrate.rs:1591-1738 | the cards of a batch are settled one by one in order, after which none is in flight and no work was given back |
| BoardDispatch.Dispatcher.DispatchBatch | crates/maturana-cli/src/orchestrate.rs:1552-1740 | a batch uses up at least one claim and pays at most two turns per claim; only a missing worker or a failed save ends the run inside it |
| BoardDispatch.Dispatcher.OneRound | crates/maturana-cli/src/orchestrate.rs:1527-1740 | a round keeps the run invariant, leaves nothing in flight, and spends no more ticks and turns than the work done accounts for |
| BoardDispatch.Dispatcher.Run | crates/maturana-cli/src/orchestrate.rs:1527-1741 | the loop ends even if neither budget bites; claims come after all dependencies are done and never depend on each other within a batch; every finished entry of the log had a reply and its card holds that note, every retry and give-up a failure; sends at most turns spent, at most the cap, at most the ceiling; an active, due board whose workers reply never ends stuck, and is completed if nothing interferes and ticks exceed the work and turns twice the work |
| BoardDispatch.RunBoard | crates/maturana-cli/src/orchestrate.rs:1395-1741 | runs if and only if the board is non-empty and valid; keeps ids, dependencies and Done cards; every newly Done card had a reply and holds its note; leaves a runnable board, complete or stuck for a reason; never stuck if active, due and answered, and completed under ample caps |
| Budget.TightenIsLoosestAllowed | crates/maturana-core/src/orchestrator_budget.rs:97-132 | tightening yields the greatest caps below the current ones, the request and the ceiling |
| Budget.ChangesNeverRaise | crates/maturana-core/src/orchestrator_budget.rs:97-132 | no sequence of clamps and overrides raises a cap, and one brings all under the ceiling for good |
| Budget.WorstCaseIsExact | crates/maturana-core/src/orchestrator_budget.rs:141-144 | under the ceiling the saturating formula does not saturate |
| Budget.RunBudget.SpendTurn | crates/maturana-core/src/orchestrator_budget.rs:196-205 | one turn is charged or the charge is refused, refused if and only if none is left |
| Budget.RunBudget.Tick | crates/maturana-core/src/orchestrator_budget.rs:207-213 | one tick is used or refused, refused if and only if none is left |
| Budget.RunBudget.AdmitsPlan | crates/maturana-core/src/orchestrator_budget.rs:232-236 | a plan is admitted if and only if it has steps, not too many, and steps x (1 + cycles) x (1 + re-plans) + 2 in unbounded numbers fits the turns left, so saturation never admits |
| GoalRun.StepCost | crates/maturana-cli/src/orchestrate.rs:940-1004 | a step costs at most 1 + 2 x review cycles turns whatever reviewers say, every send paid for |
| GoalRun.GrindingSteps | crates/maturana-cli/src/orchestrate.rs:940-1004 | against reviewers that always revise, steps lack a turn if and only if fewer than that many are left, so the bound is tight |
| GoalRun.FormulaCoversIff | crates/maturana-core/src/orchestrator_budget.rs:141-144 | the worst-case formula covers the real cost if and only if max_replans >= 1 or steps x cycles <= 2; with a re-plan it leaves steps + 2 turns |
| GoalRun.PlanningCost | crates/maturana-cli/src/orchestrate.rs:546-588 | a plan in hand has cost one turn or two and nothing was refused |
| GoalRun.AdmissionSoundIff | crates/maturana-core/src/orchestrator_budget.rs:232-236 | for every run under these caps, planning included, an admitted plan never lacks a turn if and only if it is refused or payable after one planning turn and after two |
| GoalRun.FormulaCoversIsEnough | crates/maturana-core/src/orchestrator_budget.rs:141-144 | with a re-plan in the caps, or little enough reviewing, no admitted plan ever lacks a turn |
| GoalRun.AdmissionCanFail | crates/maturana-core/src/orchestrator_budget.rs:141-144 | caps without re-plans and a world in which an admitted plan lacks a turn |
| GoalRun.ReviewMeaning | crates/maturana-cli/src/orchestrate.rs:940-1004 | an accepted step holds the text of the last revision asked for, or the worker's own if none was; a broken review ends on a revision that was asked for and could not be had |
| GoalRun.StepMeaning | crates/maturana-cli/src/orchestrate.rs:643-717 | a step fails if and only if it finds no worker, no turn or no reply; done means what review leaves of the reply |
| GoalRun.VerifyMeaning | crates/maturana-cli/src/orchestrate.rs:874-938 | every check but the last said fail; passed, failed, inconclusive and out of turns each hold if and only if the checks paid for say so |
| GoalRun.PlanningMeaning | crates/maturana-cli/src/orchestrate.rs:546-588 | a plan is what the last paid turn brought; a second question is asked if and only if the first brought none, a turn is left and nobody stops the run |
| GoalRun.DefaultsAdmitFullPlan | crates/maturana-core/src/orchestrator_budget.rs:71-93 | the default caps lie under the ceiling, admit a plan of their most steps after one and after two planning turns, and never lack a turn for it |
| GoalRun.VerifyCost | crates/maturana-cli/src/orchestrate.rs:874-938 | verification pays at most one turn per check, never overdraws, and reports a shortage only with fewer turns than checks |
| PlanExecution.ReadyFrom | crates/maturana-ops/src/planner.rs:107-117 | the ready steps are exactly the waiting ones with all dependencies done, in plan order |
| PlanExecution.Runner.DispatchAndWait | crates/maturana-cli/src/orchestrate.rs:171-186 | without a turn nothing is sent; otherwise one turn is charged, an abort sends nothing, and the reply is that turn's outcome |
| PlanExecution.Runner.FinishStep | crates/maturana-cli/src/orchestrate.rs:940-1004 | the review loop returns the last revision asked for, or the worker's own text, and errors only on a revision that could not be had |
| PlanExecution.Runner.ExecuteStep | crates/maturana-cli/src/orchestrate.rs:643-717 | exactly one step changes: Failed keeps its result, Done gets the accepted text, an aborting one stays Running |
| PlanExecution.Runner.ExecuteReady | crates/maturana-cli/src/orchestrate.rs:642-718 | steps ready together stay startable, start in order, and cost at most their price |
| PlanExecution.ValidPlanIsNotStuck | crates/maturana-ops/src/planner.rs:150-217 | a plan with known dependencies and no cycle, in which every step is done or waiting, has a ready step until it is complete |
| PlanExecution.Runner.ExecutePlan | crates/maturana-cli/src/orchestrate.rs:589-725 | the loop ends; no step starts before its dependencies are done; cost at most steps x (1 + 2 x cycles); with that many turns nothing is refused; it stops for lack of turns only at zero, and a valid plan never stops with nothing runnable |
| PlanExecution.Runner.RunVerification | crates/maturana-cli/src/orchestrate.rs:874-938 | passed if and only if the last check said pass and all before it fail; failed if and only if all allowed checks said fail; inconclusive if and only if the last said neither |
| PlanExecution.Runner.MakePlan | crates/maturana-cli/src/orchestrate.rs:546-588 | the plan is the one the last paid turn brought, after one question or two |
| PlanExecution.Runner.Conclude | crates/maturana-cli/src/orchestrate.rs:735-870 | files are delivered, unchecked if and only if not asked to check, with a verdict the checks bear out; otherwise the summary is the last reply; at most one turn per check or one for the summary is spent |
| PlanExecution.Runner.RunGoal | crates/maturana-cli/src/orchestrate.rs:519-870 | sends <= turns spent <= cap <= ceiling; the steps carried out are those of the plan received; delivered as passed means the run's last answer was a pass; with a re-plan budgeted an admitted plan is never refused a turn and never stops for lack of turns, leaves steps + 2 turns, and verification has all its checks if cycles <= steps + 1; a valid plan never ends with nothing runnable |
| SessionQueue.StepKeepsInv | crates/maturana-core/src/session_db.rs:61-372 | every operation keeps pending with tries left, processing within 1 to max_tries, completed unflagged, ids unique and seq equal to table position |
| SessionQueue.EveryRunExists | crates/maturana-core/src/session_db.rs:61-372 | every sequence of operations whose claims read ordered clocks is a run, so the run theorems are about all of them |
| SessionQueue.RunKeepsInv | crates/maturana-core/src/session_db.rs:61-372 | those invariants hold at every moment of every run |
| SessionQueue.StatsAreExact | crates/maturana-core/src/session_db.rs:307-326 | each figure is the number of rows in that status |
| SessionQueue.StatsConserveInserts | crates/maturana-core/src/session_db.rs:307-326 | the four status counts add up to the accepted inserts at every moment of every run |
| SessionQueue.HandsOutIff | crates/maturana-core/src/session_db.rs:206-229 | a claim hands a message out if and only if it returns it |
| SessionQueue.HandOutsAreCounted | crates/maturana-core/src/session_db.rs:181-229 | the hand-outs counted are the claims that hand the message out |
| SessionQueue.RetryBudget | crates/maturana-core/src/session_db.rs:181-296 | between operator requeues a message is handed out at most max_tries times |
| SessionQueue.SettledIsFinal | crates/maturana-core/src/session_db.rs:181-229 | a completed or failed message is never handed out again without a requeue |
| SessionQueue.HandOutsAreSpaced | crates/maturana-core/src/session_db.rs:181-296 | two hand-outs of a message without a requeue between are at least lease + back-off seconds apart |
| SessionQueue.DefaultPolicyBounds | crates/maturana-core/src/session_db.rs:149-179 | under the default policy: at most five hand-outs, at least 435 seconds apart |
| SessionQueue.SelectIsPicks | crates/maturana-core/src/session_db.rs:206-223 | a claim returns exactly the first limit due messages in seq order |
| SessionQueue.UnansweredIff | crates/maturana-core/src/session_db.rs:236-296 | a dead-lettered message gets no apology on its own channel, platform and thread if and only if its lease runs out between the two clock readings or the write fails |
| SessionQueue.OnlyTheDeadAreAnswered | crates/maturana-core/src/session_db.rs:187-206 | whatever a claim writes is an apology in reply to a message it buries, at that message's own address |
| SessionQueue.RunKeepsAnswered | crates/maturana-core/src/session_db.rs:181-206 | if no claim of a run is silent, every failed message with tries used up has a notice at its own channel, platform and thread |
| SessionQueue.GapLosesTheAnswer | crates/maturana-core/src/session_db.rs:236-296 | under every policy with a lease, the default included, a run in which a clock tick loses the notice |
| SessionQueue.FlagIff | crates/maturana-core/src/session_db.rs:108-133 | a message is flagged if and only if a cancel request met it in flight and nobody completed it since |
| SessionQueue.HandOutStartsFlaggedIff | crates/maturana-core/src/session_db.rs:366-370 | a hand-out starts cancelled if and only if a cancel request met the message in flight earlier and nobody completed it since |
| SessionQueue.FlagOutlivesItsTurn | crates/maturana-core/src/session_db.rs:366-370 | under every policy with a second try, the default included, a run in which a message is handed out again already cancelled |
| SessionQueue.PatientClaimProgresses | crates/maturana-core/src/session_db.rs:135-141 | a claim lease + back-off after the last one moves some unsettled message on |
| SessionQueue.StampExists | crates/maturana-core/src/session_db.rs:135-141 | every table has a second from which waiting lease + back-off is waiting long enough, so draining is always possible |
| SessionQueue.WorkIsBounded | crates/maturana-core/src/session_db.rs:135-141 | the work left is at most twice the tries of all messages |
| SessionQueue.QueueDrains | crates/maturana-core/src/session_db.rs:135-141 | no message is stuck: as many well-spaced claims as there is work left settle every message whatever workers do |
| SessionQueue.SessionDb.InsertInbound | crates/maturana-core/src/session_db.rs:61-84 | refused, changing nothing, if and only if the key is taken; otherwise one row is appended as given, pending, untried and due at once |
| SessionQueue.SessionDb.RecoverStuck | crates/maturana-core/src/session_db.rs:236-296 | exactly the expired leases with tries left go back with back-off, exactly the expired ones without fail, and exactly those the query saw expired without tries are returned |
| SessionQueue.SessionDb.ClaimPending | crates/maturana-core/src/session_db.rs:181-229 | the whole claim is the claim step; every returned message is in flight since the stamp with one more try |
| SessionQueue.SessionDb.MarkCompleted | crates/maturana-core/src/session_db.rs:358-372 | exactly the named rows are completed whatever their status, and exactly their flags dropped |
| SessionQueue.SessionDb.RequeueInbound | crates/maturana-core/src/session_db.rs:347-356 | exactly the named row is pending, untried and due at once, whatever its status was; reports whether the id exists |
| SessionQueue.SessionDb.CancelPendingInbound | crates/maturana-core/src/session_db.rs:91-100 | exactly the pending messages fail, and their number is returned |
| SessionQueue.SessionDb.RequestCancelInProgress | crates/maturana-core/src/session_db.rs:108-118 | exactly the messages in flight are flagged, and only new flags are counted |
| SessionQueue.SessionDb.RunOnce | crates/maturana-cli/src/session.rs:720-751 | claimed messages are echoed in order, each at its own address, and all completed; at the first unreadable text or failed write the answered prefix is kept and all stay in flight |
| Delivery.UnclaimUndoesClaimIff | crates/maturana-core/src/session_db.rs:520-552 | giving back restores the table before a claim if and only if no bare claim was there already |
| Delivery.RecordedIsKept | crates/maturana-core/src/session_db.rs:502-552 | a recorded platform id is stored, and neither a claim nor giving back changes its row |
| Delivery.Outbox.ClaimDelivery | crates/maturana-core/src/session_db.rs:526-535 | wins if and only if there was no row, which is then a bare claim; no other row changes |
| Delivery.Outbox.MarkDelivered | crates/maturana-core/src/session_db.rs:502-518 | the platform id is stored, exactly this message leaves the undelivered list, and no other row changes |
| Delivery.Outbox.UnclaimDelivery | crates/maturana-core/src/session_db.rs:543-552 | exactly this message returns to the undelivered list, only if its row had no platform id; no other row changes |
| Delivery.Outbox.ListUndelivered | crates/maturana-core/src/session_db.rs:453-473 | lists exactly the outbound messages without a row |
| Delivery.StepEffects | crates/maturana-cli/src/channels/delivery.rs:95-158 | what each step of the protocol does to the table, the phase of its deliverer and the record of sends |
| Delivery.FinaliseRecords | crates/maturana-cli/src/channels/delivery.rs:135-138 | finalising stores the platform id the send came back with and touches no other row |
| Delivery.RunKeepsInv | crates/maturana-cli/src/channels/delivery.rs:95-158 | every interleaving keeps one holder per message, sent messages rowed and unheld, and a reason for every row |
| Delivery.AtMostOnce | crates/maturana-core/src/session_db.rs:520-535 | under every interleaving with crashes and lost writes each message is sent successfully at most once |
| Delivery.OneHolder | crates/maturana-core/src/session_db.rs:520-535 | at most one deliverer has a message in hand at any time |
| Delivery.NeverListedAgainIff | crates/maturana-core/src/session_db.rs:537-552 | a message stays off the undelivered list in every continuation if and only if it has a row and nobody holds it unsent |
| Delivery.SentIsFinal | crates/maturana-core/src/session_db.rs:537-552 | a sent message is never listed and never sent again |
| Delivery.FailedSendIsListableIff | crates/maturana-cli/src/channels/delivery.rs:148-151 | giving back after a failed send makes the message listable again if and only if no observer recorded a platform id |
| Delivery.CrashLosesTheMessage | crates/maturana-cli/src/channels/delivery.rs:109-135 | a deliverer that dies before sending loses the message for good |
| Delivery.NothingVanishes | crates/maturana-cli/src/channels/telegram_live.rs:279-340 | without such deaths an unlisted message was sent, dropped, marked by an observer, or is in hand |
| Words.WordsOfJoin | crates/maturana-ingest/src/lib.rs:86-120 | joining texts at a seam with white space concatenates their words |
| Words.TrimCuts | crates/maturana-ingest/src/lib.rs:91-91 | trimming takes away white space at both ends and nothing else |
| Words.TrimKeepsWords | crates/maturana-ingest/src/lib.rs:91-94 | trimming keeps the words and empties exactly the texts without words |
| Words.ByteLenBounds | crates/maturana-ingest/src/lib.rs:95-98 | lengths are in bytes: as many as characters if and only if the text is ASCII, at most four per character |
| Words.ParagraphsSplit | crates/maturana-ingest/src/lib.rs:90-90 | the pieces joined by double line breaks are the text, none holds one, and none but the last ends in a line break |
| Words.SplitIsUnique | crates/maturana-ingest/src/lib.rs:90-90 | no other pieces are |
| Words.ParagraphsKeepWords | crates/maturana-ingest/src/lib.rs:90-90 | splitting at double line breaks keeps the words in order |
| Chunker.AddWords | crates/maturana-ingest/src/lib.rs:98-108 | the word loop adds exactly the words of an oversized paragraph, single-spaced, and keeps all chunks good |
| Chunker.AddParagraph | crates/maturana-ingest/src/lib.rs:90-114 | one round of the paragraph loop extends words, sizes and unsplit paragraphs by one paragraph |
| Chunker.Chunk | crates/maturana-ingest/src/lib.rs:86-120 | the words of the chunks are the words of the text in order; no chunk is empty; each is at most max(target, 400) bytes or one longer word; for the pieces between the double line breaks of the text: one that fits is never split; if all fit, chunks are never mergeable and put together read like the trimmed pieces put together |

## Left out

- Files, fsync, rename and JSON themselves: rename and truncate are atomic, and the encoder is a parameter with the properties `Durability.JsonCodec` lists. A write that fails while the process lives leaves the beginning of a record (`FailAppend`). Not modelled, while the process lives: a write that loses only the newline, a record written whole whose fsync then fails, a snapshot write that fails, and a truncate that fails after a successful rename.
- Graph queries other than `by_label` and `expand`: vector and text search, scoring, `stats`; floats are bit patterns the store never computes with. Empty label sets stay in the label index, so `stats` counts labels once used, not labels in use.
- Durability.CrashRecovery: states recovery for runs that acknowledge finite floats and never append behind an unterminated record, because the code loses records otherwise; `Durability.NextCallSurvivesIff` and `Durability.AllLaterRunsSurviveIffClean` state exactly when, and `Durability.TruncateHeals` when it is over.
- BoardEdits.BuiltBoardIsRunnable: is stated within the 32-bit id range, beyond which `BoardEdits.EditsKeepRunnableIff` gives the exact condition; a debug build panics there instead of wrapping.
- BoardDispatch.RunBoard: assumes unique ids, as `add` gives them; a hand-edited board file with repeated ids is not modelled. The 32-bit overflow of `attempts` is not modelled.
- Card titles, details, comments, run records, the wording of results, artifact collection and channel posting; `counts` and `dependency_context`.
- Plan parsing, the plan validator's own search and role placement: a plan is any list of steps the coordinator's reply parses to, and `PlanExecution.ValidPlan` says what the validator accepts; virtual machine spawning is an arbitrary success or failure.
- A2A transport and threads: a dispatch is an arbitrary reply or error, and a batch is settled in batch order.
- PlanExecution.Runner.RunGoal: wall clock and abort are one arbitrary stop at a loop head, checked before the turn check, so which of the two reasons is reported is not modelled.
- SQLite itself: each queue operation is one step. Two claims interleaved between SELECT and UPDATE are excluded, as in the single-threaded session daemon (crates/maturana-cli/src/session.rs:231); clock readings are whole seconds.
- SessionQueue.RunKeepsAnswered: needs that no claim is silent, because the code is false to it otherwise; `SessionQueue.UnansweredIff` gives the exact condition.
- SessionQueue.HandOutsAreSpaced: is for one fixed policy, as the callers use it, and for clocks that do not go back inside one claim.
- Outbound rows carry no key in `SessionQueue`; keys are modelled in `Delivery`. Creation times, the progress lane, `processing_ack` and `runner_state` are not part of the model.
- Delivery.AtMostOnce: counts the sends of deliverers that claim; observers that mark without claiming (outbox listing, web cockpit, agent run) may show a message besides. A send that reports failure although the platform accepted it counts as failed.
- The age check and the stream check in front of a claim, and the telegram message edits.
- The chunker's callers: text extraction, white-space normalisation and `to_graph`.
- Token slots, rewards, vaults, proxies, snapshots of virtual machines, channels, templates and the user interface: easy branch-by-branch claims or foreign calls.
