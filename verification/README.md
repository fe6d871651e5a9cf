# FLORCA: a verified model of the queue-native runtime and of the algorithms built on it

FLORCA runs workflows as queue messages. An invocation owns an inbox queue and a snapshot ("agg") queue, fans out
children with `runAll`, records their replies in any order, calls a named callback when a batch is complete, chains to
another function through `next`, and after a crash resumes from its largest snapshot. This project models that protocol
and several example workflows of the repository, and proves what they promise. Everything is stated for all programs,
all inputs and all interleavings; nothing is bounded.

## The parts

| files | what they model |
|---|---|
| `programs.dfy` | user programs as pure functions, and direct recursive evaluation of them: the meaning the runtime is held to |
| `contexts.dfy`, `runtime.dfy` | the crash-free runtime as a step system over a bag of messages and one context per invocation (templates/aws/nodejs24.x/fn.js, index.js) |
| `runtime_invariants.dfy`, `runtime_history.dfy`, `runtime_refinement.dfy`, `runtime_progress.dfy`, `runtime_replies.dfy` | what each step keeps, what a whole run has logged, what its result means, that it ends, and under which ids its replies are sent |
| `fn_context.dfy`, `runtime_contexts.dfy`, `agg_queue.dfy` | the context object with its mutable batches, snapshots and re-invocation; that the live invocations of the step system are such objects; what reading a snapshot queue gives |
| `recovery.dfy`, `transparency.dfy`, `second_round.dfy` | the snapshot chain; crashes during one fan-out; a second fan-out after a crash |
| `naming.dfy` | invocation ids and queue names as strings |
| `bellman_ford.dfy`, `shortest_paths.dfy` | synchronous Bellman-Ford in place on arrays, and its correctness |
| `clearing.dfy` | merit-order market clearing over exact reals |
| `phased_coordinator.dfy`, `phased_epochs.dfy`, `phased_outcome.dfy` | the four-round consensus coordinator, its retry epochs over whole runs, and what they come to with real participants |
| `message_coordinator.dfy`, `message_agreement.dfy` | the barrier-based consensus coordinator with concurrent handlers |
| `html_builder.dfy`, `html_forests.dfy`, `html_round_trip.dfy`, `html_names.dfy` | the DOM builder as a class of mutable nodes, the forest of values it builds, and the case of names |
| `tree_process.dfy` | termination detection by counting |
| `crawler.dfy` | the batched and the greedy crawler |

Classes follow the program's mutable objects; each of their methods is proved equal to a function on the abstract state,
and the theorems are about these functions and the step systems made of them. The crash-free runtime is a step system of
its own, in which an invocation has one batch at a time and nothing is cached; `RunMirrored` shows that each of its live
invocations is a context object that has seen fan-outs and poll iterations only. The crash model in turn is told which
reply each child will send under which id; `FanOutIsScenario` shows that what any crash-free run answers to a first
fan-out is of the form it assumes.

Two conventions are worth knowing. In the runtime a *token* is an invoke message, a live invocation or a reply message,
and every token aims at the slot its answer will fill (the root's aims at the run's terminal event). In the message
coordinator a participant passes through ten *stages*, from sending its answer to being finished, and each of the three
barriers is the claim that everybody concerned has come to a certain stage. The theorems about both coordinators speak of
any library `lib` that clears as consensus.js does (`Clears`); `ConsensusJs` is one, for any two digests
(`ConsensusJsClears`).

## Where the code and what is said about it differ

- The user guide (book/src/user-guide/qflorca.md) presents recovery from snapshots as transparent in general. For one
  fan-out it is if and only if all children reply themselves or there is only one: `TransparentExactly`. A child that
  chained with `next` replies under a fresh id that no slot knows, so once its reply has been recorded and the parent
  dies, the callback is never called: `CallbackExactly` says so run by run, `ChainedCanBeLost` gives such a run for
  every fan-out with a sibling, and `CrashKeepsBatch` says which slots a crash empties. `SecondRoundReusesFirst` shows
  what a second fan-out gets at any time after a crash: the cached results of the first, slot by slot; without a crash
  it starts afresh (`SecondRoundFresh`). `TieDependsOnOrder` shows that between two fan-outs two snapshots hold equally
  many results, and that the receive order alone decides which of the two batches a re-invocation resumes.
- That a new snapshot lists every child before it is dispatched holds in first invocations; in a re-invocation it holds
  if and only if the queues were opened before the fan-out: `PersistedBeforeDispatch`.
- The phased coordinator's comment calls what it carries forward "the most complete partial proposal". It is the latest
  proposal of an epoch before the last: `PhasedRun`. The message coordinator instead reports the last epoch's own
  proposal (`OutcomeIgnoresInterleaving`).
- The DOM builder does not rebuild every well-formed document: attributes written on a void tag inside another tag are
  assigned to that other tag. `RebuildsForest` says exactly what is rebuilt, `RoundTrip` that the document comes back
  unchanged if and only if no void tag inside another tag has attributes, and `ImageInParagraph` is an instance.
- Cleared quantities, prices and totals do not depend on the order in which offers arrived, but `offersHash` is taken
  over the offers in their insertion order and does.

## Model

| member | source | states |
|---|---|---|
| Contexts.ClosesWhenFull | templates/aws/nodejs24.x/fn.js:381-391 | recording a reply in an unfilled slot keeps `pending` equal to the number of unfilled slots, so it is zero exactly when every slot is filled |
| RuntimeInvariants.DeliverRecords | templates/aws/nodejs24.x/fn.js:381-388 | a reply that is not the last one puts its result into its own slot and changes nothing else |
| RuntimeInvariants.DeliverCloses | templates/aws/nodejs24.x/fn.js:390-415 | the last reply removes the batch and settles the invocation with its callback's outcome on the full results array |
| RuntimeInvariants.RepliesMatch | templates/aws/nodejs24.x/fn.js:252-261 | in a reachable state every reply finds its batch active and its slot unfilled, so none is ever put back |
| RuntimeInvariants.RunConserved | templates/aws/nodejs24.x/fn.js:458-537 | every state of every crash-free run keeps: one token per unfilled slot, none per filled slot, no id in use twice, and one terminal event exactly when nothing carries the root's answer |
| RuntimeHistory.RunLogged | templates/aws/nodejs24.x/fn.js:467-485 | over a whole run no invocation id is issued twice, no batch is opened or fired twice, and an opened batch is waiting or has fired |
| RuntimeRefinement.RunFaithful | templates/aws/nodejs24.x/index.js:224-281 | every token of every reachable state will answer what recursive evaluation gives for the slot it aims at, through `next` chains of any length |
| RuntimeRefinement.DistributedRefinesRecursive | templates/aws/nodejs24.x/index.js:127-166 | every crash-free interleaving that ends reports exactly one terminal event, with the result direct recursive evaluation gives, child errors in their slots included |
| RuntimeProgress.Progress | templates/aws/nodejs24.x/fn.js:311-391 | until the run has ended some message can be consumed |
| RuntimeProgress.PollConsumes | templates/aws/nodejs24.x/fn.js:335-365 | a poll iteration can receive any one to ten replies of an inbox, in any order, and consumes all it received |
| RuntimeProgress.EndedIsEmpty | templates/aws/nodejs24.x/index.js:267-280 | once the terminal event is out no message and no live invocation is left |
| RuntimeProgress.RunAccounted | templates/aws/nodejs24.x/fn.js:518-536 | messages consumed plus what the remaining tokens will still cost is always the evaluator's cost of the whole call tree |
| RuntimeProgress.FiniteRunsEnd | templates/aws/nodejs24.x/index.js:224-281 | a run of a finite call tree consumes at most the evaluator's cost in messages, is stuck exactly when it has ended, and then has one event, consumed exactly that cost, left nothing behind and fired every opened batch once |
| RuntimeProgress.SlotConservation | templates/aws/nodejs24.x/fn.js:467-510 | in every reachable state `pending` is the positive number of unfilled slots, a slot is unfilled exactly when one token carries it, no two tokens carry the same slot, and ids, openings and firings never repeat |
| RuntimeReplies.AnswersUnderOwnId | templates/aws/nodejs24.x/index.js:224-281 | a reply that a step sends comes from an execution that was running just before, under its own invocation id and into the slot its answer was due in |
| RuntimeReplies.OneAnswerPerId | templates/aws/nodejs24.x/index.js:267-276 | over a whole run no id answers twice: two replies from one id are one message |
| RuntimeReplies.RepliesCarryChildIds | templates/aws/nodejs24.x/fn.js:381-388 | in every state of every run a reply into a slot carries the child id of that slot of its live owner, or an issued UUID that a `next` has drawn for that slot |
| RuntimeReplies.FanOutIsScenario | templates/aws/nodejs24.x/fn.js:467-485 | whatever replies a run gives to the first fan-out of an invocation, they come from pairwise different ids, each the child itself or a fresh UUID, as the crash model takes them to |
| FnContext.Context.First | templates/aws/nodejs24.x/fn.js:101-127 | a first invocation starts without results, batches, queues or snapshots |
| FnContext.Context.Again | templates/aws/nodejs24.x/fn.js:149-170 | a re-invocation starts from its snapshot: results cached, each saved batch rebuilt from them, `batchCounter` the number of batches |
| FnContext.Context.RebuildBatch | templates/aws/nodejs24.x/fn.js:151-167 | a rebuilt batch holds the cached result of each child in its slot and `pending` counts the others |
| FnContext.Context.Partition | templates/aws/nodejs24.x/fn.js:483-494 | splits the children of a fan-out into cached results and those to dispatch, in order, counting the latter |
| FnContext.Context.PersistState | templates/aws/nodejs24.x/fn.js:130-147 | appends a snapshot of all recorded results and active batches once the agg queue exists, else does nothing |
| FnContext.Context.OpenQueues | templates/aws/nodejs24.x/fn.js:175-193 | the first call opens the queues and, in a first invocation only, writes a snapshot |
| FnContext.Context.RunAll | templates/aws/nodejs24.x/fn.js:458-537 | the whole effect of a fan-out and how it goes on: an empty list calls the callback aside and changes nothing; otherwise consecutive child ids, with all cached the full results array at once, and else the batch registered and made durable, one invitation for every waiting child with a deployed function, and an error if a waiting child has none |
| FnContext.CalledAtOnce | templates/aws/nodejs24.x/fn.js:483-510 | the callback is called at once if and only if there are tasks and every next child id is cached; then each cached result is in its own slot, both counters go on, and nothing is written, registered or sent |
| FnContext.NotCalledAtOnce | templates/aws/nodejs24.x/fn.js:459-465 | an empty list changes nothing; otherwise the call fails with the first child that is neither cached nor deployed, and waits if and only if some child is not cached and all of those are deployed |
| FnContext.Context.Dispatch | templates/aws/nodejs24.x/fn.js:518-536 | sends the invitations of the waiting tasks with deployed functions, in order, and fails with the first function that is not deployed |
| FnContext.UnfilledInvited | templates/aws/nodejs24.x/fn.js:486-520 | exactly the children without a result whose function is deployed are invited, each once and in order, and the call fails exactly when a child without a result has none |
| FnContext.Context.RecordMatched | templates/aws/nodejs24.x/fn.js:381-415 | one poll iteration over matched replies up to the first completed batch: each recorded and persisted in order, nothing completed before, and that batch handed to its callback before the next reply is recorded |
| FnContext.RecordAllAppend | templates/aws/nodejs24.x/fn.js:381-415 | resuming behind each callback, the pieces of a poll iteration add up to the whole, batch by batch |
| RuntimeContexts.FanOutIsRunAll | templates/aws/nodejs24.x/fn.js:458-537 | a fan-out of the step system is `runAll` on that invocation's context, and its new messages are exactly the invitations sent, in order |
| RuntimeContexts.DeliverIsRecord | templates/aws/nodejs24.x/fn.js:381-388 | delivering a reply that is not the last one does to the waiting invocation what the poller does to its context |
| RuntimeContexts.DeliverIsClose | templates/aws/nodejs24.x/fn.js:381-415 | delivering the last reply leaves the context without batches, and the step goes on with the callback of just the batch the poller closes |
| RuntimeContexts.RunMirrored | templates/aws/nodejs24.x/fn.js:101-574 | in every state of every crash-free run each live invocation is in a state that fan-outs and poll iterations bring a new context object into |
| FnContext.Context.ReadAggQueue | templates/aws/nodejs24.x/fn.js:605-639 | the two loops keep the best snapshot and the handles of all the messages received so far |
| FnContext.BestIsFirstLargest | templates/aws/nodejs24.x/fn.js:631-635 | what the scan keeps has at least as many results as every snapshot and more than each before it |
| AggQueue.ResumesFromEarliestLargest | templates/aws/nodejs24.x/fn.js:631-635 | of all its own snapshots, in whichever receive they came, an invocation resumes from the earliest of the largest, and from none only if there is none; foreign and malformed messages do not matter |
| AggQueue.HandlesAllOwn | templates/aws/nodejs24.x/fn.js:622-631 | the handles returned are those of exactly its own messages over all receives, each once and in order |
| Recovery.LargestIsUnion | templates/aws/nodejs24.x/fn.js:605-639 | if the queue gives back all snapshots, in any order, the one chosen holds everything ever recorded |
| Recovery.SnapshotsFormChain | templates/aws/nodejs24.x/fn.js:109-147 | over any sequence of fan-outs, poll iterations and crashes with re-invocation every later snapshot extends every earlier one, and nothing recorded is ever lost |
| Recovery.PersistedBeforeDispatch | templates/aws/nodejs24.x/fn.js:512-518 | before the first invitation leaves, a new snapshot lists all children of the fan-out if and only if the queues were already open or this is a first invocation |
| Transparency.PollIsRecordMatched | templates/aws/nodejs24.x/fn.js:381-391 | taking replies one by one is the program's poll iteration |
| Transparency.CrashKeepsBatch | templates/aws/nodejs24.x/fn.js:149-170 | in any world of any run, a crash gives back exactly the interrupted batch if and only if every reply that fills a slot came from the child itself |
| Transparency.RunSound | templates/aws/nodejs24.x/fn.js:109-193 | after any answers, polls and crashes: every slot holds only its own child's recorded reply, those of children that replied themselves are all there, and memory and snapshots agree |
| Transparency.CallbackExactly | templates/aws/nodejs24.x/fn.js:149-170 | in every run the callback is called at most once, with every child's result in its own slot, and it has been called if and only if every reply is in and no crash came after the recorded reply of a child that chained |
| Transparency.ChainedCanBeLost | templates/aws/nodejs24.x/index.js:250-253 | for every fan-out with a child that chains and at least one other there is a run in which that reply is lost |
| Transparency.TransparentExactly | templates/aws/nodejs24.x/index.js:59-131 | every complete run of a fan-out, crashes included, ends with its callback called on all results if and only if all children reply themselves or there is only one |
| Transparency.CrashTransparency | templates/aws/nodejs24.x/index.js:59-131 | with direct replies and any number of crashes while waiting, the callback has been called, once and on every child's result, exactly when all replies are in; whoever replies, every child is invited exactly once, in order |
| SecondRound.SecondRoundReusesFirst | templates/aws/nodejs24.x/fn.js:114-114 | at any time after a crash, however many polls later, a second fan-out gets child ids from 0 again, and slot `i` holds the first fan-out's result exactly when child `i` itself had replied and that was recorded before the last crash |
| SecondRound.SecondRoundFresh | templates/aws/nodejs24.x/fn.js:467-494 | without a crash a second fan-out numbers its children on and none of them has a result |
| SecondRound.SecondRoundCalledAtOnce | templates/aws/nodejs24.x/fn.js:496-510 | at any time after a crash a second fan-out calls its callback at once if and only if each of its slots is one whose child had replied itself before the last crash, and then hands over the first fan-out's results in order, inviting and writing nothing |
| SecondRound.TieDependsOnOrder | templates/aws/nodejs24.x/fn.js:632-634 | after a completed first fan-out and a second one, a re-invocation resumes the completed batch when it receives the snapshots in the order written, and the waiting one when it receives the newest first |
| Naming.AncestryReadBack | templates/aws/nodejs24.x/fn.js:469-471 | the root's UUID and the path of child indices can be read back from an id |
| Naming.RenderEqual | templates/aws/nodejs24.x/fn.js:469-471 | two ids are the same string if and only if their roots drew the same UUID and the paths agree |
| Naming.RenderInjective | templates/aws/nodejs24.x/fn.js:469-471 | invocations whose roots drew different UUIDs have different id strings |
| Naming.IssuedIdsDistinct | templates/aws/nodejs24.x/fn.js:467-485 | over a whole crash-free run all id strings sent out are pairwise distinct if and only if the UUIDs it has drawn are |
| Naming.CountedDraws | templates/aws/nodejs24.x/index.js:252-252 | there are draws for which they are, for every run of up to 10 to the 36 messages |
| Naming.QueueNameBounded | templates/aws/nodejs24.x/fn.js:37-42 | every queue name has at most 80 characters |
| Naming.QueueNamesClash | templates/aws/nodejs24.x/fn.js:37-44 | if different roots drew different UUIDs, two queues share a name if and only if they are the same queue or both ids are hashed to one digest; an inbox never clashes with an agg queue |
| Naming.QueueNameForms | templates/aws/nodejs24.x/fn.js:39-44 | an inbox is named after an id of up to 74 characters and an agg queue after one of up to 76, longer ids by their digest |
| Naming.GrandchildInbox | templates/aws/nodejs24.x/fn.js:30-38 | the documented form `uuid_child_0_child_1-inbox` |
| BellmanFord.ComputeNode | examples-classic/bellman-ford/compute-node.ts:13-27 | the loop computes the fold of relaxations over all edges into one target |
| BellmanFord.RelaxIsMinimum | examples-classic/bellman-ford/compute-node.ts:17-23 | that fold is the minimum of the old distance and all candidates, and an update names an edge that attains it and improves strictly |
| BellmanFord.UpdateNamesFirst | examples-classic/bellman-ford/compute-node.ts:19-23 | of several edges of the graph that attain the minimum, an update names the first |
| BellmanFord.GroupEdgesByTargetNode | examples-classic/bellman-ford/algorithm.ts:60-71 | every target once, in order of first appearance, with all its edges in their order |
| BellmanFord.TargetsInOrder | examples-classic/bellman-ford/algorithm.ts:63-68 | each target appears at an edge before which there are edges to earlier targets only |
| BellmanFord.RunRound | examples-classic/bellman-ford/algorithm.ts:25-46 | all updates of a round are computed on the frozen distances and then applied in place; `changes` says whether any table entry changed |
| BellmanFord.RunRounds | examples-classic/bellman-ford/algorithm.ts:24-51 | the arrays end as the tables after the first change-free round, or after `vertices` rounds |
| BellmanFord.PathReconstruction | examples-classic/bellman-ford/algorithm.ts:73-97 | terminates for every in-range predecessor array, cyclic ones included, with the traced path |
| BellmanFord.TraceExactly | examples-classic/bellman-ford/algorithm.ts:73-97 | whatever the predecessors are, cyclic ones included, the path is empty exactly when they never lead from the goal back to the start, and otherwise runs from start to goal along them |
| BellmanFord.Algorithm | examples-classic/bellman-ford/algorithm.ts:11-58 | the plugin returns the path traced through the final predecessors |
| ShortestPaths.DistancesExact | examples-classic/bellman-ford/algorithm.ts:17-51 | after `k` rounds each distance is exactly the least weight over all walks from the start with at most `k` edges, infinite if there is none |
| ShortestPaths.StopsAtFirstUnchanged | examples-classic/bellman-ford/algorithm.ts:48-50 | the loop stops right after its first change-free round |
| ShortestPaths.LateChangeIsNegativeCycle | examples-classic/bellman-ford/algorithm.ts:24-51 | a change in round `vertices` exposes a reachable cycle of negative weight |
| ShortestPaths.SettledIffNoNegativeCycle | examples-classic/bellman-ford/algorithm.ts:24-51 | the loop ends with a change-free round within `vertices` rounds if and only if no negative cycle is reachable |
| ShortestPaths.FinalDistancesShortest | examples-classic/bellman-ford/algorithm.ts:17-51 | without a reachable negative cycle the final distances are the shortest over all walks |
| ShortestPaths.PredecessorsOk | examples-classic/bellman-ford/algorithm.ts:43-44 | a vertex has a predecessor exactly when it has been updated, through an edge that is tight with the predecessor last updated strictly earlier, or that can still improve the vertex |
| ShortestPaths.TraceIsShortestWalk | examples-classic/bellman-ford/algorithm.ts:81-96 | following predecessors from a reachable vertex spells out a walk from the start of exactly its distance |
| ShortestPaths.PathIsShortest | examples-classic/bellman-ford/algorithm.ts:73-97 | without a reachable negative cycle the path is empty exactly when the goal is unreachable, and otherwise a simple start-to-goal path of least weight |
| Clearing.ClearWithCurve | examples/flexi-consensus-messaging/start/aws/consensus.js:29-60 | the loops over the sorted bids compute the cleared quantities, price and total, early exit and zero filling included |
| Clearing.SortSorts | examples/flexi-consensus-messaging/start/aws/consensus.js:36 | ordered strictly by bid and then id, with the same entries |
| Clearing.SortedUnique | examples/flexi-consensus-messaging/start/aws/consensus.js:36 | there is only one such order, whatever algorithm sorts |
| Clearing.SortedByBidThenId | examples/flexi-consensus-messaging/start/aws/consensus.js:36 | cheaper bids come first, equal bids by id |
| Clearing.AcceptedExactly | examples/flexi-consensus-messaging/start/aws/consensus.js:41-57 | each sorted offer gets all it has, up to what the offers before it leave of the target, if and only if that is something and the curve at the total with it covers its bid within 1e-9; otherwise it gets nothing |
| Clearing.AcceptedTogether | examples/flexi-consensus-messaging/start/aws/consensus.js:58-59 | exactly those who offered have a quantity, and together these are the accepted total |
| Clearing.RejectedWasTooDear | examples/flexi-consensus-messaging/start/aws/consensus.js:48-55 | with a non-increasing curve, an offer that got nothing although there was room at the end bids more than the curve at the final total plus what would have fitted |
| Clearing.OneOfferClears | examples/flexi-consensus-messaging/start/aws/consensus.js:10-11 | an instance on both curves: a single offer of 10 for a target of 8 is taken at 8.8 upwards and 8.04 downwards |
| Clearing.PriceClearsBids | examples/flexi-consensus-messaging/start/aws/consensus.js:48-53 | the final price covers the bid of every accepted offer |
| Clearing.PriceIsCurve | examples/flexi-consensus-messaging/start/aws/consensus.js:48-53 | the price is the curve at the accepted total whenever anything was accepted |
| Clearing.PartialFillsTarget | examples/flexi-consensus-messaging/start/aws/consensus.js:41-53 | a partly filled offer is the last one accepted, the only one, and then the total is exactly the target |
| Clearing.SecondPassAcceptsNone | examples/flexi-consensus-messaging/start/aws/consensus.js:41-57 | with a non-increasing curve a second pass over rejected offers, in any order, accepts none |
| Clearing.CurvesNonIncreasing | examples/flexi-consensus-messaging/start/aws/consensus.js:10-11 | both price curves are non-increasing |
| Clearing.ComputeProposal | examples/flexi-consensus-messaging/start/aws/consensus.js:63-83 | the proposal holds everybody's cleared quantities in both directions, the prices and the digest of the offers; the hash beside it is the proposal's own digest |
| Clearing.Totals | examples/flexi-consensus-messaging/start/aws/consensus.js:105-113 | sums the allocations in both directions |
| Clearing.ProposalAcceptable | examples/flexi-consensus-messaging/start/aws/consensus.js:96-102 | a proposal is acceptable to a participant if and only if its own maxima are not negative, whatever bids, targets and other offers are |
| Clearing.ProposalTotals | examples/flexi-consensus-messaging/start/aws/consensus.js:63-83 | the allocations add up to exactly the accepted totals, between zero and a non-negative target |
| Clearing.ClearingIgnoresArrivalOrder | examples/flexi-consensus-messaging/start/aws/consensus.js:29-41 | any arrival order of the same offers clears to the same quantities, price and total |
| Clearing.ProposalSays | examples/flexi-consensus-messaging/start/aws/consensus.js:69-82 | a proposal names the slot, epoch, targets, offers digest and prices it is for, and allocates to each offer in each direction what it was cleared to |
| Clearing.ConsensusJsClears | examples/flexi-consensus-messaging/start/aws/consensus.js:63-83 | the library itself, with any two digests, clears as the theorems about both coordinators assume |
| PhasedCoordinator.RunAfterOffers | examples/flexi-consensus-phased/start/aws/index.js:42-61 | collects the offers present, clears them and sends everybody the proposal with its own offer |
| PhasedCoordinator.RunEnds | examples/flexi-consensus-phased/start/aws/index.js:28-123 | whatever is answered, a run has at most four rounds per remaining epoch and ends with its only report |
| PhasedCoordinator.FinalMeansSuccess | examples/flexi-consensus-phased/start/aws/index.js:70-86 | FINAL is broadcast only right before a success report of that proposal and epoch, with totals near the target, and success only follows such a broadcast |
| PhasedCoordinator.PhasedRun | examples/flexi-consensus-phased/start/aws/index.js:106-123 | whole runs: at most `max(1, maxEpochs)` epochs, FINAL in at most one and exactly on success, and a failure reports the latest proposal of an epoch before the last |
| PhasedCoordinator.VerifyReply | examples/flexi-consensus-phased/participant/aws/index.js:21-31 | a participant acknowledges exactly when its offer is present with maxima that are not negative |
| PhasedCoordinator.AcksExactly | examples/flexi-consensus-phased/participant/aws/index.js:21-31 | whatever proposal a participant is sent, it acknowledges exactly what matches its digest and, with its own offer, allocates no more than offered and pays no less than bid |
| PhasedCoordinator.CommitDependsOnTotals | examples/flexi-consensus-phased/start/aws/index.js:64-81 | with real participants an epoch commits if and only if everybody confirmed made such an offer and the totals these clear to are less than 0.1 away from the target |
| PhasedEpochs.EveryEpochIsTried | examples/flexi-consensus-phased/start/aws/index.js:106-123 | a run opens exactly the epochs from 1 to the one it reports, each once and in order, and reports failure only after `max(1, maxEpochs)` of them |
| PhasedEpochs.FollowedByNext | examples/flexi-consensus-phased/start/aws/index.js:106-123 | an epoch below `maxEpochs` that ends without FINAL is followed by the next one |
| PhasedEpochs.OpeningsAskAll | examples/flexi-consensus-phased/start/aws/index.js:94-102 | every opening round asks five nodes, for its own epoch and the run's slot and target |
| PhasedEpochs.SuccessAtFirstDeal | examples/flexi-consensus-phased/start/aws/index.js:64-123 | with real participants an epoch's offers make a deal if and only if it is the epoch reported as a success, so the first deal ends the run |
| PhasedOutcome.RealEpoch | examples/flexi-consensus-phased/start/aws/index.js:28-86 | with five real participants an epoch takes four rounds: all confirm, all offer what they draw, all commit if these offers make a deal and all abort if not, and that decides between the success report, the failure report and the next epoch |
| PhasedOutcome.RealRun | examples/flexi-consensus-phased/start/aws/index.js:19-123 | a whole run with five real participants is decided by what is drawn: four rounds per epoch, success at the first epoch whose offers make a deal, with the proposal they clear to, and failure exactly when none of the `max(1, maxEpochs)` epochs does |
| MessageCoordinator.CoordinatorContext.constructor | examples/flexi-consensus-messaging/start/aws/index.js:20-33 | starts in epoch 1 with nothing collected and all barriers unresolved |
| MessageCoordinator.CoordinatorContext.HandleMessage | examples/flexi-consensus-messaging/start/aws/index.js:87-131 | up to its `await` a handler records its message and resolves the barrier if it was the last; stale messages change nothing |
| MessageCoordinator.CoordinatorContext.ResumeHandler | examples/flexi-consensus-messaging/start/aws/index.js:96-130 | behind the barrier: the next command, with the proposal computed once and the verdict recorded |
| MessageCoordinator.SetOfferIs | examples/flexi-consensus-messaging/start/aws/index.js:102-102 | an offer under a new key goes to the end, one under an old key takes its place |
| MessageCoordinator.AcksExactly | examples/flexi-consensus-messaging/participant/aws/index.js:41-51 | whatever proposal arrives, a participant acknowledges exactly what is for its slot and epoch, matches its digest, allocates no more than it offered and pays no less than it bid |
| MessageAgreement.OffersFollowAnswers | examples/flexi-consensus-messaging/start/aws/index.js:92-98 | GET_OFFER goes out only when exactly those who opted in are listed as participants and all others as non-participants |
| MessageAgreement.ProposalsFollowOffers | examples/flexi-consensus-messaging/start/aws/index.js:101-111 | a PROPOSAL goes out only when every participant's own offer is in, and is cleared from just these |
| MessageAgreement.OneProposalPerEpoch | examples/flexi-consensus-messaging/start/aws/index.js:105-111 | all participants of an epoch, whenever they are served, get the same proposal under the same digest |
| MessageAgreement.VoteIsWillingness | examples/flexi-consensus-messaging/participant/aws/index.js:41-51 | a participant's vote is ACK exactly when its own maxima are not negative |
| MessageAgreement.VerdictIsCommits | examples/flexi-consensus-messaging/start/aws/index.js:119-122 | the counted votes and summed allocations decide just as the epoch's choices and draws do |
| MessageAgreement.VerdictsAgree | examples/flexi-consensus-messaging/start/aws/index.js:114-130 | FINAL never goes out beside ABORT in an epoch; with FINAL every participant has acknowledged, none has not, and totals meet the target |
| MessageAgreement.NoDeadlock | examples/flexi-consensus-messaging/start/aws/index.js:92-117 | until the report is out every reachable state can go on: nobody waits for a barrier that cannot resolve |
| MessageAgreement.RunsEnd | examples/flexi-consensus-messaging/start/aws/index.js:36-55 | a run takes at most nine steps per participant and one more in each of at most `max(1, maxEpochs)` epochs |
| MessageAgreement.OutcomeIgnoresInterleaving | examples/flexi-consensus-messaging/start/aws/index.js:36-55 | every complete run reports the first epoch that commits, with that epoch's deal held by every participant, or else the last epoch's deal: a function of who opts in and what is drawn |
| MessageAgreement.TwoRunsAgree | examples/flexi-consensus-messaging/start/aws/index.js:36-133 | two runs on the same choices and draws never differ in success, epoch, prices or anybody's allocation |
| HtmlBuilding.HtmlBuilder.constructor | examples/webcrawler-batched/crawl/aws/htmlparser.js:504-528 | starts with an empty DOM, no open tag and no last tag |
| HtmlBuilding.HtmlBuilder.Reset | examples/webcrawler-batched/crawl/aws/htmlparser.js:557-568 | goes back to that state |
| HtmlBuilding.HtmlBuilder.SetAttribute | examples/webcrawler-batched/crawl/aws/htmlparser.js:701-706 | assigns one attribute under its lowered name (`LowerExactly`) and changes nothing else |
| HtmlBuilding.HtmlBuilder.Scan | examples/webcrawler-batched/crawl/aws/htmlparser.js:723-724 | leaves the position just below the innermost open tag of the name, or -1 |
| HtmlBuilding.HtmlBuilder.CloseTag | examples/webcrawler-batched/crawl/aws/htmlparser.js:717-731 | pops through the innermost open tag of the name, or nothing |
| HtmlBuilding.HtmlBuilder.Write | examples/webcrawler-batched/crawl/aws/htmlparser.js:672-771 | the effect of one event on the nodes, the open tags and the last tag |
| HtmlForests.AnyStream | examples/webcrawler-batched/crawl/aws/htmlparser.js:690-770 | for every stream, malformed or not, document order is the order of the events that create nodes (all but closing tags and attributes after the first opening tag), and the open tags are a prefix of the rightmost spine and never void |
| HtmlForests.ClosingPops | examples/webcrawler-batched/crawl/aws/htmlparser.js:717-731 | in every state a stream can lead to, a closing tag leaves the DOM alone, pops exactly through the innermost open tag of its name, and changes nothing if it is void or none is open |
| HtmlRoundTrip.RebuildsForest | examples/webcrawler-batched/crawl/aws/htmlparser.js:672-771 | writing the events of any canonical forest leaves no tag open and rebuilds it, except that attributes of void tags inside another tag end up on that tag |
| HtmlRoundTrip.RoundTrip | examples/webcrawler-batched/crawl/aws/htmlparser.js:672-771 | the forest comes back unchanged if and only if no void tag inside another tag has attributes |
| HtmlRoundTrip.ImageInParagraph | examples/webcrawler-batched/crawl/aws/htmlparser.js:711-767 | writing an image in a paragraph builds a different document: the image loses its source to the paragraph |
| HtmlNames.LowerExactly | examples/webcrawler-batched/crawl/aws/htmlparser.js:633-661 | lowering turns each capital into its small letter by code point and keeps every other character |
| HtmlNames.StoredNamesAreLow | examples/webcrawler-batched/crawl/aws/htmlparser.js:627-670 | whatever is written, no tag or attribute name in the DOM holds a capital |
| HtmlNames.RecasedStreamsAgree | examples/webcrawler-batched/crawl/aws/htmlparser.js:717-731 | writing a stream and writing it with any recasing of its names, each by itself, give the same state |
| HtmlNames.RecasedRoundTrip | examples/webcrawler-batched/crawl/aws/htmlparser.js:672-771 | canonical forests come back as in `RebuildsForest` and `RoundTrip` however their opening, closing and attribute events are recased |
| HtmlNames.VoidExactly | examples/webcrawler-batched/crawl/aws/htmlparser.js:532-599 | a tag is void exactly when it starts with a question mark or has, in any case and opening or closing, one of the listed names or one found on every object |
| HtmlNames.AssignNew | examples/webcrawler-batched/crawl/aws/htmlparser.js:701-706 | an attribute of a new name is the last one; `__proto__` changes nothing |
| HtmlNames.AssignAgain | examples/webcrawler-batched/crawl/aws/htmlparser.js:736-739 | an attribute assigned again keeps its place with the new value |
| TreeProcess.Process.constructor | examples-classic/tree/process.ts:10-37 | starts with one invocation, for the root, and no result |
| TreeProcess.Process.HandleMessage | examples-classic/tree/process.ts:30-34 | invokes one worker for each reported path, in order |
| TreeProcess.Process.Complete | examples-classic/tree/process.ts:20-25 | appends the result and resolves with all results flattened when the counts match |
| TreeProcess.EntryIsEither | examples-classic/tree/processNode.ts:38-44 | every entry of a listing is a directory, when its path ends in a slash, or else a file, and counts in its place on that side only |
| TreeProcess.FlatInOrder | examples-classic/tree/process.ts:23-25 | flattened, each result keeps its place among the others |
| TreeProcess.CountDetectsTermination | examples-classic/tree/process.ts:20-25 | in every interleaving the promise is resolved exactly when the counts match, which is exactly when each directory of the tree has been invoked and has returned, and then it holds every file of the tree |
| TreeProcess.EveryRunEnds | examples-classic/tree/processNode.ts:4-23 | every run takes exactly three steps per directory; before that some worker can go on, after that none |
| Crawler.NewUrlsAre | examples/webcrawler-batched/start/aws/index.js:20-21 | the new URLs are the links of the batch not visited before, each once |
| Crawler.PageInBatch | examples/webcrawler-batched/start/aws/index.js:16-20 | wherever a page comes back in a batch, its links and videos take its place |
| Crawler.FailureInBatch | examples/webcrawler-batched/start/aws/index.js:16-20 | a failed reply leaves no trace in its batch |
| Crawler.OneSlashDropped | examples/webcrawler-batched/start/aws/index.js:5-5 | exactly one slash at the end of the start URL is dropped |
| Crawler.AddAllIsNewUrls | examples/webcrawler-greedy/start/aws/index.js:18-23 | adding to the set link by link adds just what the batched callback filters out, in the same order |
| Crawler.GreedyCrawler.OnBatch | examples/webcrawler-greedy/start/aws/index.js:14-24 | one callback: the set grows by exactly the new URLs returned, the video links by those of the batch |
| Crawler.Greedy | examples/webcrawler-greedy/start/aws/index.js:4-35 | the greedy crawl returns the same `crawled` and `videoLinks` sequences as the batched one |
| Crawler.LevelsAreDistances | examples/webcrawler-batched/start/aws/index.js:13-32 | after `k` batches exactly the URLs within link distance `k` have been visited, each once |
| Crawler.CrawlIsClosure | examples/webcrawler-batched/start/aws/index.js:4-32 | a crawl of finitely many URLs ends with exactly the reachable ones, each once, and the video links of all their pages in crawl order |

## Left out

- RuntimeRefinement.DistributedRefinesRecursive: does not cover handlers that keep several batches open at once or fan out over an empty list (whose callback's value the program drops); each handler or callback returns, throws, chains, or fans out once.
- RuntimeProgress.FiniteRunsEnd: does not cover fan-outs that name an undeployed function: there `runAll` throws although other children have been invited (`FnContext.Context.RunAll`), and these reply to an inbox that is gone.
- Transparency.TransparentExactly: does not cover several fan-outs in one re-invoked handler, a snapshot that already holds every result, or a crash between the inbox delete and the snapshot write; `SecondRound` says what happens in the first two.
- Recovery.SnapshotsFormChain: assumes that reading the agg queue gives back all its snapshots; a partial read is not modelled.
- Clearing.ClearingIgnoresArrivalOrder: does not extend to `offersHash`, which depends on the insertion order.
- HtmlRoundTrip.RoundTrip: does not cover streams whose attribute names repeat; `AnyStream` does, and `RecasedRoundTrip` covers names that need lowering.
- FnContext.Context.RunAll: invitations are sent one after the other, in task order; the program sends them concurrently. The callback it names is called by its caller, with the results it returns.
- The atomicity of steps: one handler start, and one poll iteration with its deletes, records, snapshots and callbacks, is one step; each result message is delivered once; sends and snapshot writes succeed.
- `handleInvocation` and `dispatch` in index.js are modelled on values, as steps of the runtime and as the re-invocation of a context; their ordering of event messages other than run_completed and run_failed is not.
- `handleResumption`, user messages between invocations in the inbox, and contexts that are aborted.
- Deadlines, visibility timeouts, the fan-out timeout and clock synchronisation.
- The message consensus participant's loop is modelled as a state machine on values; who opts in is left to the environment although the program always confirms.
- SHA-256 and JSON: a digest is an arbitrary function, assumed free of collisions nowhere, and so are the UUIDs drawn; numbers are exact reals, so floating-point rounding is not modelled.
- Participant ids are numbers in the order in which `localeCompare` puts their strings.
- The builder's non-default options, node locations, the `raw` text kept on tags, writing after `done`, the order of integer-like property names, and letters outside ASCII when names are lowered.
- The tokenizer of htmlparser.js, `RssBuilder` and `DomUtils`; extraction and resolution of links in the crawlers, whose page graph is a fixed function.
- Path strings of the directory tree: a worker holds the listing of its directory instead of looking it up; unknown paths and failing workers do not occur.
- The queue, database and HTTP clients, the engine, the deployer and the command line: calls around simple reconciliation.
- Copies of the consensus and parser files, the classic consensus ports, `processWithDelay` and the small demo plugins: the same logic again.
