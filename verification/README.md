# Delivery control plane, analysis engine and playground: a verified model

This project models the parts of the repository whose promises span many functions or whole runs, and proves those promises for every input and every run.

- **Delivery.** `Flow.dfy` derives the next action from the graph, the gate records and the checkpoint; `Segments.dfy` resolves the execution order into segments; `Records.dfy` names the gate records; `Delivery.dfy` plays whole delivery runs; `Layers.dfy` finds the gates a plan needs and `Schedule.dfy` shows that a delivery asks for just these, in order; `Livelock.dfy` has a plan whose delivery never ends; `Waves.dfy` numbers the parallel waves.
- **Lanes.** `Glob.dfy` matches paths and tests patterns for overlap; `Order.dfy` orders a batch and finds who depends on whom; `Lanes.dfy` holds the fifteen requirements and the ownership check; `Units.dfy` makes units of graph nodes and the flow's decision of the gate's answer; `Batches.dfy` goes the whole way from a DISPATCH to what two workers can commit.
- **Autopilot.** `Leases.dfy` is the lease protocol with whole operations as steps, `LeaseFiles.dfy` the same with single file operations as steps; `Supervise.dfy` is the supervisor as a class over an environment that answers anything.
- **Analysis engine.** `Tally.dfy` counts and groups; `Analysis.dfy` aggregates decisions; `Gates.dfy` evaluates the five gates and `Leaks.dfy` builds the groups that slip through them, with the arithmetic in `Shares.dfy`; `Streaks.dfy` detects repeated failed actions.
- **Playground.** `Quoting.dfy` is JSON string escaping and its inverse; `Canonical.dfy` is the canonical serialiser with a reader that undoes it; `Json.dfy` is the grammar of RFC 8259, which the canonical form follows; `Seeds.dfy` the 32-bit hash, the derived seeds and the generator; `Pool.dfy` the strategy evaluator and the worker pool it bounds.
- `Sorting.dfy` and `Lists.dfy` hold what the others share.

Main results, in the order of their difficulty:

1. Whether delivery completes is decided at the start. A run can deadlock only over a set of packets that was already unstartable before the first action; if there is none, BLOCKED and ERROR never appear and a run that stops has reached COMPLETE. Whether it stops is decided by the plan too. From a fresh start the gates come layer by layer and segment by segment, whatever the workers do, and the runs of a sound plan are bounded if and only if no two of these gates clash, that is, are recorded under one file name where the earlier record is still missed; with a clash COMPLETE is never answered and delivery goes round for ever (`Delivery`, `Layers`, `Schedules`, `Livelock`).
2. A live process that acquired a lease and has not released it is the holder on file, over every interleaving of whole operations, and until it expires nobody else takes it; the first holds too over every interleaving of single file operations in which each deletion hits the file its process had read and no file that is being written. Nothing is asked of a process that reads and does not delete. Five runs show that neither condition can be dropped (`Leases`, `LeaseFiles`).
3. A gate is recorded only with its full justification, no gate is ever recorded after a no-progress failure, repair counters pass their bound by at most one for each run that ended escalated or was cut off, and an unresolved escalation freezes every later run, wherever runs are cut off (`Supervise`).
4. The canonical form of two configurations is equal exactly when they mean the same, cycles and unsupported values are exactly what fails, a reader recovers the meaning, and the text is JSON with the names of every object in ascending order (`CanonicalForm`, `JsonTexts`).
5. A dispatch is parallel exactly for nodes that are fit for it by what the graph, the policy and the work tree say of them, and then no path but evidence can be committed from two of its lanes (`Glob`, `Lanes`, `Batches`).
6. A verdict of CANDIDATE means that all five gates pass exactly for the configurations that are not leaky (`SafetyGates`, `Leaks`).

Where the code and what is written about it differ, the model follows the code:

- `scripts/lanes.ts:203-204` says that the subtrees of two sibling directories overlap. They do not: the literal prefix keeps the directory before the glob (`Glob.SiblingSubtrees`).
- `platform/analysis-engine/src/gate-contract.ts:43` says CANDIDATE means every status is PASS. The code looks at failures only, so a gate that does not apply does not suppress. `SafetyGates.VerdictMeansAllPass` and `Leaks.LeakyConfigsLeak` say for exactly which thresholds the two agree.
- `scripts/flow.ts:60-65` says that a node which no segment delivers is a configuration error. An order that leaves out a named segment, or a whole phase, is accepted (`SegmentTable.OmittedSegmentIsSilent`); `SegmentTable.DeliveredWhereListed` says exactly when a node is delivered.
- `playground/providers/mock-provider.ts:320-322` accepts that step names with a bar may collide. They cannot (`Seeds.IdentityIsInjective`).
- `scripts/autopilot/lease.ts:77-78` says that an unreadable lease file is held. It is read as already expired and owned by no process, so it is taken over; `LeaseFiles.TornCreationBreaks` and `LeaseFiles.TornRenewalBreaks` show what that costs.
- `scripts/flow.ts:549` calls a wave record permanent coverage. A record is a file named after its segment and packets with punctuation folded, and a second record of that name replaces it. `Schedules.DeliveryEndsExactly` says for which plans that makes delivery endless, and `Livelock.EndlessDelivery` gives one. The no-progress guard does not see this, because the two gates alternate.
- A no-progress failure is never resolved by any step or by a resume, so after one no gate can be recorded again (`Supervise.Supervisor.Supervise`, `Supervise.Sessions`).
- Group keys are joined with a space (`platform/analysis-engine/src/aggregate.ts:48`), so two keys with spaces in them can share a bucket, and then the result depends on the order of the records (`Aggregation.OrderIsIgnoredExactly`).

## Model

| member | source | states |
|---|---|---|
| `Flow.Walk` | scripts/flow.ts:222-237 | the depth-first walk with its shared `seen` set: true only for something reachable, false only when all it newly visited is exhausted |
| `Flow.DependsOn` | scripts/flow.ts:222-237 | true exactly when a target is reachable through one or more needs edges, cycles included |
| `Flow.KeepDispatchable` | scripts/flow.ts:368-370 | keeps, in order, exactly the ready nodes that reach no delivered packet without a wave record |
| `Flow.Transition` | scripts/flow.ts:253-438 | the loops of the transition compute the action that the lemmas below are about |
| `Flow.ActionNamesCurrent` | scripts/flow.ts:296-343 | an action about a segment names the first one that holds delivery back, and its phase |
| `Flow.RecordsDoTheirOwn` | scripts/flow.ts:291-305 | a phase record covers no packet and a wave record closes no segment |
| `Flow.AdvanceIsSafe` | scripts/flow.ts:325-343 | ADVANCE_PHASE moves strictly forward, and every segment it leaves behind is delivered and either fully gated or closed by history |
| `Flow.CompleteExactly` | scripts/flow.ts:296-314 | COMPLETE if and only if the configuration is sound, nothing is recovering and every segment is settled |
| `Flow.TotalityBranchIsDead` | scripts/flow.ts:417-437 | the final return kept for totality is unreachable |
| `Flow.DispatchIsSound` | scripts/flow.ts:345-386 | no dispatched packet builds, over any chain of needs, on a delivered packet of its segment that lacks a wave record |
| `Flow.WaveGateIsRecordable` | scripts/flow.ts:388-405 | a wave gate names at least one packet, and none the record command refuses |
| `Flow.Unrecordable` | scripts/flow.ts:139-147 | empty exactly when every packet is known and DONE by its probes |
| `Graph.OpenDecisions` | scripts/oracle.ts:195-202 | empty exactly when every decision that blocks the node is answered |
| `SegmentTable.ClaimAll` | scripts/flow.ts:74-80 | accepts exactly when the named segments list known nodes and no node twice |
| `SegmentTable.ResolveOrder` | scripts/flow.ts:82-99 | one segment for each entry of the order, or some entry that has none |
| `SegmentTable.SegmentsOf` | scripts/flow.ts:66-109 | a table if and only if order, claims, every entry and the split phases are in order, and then the only one |
| `SegmentTable.DeliveredWhereListed` | scripts/flow.ts:60-109 | a node is delivered at exactly the positions where the order lists its home, so once, never or twice according to the order |
| `SegmentTable.NamedSegmentsAreDisjoint` | scripts/flow.ts:74-80 | two positions share a node only if they are the same segment or two numbers of one phase |
| `SegmentTable.OmittedSegmentIsSilent` | scripts/flow.ts:101-108 | an accepted table that delivers one of its nodes nowhere |
| `SegmentTable.StateDoesNotMatter` | scripts/flow.ts:66-109 | whether a table is accepted, and as what, does not depend on what has been delivered |
| `SegmentedPlans.SegmentsStay` | scripts/flow.ts:262-263 | once accepted, deriving the segments anew gives the same segments in every world, so no delivery step turns into an ERROR |
| `SegmentedPlans.SegmentsAlongRun` | scripts/flow.ts:262-263 | along a run the segments the actions are derived from are the ones the table gives there |
| `SegmentedPlans.AcceptedTablesAreTidy` | scripts/flow.ts:66-109 | an accepted table whose order lists no segment and no phase number twice has segments of different names with no packet in common |
| `Records.HeadedNamesApart` | scripts/flow.ts:570-574 | where every packet id begins with a word that no id has in another place, and folding tells ids apart, two records never share a file name |
| `Delivery.BlockedIsDeadlock` | scripts/flow.ts:407-415 | BLOCKED is answered only over a set of packets none of which can ever start |
| `Delivery.DeadlockPersists` | scripts/flow.ts:253-438 | carrying out an action never undoes a deadlock |
| `Delivery.DeadlockWasThere` | scripts/flow.ts:253-438 | carrying out an action never makes one |
| `Delivery.DeadlockNeverComplete` | scripts/flow.ts:307-314 | with a deadlock the answer is not COMPLETE |
| `Delivery.PotentialFalls` | scripts/flow.ts:253-438 | from any world, an action that replaces no other record lowers the measure of what is left: packets by how far they are, segments without a phase record, checkpoint distance |
| `Delivery.RunsAreShort` | scripts/flow.ts:253-438 | from any start, a run in which no record replaces another has at most 1 + 3 · packets + 2 · segments actions |
| `Layers.LayerIsInhabited` | scripts/flow.ts:367-405 | the layers of a segment, by the longest chain of needs inside it, are numbered without gaps from 1 to its depth |
| `Layers.RecIsInjective` | scripts/flow.ts:562-569 | different gates of a plan have different records |
| `Layers.NoClashExactly` | scripts/flow.ts:570-574 | where every segment has something to deliver, no clash means that all wave and phase records of the plan have different names |
| `Layers.HeadedPlansDoNotClash` | scripts/flow.ts:121-123 | no gates clash in a plan whose packet ids begin with a word that no id has in another place, such as the p1 of p1.docker-files |
| `Schedules.AsksWhatIsDue` | scripts/flow.ts:296-438 | at every stage work is handed out only from the layer that is due, the gate asked for is the one over that layer once it is delivered, or the one that lost its record, and COMPLETE only comes after the last gate |
| `Schedules.CarriedKeeps` | scripts/flow.ts:562-575 | carrying out what is asked for leads to the next stage: the gate after it, or, if the new record replaced one that is missed, back and forth between the two |
| `Schedules.CompleteMeansNoClash` | scripts/flow.ts:307-314 | COMPLETE is answered only if no gates of the plan clash |
| `Schedules.DeliveryEnds` | scripts/flow.ts:253-438 | without a clash no run from a fresh start has more than 1 + 3 · packets + 2 · segments actions and the number of gates besides |
| `Schedules.DeliveryNeverEnds` | scripts/flow.ts:570-575 | with a clash there are runs of every length from a fresh start, whatever the plan |
| `Schedules.DeliveryEndsExactly` | scripts/flow.ts:253-438 | for every sound plan with disjoint segments, runs from a fresh start are bounded if and only if no two of its gates clash |
| `Livelock.EndlessDelivery` | scripts/flow.ts:570-575 | one segment of a, b and a-b, the last needing the others, is a sound plan without bounded runs |
| `Livelock.SharedNamesExist` | scripts/flow.ts:121-123 | the waves over a, b and over a-b have one name in any segment |
| `Livelock.SameFoldClashes` | scripts/flow.ts:572-573 | so have the phase records of two segments whose ids fold alike, and they clash if the first has something to deliver |
| `Livelock.OneLayerNeverClashes` | scripts/flow.ts:571-574 | one segment of packets that do not need one another never clashes, whatever their ids are |
| `Delivery.OnlyEndsStop` | scripts/flow.ts:253-438 | a world has no next one if and only if its action is COMPLETE or BLOCKED |
| `Delivery.DeliveryIsDecidedAtTheStart` | scripts/flow.ts:253-438 | with no deadlock at the start, never BLOCKED or ERROR and the end is COMPLETE; with one, never COMPLETE and the end is BLOCKED |
| `Delivery.SoundPlansDoNotDeadlock` | scripts/oracle.ts:228-238 | acyclic needs that point to required nodes of the same or an earlier segment, with all decisions answered, admit no deadlock in any world |
| `Delivery.SoundPlansDeliver` | scripts/flow.ts:253-438 | every run of such a plan avoids BLOCKED and ERROR and can only end in COMPLETE |
| `Waves.AssignWaves` | scripts/oracle.ts:242-263 | the wave of an unfinished node is the length of its longest chain of unfinished in-phase needs, and 0 exactly when that has twenty nodes or more |
| `Waves.WavesAreLayers` | scripts/oracle.ts:242-263 | what a placed node waits for is in a strictly earlier wave, and something in the one just before |
| `Waves.UnplacedExactly` | scripts/oracle.ts:247-255 | in every graph, unplaced means on or behind a cycle or at the start of a chain of twenty different nodes, and conversely |
| `Waves.NextWave` | scripts/lanes.ts:1284-1295 | the ids of the lowest wave that has any, each once, ascending |
| `Waves.NextWaveIsAnAntichain` | scripts/oracle.ts:218-219 | no node of such a wave needs another of it |
| `Waves.NextWaveWaitsForNothing` | scripts/lanes.ts:1284-1295 | the next wave is wave 1: exactly the placed nodes that wait for nothing unfinished in their phase |
| `Units.UnitsFor` | scripts/lanes.ts:685-719 | one unit an id, in order, or an error exactly for an id the graph does not have |
| `Units.NextWaveMeetsR5` | scripts/lanes.ts:276-284 | the units made of the next wave have no in-batch dependencies, so the gate's R5 holds of them |
| `Units.DecisionKeepsIds` | scripts/flow.ts:255-260 | where every node has a class, the lane decision the flow asks for orders exactly the nodes it was asked about |
| `Batches.DispatchIsDecided` | scripts/flow.ts:372-385 | with the gate as `decide`: a parallel dispatch is over an eligible batch, a sequential one is not; each packet once, what it needs of the batch before it if and only if needs are acyclic |
| `Batches.IntegrateIsDecided` | scripts/flow.ts:353-366 | an integration lists its packets once each, needs first if and only if they are acyclic |
| `Batches.ParallelDispatchIsDisjoint` | scripts/flow.ts:372-385 | a path that two packets of a parallel dispatch may both commit is evidence, and evidence they may |
| `Batches.ParallelExactly` | scripts/lanes.ts:231-451 | on graph nodes: parallel if and only if at least two different nodes, all known and classed, none of high risk, no decision open, every need known, delivered and outside the batch, surfaces declared, disjoint and off shared and frozen ones, and a work tree at rest with nothing uncommitted in them |
| `Batches.EligibleExactly` | scripts/lanes.ts:231-451 | the same for the units made of the nodes |
| `Batches.MissedIsBlamed` | scripts/lanes.ts:231-432 | each way in which a node misses this puts the requirement it misses among the blockers |
| `Batches.NodeMayCommit` | scripts/lanes.ts:685-719 | a node's worker may commit evidence, and what the node allows and neither the node nor the policy forbids |
| `Glob.AnyMatch` | scripts/lanes.ts:218-220 | the first pattern that matches, and none only if none does |
| `Glob.SubtreeMatches` | scripts/lanes.ts:174-187 | `d**` matches exactly what begins with `d` and has no line end after it, however deep |
| `Glob.NameMatches` | scripts/lanes.ts:174-187 | `d*` matches exactly `d` with a slash-free rest |
| `Glob.CharacterMatches` | scripts/lanes.ts:174-187 | `d?` matches exactly `d` and one character that is no slash |
| `Glob.AnywhereMatches` | scripts/lanes.ts:174-187 | `**/x` matches exactly `x`, and `x` after a slash |
| `Glob.MatchesExactly` | scripts/lanes.ts:174-187 | any pattern matches exactly the texts its pieces stand for, one after the other |
| `Glob.MatchStartsLiterally` | scripts/lanes.ts:174-187 | whatever a pattern matches starts with all the pattern has before its first glob character, and is the pattern itself if it has none |
| `Glob.SharedPathMeansOverlap` | scripts/lanes.ts:174-216 | if any path matches both patterns the overlap test is true: no false negatives, for all patterns and paths |
| `Glob.SubtreePrefix` | scripts/lanes.ts:190-197 | the literal prefix of `dir/x/**` is `dir/x/` |
| `Glob.SiblingSubtrees` | scripts/lanes.ts:199-212 | two sibling subtrees overlap if and only if they are the same |
| `Order.DependencyOrder` | scripts/lanes.ts:519-541 | the loop over the pending map computes the order that the lemmas below are about |
| `Order.OrderIsTopological` | scripts/lanes.ts:519-541 | each id of the batch once, whatever the dependencies; every in-batch dependency before its dependent if and only if they are acyclic |
| `Order.OrderIgnoresListing` | scripts/lanes.ts:515-518 | the same batch integrates in the same order however its units are listed |
| `Order.IndependentIsAscending` | scripts/lanes.ts:519-541 | ids that wait for nothing of the batch come in ascending order |
| `Order.Dependents` | scripts/lanes.ts:559-573 | exactly the other ids that build on the unit over any chain of dependencies, ascending |
| `Lanes.PathOverlaps` | scripts/lanes.ts:484-501 | exactly the pairs of overlapping patterns of two different units, with the units they belong to; none exactly when all surfaces are pairwise disjoint |
| `Lanes.ExactCollisions` | scripts/lanes.ts:503-513 | exactly the normalised patterns that are declared more than once |
| `Lanes.LaneOf` | scripts/lanes.ts:595-611 | every other id of the batch is in exactly one of halts-if-failed and independent-of, by reachability |
| `Lanes.Requirements` | scripts/lanes.ts:231-428 | the loops compute the fifteen requirements as they are specified |
| `Lanes.Evaluate` | scripts/lanes.ts:430-451 | parallel exactly when all fifteen hold, blockers exactly the ones that do not, order and lanes as specified, concurrency the lesser of the policy's and the number of units, or one; fails exactly for a unit without a usable change class |
| `Lanes.BlockersExactly` | scripts/lanes.ts:231-432 | a requirement is among the blockers exactly if something in the batch fails it, requirement by requirement |
| `Lanes.EligibleUnits` | scripts/lanes.ts:231-432 | what all fifteen come to, for the units together |
| `Lanes.Rule` | scripts/lanes.ts:797-820 | accepted exactly for evidence, or for an allowed path that no forbidden pattern matches |
| `Lanes.EvidenceExactly` | scripts/lanes.ts:799-804 | evidence is exactly what lies below `.artifacts/`, however deep |
| `Lanes.OwnedSubtree` | scripts/lanes.ts:797-820 | a lane that owns a directory may commit everything below it that is not forbidden |
| `Lanes.OnlyOwnedSubtrees` | scripts/lanes.ts:797-820 | and if it owns directories alone, nothing outside them but evidence |
| `Lanes.CheckOwnership` | scripts/lanes.ts:789-822 | every changed path is accepted or a violation, with its ruling; ok exactly when all are accepted |
| `Lanes.OneOwner` | scripts/lanes.ts:231-451 | in an eligible batch two different lanes can both commit a path if and only if it is under `.artifacts/` |
| `Lanes.NoSharedSurface` | scripts/lanes.ts:329-341 | and no lane can commit another path that matches a shared-write or serialise surface |
| `Lanes.CommitsAreDisjoint` | scripts/lanes.ts:789-822 | whatever two lanes changed, what the check accepted from both is evidence |
| `Leases.LeaseDir.AcquireLease` | scripts/autopilot/lease.ts:112-191 | takes the node exactly when its file is absent or its holder is expired and gone; otherwise nothing changes |
| `Leases.LeaseDir.ReleaseLease` | scripts/autopilot/lease.ts:194-200 | removes the file exactly when the worker on file is the releasing one |
| `Leases.LeaseDir.RenewLease` | scripts/autopilot/lease.ts:203-218 | rewrites the expiry, and only that, of the worker's own lease |
| `Leases.LeaseDir.ReapExpired` | scripts/autopilot/lease.ts:240-251 | removes exactly the files of readable leases that are expired and whose process is gone |
| `Leases.LeasesAreSafe` | scripts/autopilot/lease.ts:112-251 | each live claimant is the holder on file, over every run of acquire, renew, release, reap, crash and clock steps by any number of processes |
| `Leases.LeaseLasts` | scripts/autopilot/lease.ts:112-251 | over every run a lease stays on file until its own worker releases or renews it, or somebody acquires or reaps after it has expired and its process is gone |
| `Leases.UnexpiredIsHeld` | scripts/autopilot/lease.ts:165-169 | so no acquire and no reaping before its expiry takes it, whatever has become of its process |
| `Leases.TakenExactly` | scripts/autopilot/lease.ts:151-182 | the next acquire takes a node exactly if its file is absent, unreadable, or of a lease that has expired and whose process is gone, and reports whom it took it from |
| `Leases.ReapedExactly` | scripts/autopilot/lease.ts:240-251 | reaping removes exactly the readable leases that have expired and whose process is gone |
| `Leases.PlainKeysHaveFiles` | scripts/autopilot/lease.ts:61-70 | keys of letters, digits, dots, underscores and dashes have files of their own |
| `LeaseFiles.EventKeeps` | scripts/autopilot/lease.ts:133-251 | every single file operation keeps the invariant; only a deletion has conditions: it hits the file that was read, and no unreadable file that somebody writes or has written since |
| `LeaseFiles.BothAskDeletionsOnly` | scripts/autopilot/lease.ts:151-178 | both conditions hold of every event that deletes nothing, such as any number of processes reading a held lease |
| `LeaseFiles.JudgedExactly` | scripts/autopilot/lease.ts:165-178 | what was read is doomed exactly if it has expired and its process is gone, and nothing else dooms it |
| `LeaseFiles.FileOperationsAreSafe` | scripts/autopilot/lease.ts:133-251 | over every interleaving in which deletions meet those conditions, a live claimant is the holder of its file and no file has two owners |
| `LeaseFiles.TornCreationBreaks` | scripts/autopilot/lease.ts:136-138 | a file read between creation and content: some run in which every deletion hits the file that was read gives one node two live owners |
| `LeaseFiles.TornRenewalBreaks` | scripts/autopilot/lease.ts:216-216 | so does a file read between a renewal's truncation and its content |
| `LeaseFiles.OverlapBreaks` | scripts/autopilot/lease.ts:151-182 | two processes read one abandoned lease and both take it over: two live owners, no file read while written |
| `LeaseFiles.StaleReadBreaks` | scripts/autopilot/lease.ts:165-180 | a lease that was live when read: its holder releases and ends, another process acquires, and the reader, judging only then, deletes the new lease |
| `LeaseFiles.VanishedReadBreaks` | scripts/autopilot/lease.ts:73-87 | a file that vanishes between the existence check and the read is taken for an abandoned lease, and the lease made meanwhile is deleted |
| `Progression.Judge` | scripts/autopilot/progression.ts:77-127 | green exactly when every required source is GREEN with evidence; exactly the others are blamed, exactly what the passing ones cite is the evidence, each path once |
| `Supervise.WritesFormALine` | scripts/autopilot/state.ts:196-211 | of any writes in any order, each accepted one was made on the revision the accepted one before it left |
| `Supervise.NoProgressStays` | scripts/autopilot/supervise.ts:312-320 | no later state has a no-progress failure resolved |
| `Supervise.NoProgressBlocksGates` | scripts/autopilot/state.ts:300-305 | such a failure blocks every gate of every segment |
| `Supervise.GateBlockedExactly` | scripts/autopilot/state.ts:281-305 | a gate is blocked exactly by an unresolved failure that is not a hold of its own segment's gates |
| `Supervise.GatesHaveBuckets` | scripts/autopilot/state.ts:265-279 | the phase gate and the wave gates of a segment have different counters, two wave gates one exactly if they cover the same packets |
| `Supervise.SignatureTells` | scripts/autopilot/supervise.ts:1104-1106 | actions of one signature are of one kind, about one segment and over the same packets |
| `Supervise.ResumeLifts` | scripts/autopilot.ts:406-431 | a resume lifts the freeze and touches neither failures, nor counters, nor nodes |
| `Supervise.GateVerdict` | scripts/autopilot/supervise.ts:561-669 | green exactly when command, probe, failures, worker and, for a phase, both checks are good |
| `Supervise.KeysDiffer` | scripts/autopilot/state.ts:265-268 | different nodes of a batch are charged to different counters |
| `Supervise.Supervisor.Save` | scripts/autopilot/supervise.ts:271-273 | every save applies to the latest revision and is never refused |
| `Supervise.Supervisor.RecordFailure` | scripts/autopilot/supervise.ts:295-310 | appends one unresolved failure and changes nothing else |
| `Supervise.Supervisor.ResolveFailures` | scripts/autopilot/supervise.ts:312-320 | resolves what the predicate names and changes nothing else; no no-progress failure is touched unless the predicate names it |
| `Supervise.Supervisor.Escalate` | scripts/autopilot/supervise.ts:322-341 | leaves an unresolved escalation on disk |
| `Supervise.Supervisor.BumpRepair` | scripts/autopilot/supervise.ts:360-365 | one counter rises by one, all others stay |
| `Supervise.Supervisor.RunGate` | scripts/autopilot/supervise.ts:535-717 | the record command is issued if and only if command, probe, worker and, for a phase, both checks are good and no failure but this segment's own holds is unresolved, and straight after these; recorded exactly when it exited 0 |
| `Supervise.Supervisor.HandleGate` | scripts/autopilot/supervise.ts:754-811 | a recorded gate resolves its own holds and costs nothing; a held one adds a hold and one attempt, past the bound escalates, and up to it leases a repair worker |
| `Supervise.Supervisor.HoldGate` | scripts/autopilot/supervise.ts:774-791 | escalates exactly past the bound; in between, the disk holds the counted attempt with nothing escalated |
| `Supervise.Supervisor.RunWorkers` | scripts/autopilot/supervise.ts:826-839 | workers of a batch interleaved in any order: a lease is asked for once a node, exactly those that get one are launched, their results are what they reported, and only their own nodes and the revision change |
| `Supervise.Supervisor.StartWorker` | scripts/autopilot/supervise.ts:827-833 | a node under repair gets a repair worker, any other one for the packet |
| `Supervise.Supervisor.Settle` | scripts/autopilot/supervise.ts:841-921 | for each outcome, what is resolved, recorded and charged, what becomes of the node, and exactly when it escalates and why |
| `Supervise.Supervisor.SettleAll` | scripts/autopilot/supervise.ts:841-921 | every failure of the batch is on record and charged once, no other counter changes, and nothing is left unsettled unless the run ends |
| `Supervise.Supervisor.HandleDispatch` | scripts/autopilot/supervise.ts:813-923 | a sequential dispatch launches at most the first packet, a parallel one at most the first `concurrency`, each once if its lease is granted; no counter rises by more than one and no other changes; the bound is passed only if it ends escalated |
| `Supervise.Supervisor.Step` | scripts/autopilot/supervise.ts:925-1034 | one action: terminal and escalated exactly as the action demands, the workers it calls for launched under a lease, every record justified, counters within the bound |
| `Supervise.Supervisor.Iterate` | scripts/autopilot/supervise.ts:1155-1244 | a stop request ends it with nothing done; nothing runs while an escalation is unresolved, nor in a dry run; a step is reached only below the repeat limit |
| `Supervise.Supervisor.Supervise` | scripts/autopilot/supervise.ts:1108-1253 | over a whole run: every record justified, none after a no-progress failure; each counter at most the bound, or where it was, plus one, the one only when escalated; the same of every state saved on the way, frozen ones staying frozen; nothing is done in a dry run or after a stop request; at most the limit of equal steps in a row; a run the guard ends leaves its failure behind |
| `Supervise.TrailingGrows` | scripts/autopilot/supervise.ts:1192-1195 | no signature is stepped more often in a row than the limit allows |
| `Supervise.OneSession` | scripts/autopilot.ts:406-440 | a run or a resume, cut off after any of its saves and events or not at all: a frozen state stays frozen and nothing is launched |
| `Supervise.Sessions` | scripts/autopilot.ts:406-450 | over any number of runs and resumes in one directory, any of them cut off: once a no-progress failure is on disk no gate is recorded in any later run, and a frozen state waits for a resume |
| `Supervise.RepairBoundOverRuns` | scripts/autopilot/supervise.ts:360-365 | after any number of runs a counter is past the bound, or past where it started, by at most the number of runs that ended escalated or were cut off |
| `Tallies.TallyKeys` | platform/analysis-engine/src/aggregate.ts:138-146 | the counting loop computes the tally that the lemmas below are about |
| `Tallies.TallyExactly` | platform/analysis-engine/src/aggregate.ts:138-146 | one entry for each key that occurs, with its number of occurrences, by count and then by name |
| `Tallies.TallyIgnoresOrder` | platform/analysis-engine/src/aggregate.ts:137-146 | the tally is the same for every order of its keys |
| `Tallies.TallyConserves` | platform/analysis-engine/src/aggregate.ts:138-146 | the counts add up to the number of keys |
| `Tallies.Group` | platform/analysis-engine/src/aggregate.ts:65-73 | one pass puts every element into the bucket of its key, in order |
| `Aggregation.CountExclusions` | platform/analysis-engine/src/aggregate.ts:127-135 | counts stale records, and un-keyed ones that are not stale |
| `Aggregation.DominantIsMostChosen` | platform/analysis-engine/src/aggregate.ts:90-92 | counted over the records: no option was chosen more often than the dominant one, and of those chosen as often it is the first by name; none only without samples |
| `Aggregation.DominanceIsShare` | platform/analysis-engine/src/aggregate.ts:90-92 | its dominance is its share of the samples |
| `Aggregation.CoverageIsShare` | platform/analysis-engine/src/aggregate.ts:87-116 | samples, different contexts, attested samples and their share |
| `Aggregation.RateIsShareOfSuccess` | platform/analysis-engine/src/aggregate.ts:100-120 | the success rate is the share of successes among the dominant option's own samples with a known outcome, and undefined exactly without any |
| `Aggregation.RatioTimes` | platform/analysis-engine/src/aggregate.ts:114-120 | a share times the whole is the part |
| `Aggregation.CounterexamplesExactly` | platform/analysis-engine/src/aggregate.ts:170-200 | exactly the eligible failures of the dominant option and the eligible successes of the others, each cited in full |
| `Aggregation.CounterexamplesAreSorted` | platform/analysis-engine/src/aggregate.ts:170-200 | by context and then by decision |
| `Aggregation.DistributionExactly` | platform/analysis-engine/src/aggregate.ts:137-146 | each option that was chosen, with how often |
| `Aggregation.ConcentrationExactly` | platform/analysis-engine/src/aggregate.ts:212-224 | each context in which another option was chosen, with how often |
| `Aggregation.OneAggregateAGroup` | platform/analysis-engine/src/aggregate.ts:64-78 | where keys serialise apart: one aggregate for each group that occurs, over all its records, and no others |
| `Aggregation.AggregateRecords` | platform/analysis-engine/src/aggregate.ts:64-78 | bucketing and sorting compute the aggregation that the lemmas below are about |
| `Aggregation.AggregationConserves` | platform/analysis-engine/src/aggregate.ts:80-135 | samples plus both exclusions are the records; option counts sum to the samples; minority counts to the samples without the dominant option's |
| `Aggregation.GroupIgnoresOrder` | platform/analysis-engine/src/aggregate.ts:80-125 | with distinct decision ids a group's aggregate is the same for every order of its records |
| `Aggregation.AggregationIgnoresOrder` | platform/analysis-engine/src/aggregate.ts:63-78 | and so is the whole aggregation, when different keys serialise apart |
| `Aggregation.SerialsApart` | platform/analysis-engine/src/aggregate.ts:47-49 | keys without spaces in their first three fields serialise apart |
| `Aggregation.SharedSerialDependsOnOrder` | platform/analysis-engine/src/aggregate.ts:67-73 | in every list with two different keys that serialise alike, some other order of it gives another result |
| `Aggregation.OrderIsIgnoredExactly` | platform/analysis-engine/src/aggregate.ts:47-78 | for every list with distinct ids: all its orders give one result if and only if different keys serialise apart |
| `SafetyGates.GateReading` | platform/analysis-engine/src/gates.ts:91-105 | CANDIDATE means four thresholds met and the success gate not failed; all PASS means that and an attested dominant option |
| `SafetyGates.FailedExactly` | platform/analysis-engine/src/gates.ts:57-105 | a gate is listed as failed exactly if its own threshold is not met |
| `SafetyGates.FailedIn` | platform/analysis-engine/src/gates.ts:99-99 | names every gate that fails and no other, never just the first |
| `SafetyGates.UnattestedDominant` | platform/analysis-engine/src/aggregate.ts:97-120 | without an attested sample of the dominant option, its samples and the attested ones together are at most all samples |
| `SafetyGates.VerdictMeansAllPass` | platform/analysis-engine/src/gate-contract.ts:43-43 | for every record list and every configuration that is not leaky, CANDIDATE if and only if all five gates PASS |
| `Leaks.LeakyConfigsLeak` | platform/analysis-engine/src/gates.ts:57-105 | for every leaky one (thresholds at most 1 together, coverage below 1) with a rational dominance threshold, a group that is CANDIDATE without all PASS |
| `Streaks.SameKeyIsSameAction` | platform/analysis-engine/src/repeated-failed-action.ts:47-49 | the key text is the same exactly for the same run, tool and input |
| `Streaks.FindStreaks` | platform/analysis-engine/src/repeated-failed-action.ts:86-115 | the walk with its flush computes the streaks that the lemmas below are about |
| `Streaks.StreaksAreMaximalRuns` | platform/analysis-engine/src/repeated-failed-action.ts:83-115 | the streaks are exactly the maximal runs of three or more failures, in order and apart |
| `Streaks.DetectRepeatedFailedActions` | platform/analysis-engine/src/repeated-failed-action.ts:65-81 | bucketing and a stable sort by time compute the detection that the lemmas below are about |
| `Streaks.DetectExactly` | platform/analysis-engine/src/repeated-failed-action.ts:51-81 | an emission exists if and only if it is a maximal run of three or more failures among the calls of one run, tool and input by time |
| `Streaks.EmissionMeans` | platform/analysis-engine/src/repeated-failed-action.ts:90-104 | an emission counts and names at least three calls, each failed and of the run, tool and input it names |
| `Streaks.FailedExactly` | platform/analysis-engine/src/repeated-failed-action.ts:39-41 | a call has failed exactly if its outcome is not a success or it names an error |
| `Streaks.SameActionCallsExactly` | platform/analysis-engine/src/repeated-failed-action.ts:68-78 | those calls are all the calls of the action and no others, sorted by time |
| `Streaks.KeyIsIndependent` | platform/analysis-engine/src/repeated-failed-action.ts:54-58 | the emissions under a key are those of its own calls |
| `Streaks.OtherKeysDoNotMatter` | platform/analysis-engine/src/repeated-failed-action.ts:54-58 | calls of other keys change none of them |
| `Streaks.EachCallAtMostOnce` | platform/analysis-engine/src/repeated-failed-action.ts:60-63 | the attempts of all emissions together are calls of the input, none more often than it occurs |
| `Streaks.ArrivalDoesNotMatter` | platform/analysis-engine/src/repeated-failed-action.ts:75-77 | with distinct times per key, the order of arrival does not matter |
| `Quoting.EscapeReadsBack` | playground/agents/scenario-seed.ts:70-70 | reading undoes JSON string escaping, lone surrogates included, whatever follows |
| `Quoting.QuoteIsInjective` | playground/agents/scenario-seed.ts:96-96 | two quoted strings with anything behind them agree only if the strings and the rest do |
| `JsonGrammar.QuoteIsString` | playground/agents/scenario-seed.ts:70-70 | a quoted string is a string of section 7 of RFC 8259 that stands for it |
| `JsonGrammar.EscapeIsWellFormed` | playground/agents/scenario-seed.ts:70-70 | and has no lone surrogate, whatever the string has |
| `JsonGrammar.EscapesAre` | playground/agents/scenario-seed.ts:70-70 | which characters are escaped, and how |
| `CanonicalForm.ListedKeys` | playground/agents/scenario-seed.ts:93-95 | filtering and sorting list exactly the defined keys in order, however the object lists them |
| `CanonicalForm.PrintReadsBack` | playground/agents/scenario-seed.ts:66-99 | the reader recovers every tree from its text, whatever follows |
| `CanonicalForm.SerialisesExactly` | playground/agents/scenario-seed.ts:66-99 | a value is serialised if and only if it unfolds to a finite tree, and the text is that tree's |
| `JsonTexts.CanonicalIsJson` | playground/agents/scenario-seed.ts:66-99 | the text is a JSON text (RFC 8259) of what the value means, with the names of every object strictly ascending |
| `CanonicalForm.CanonicalIsUnambiguous` | playground/agents/scenario-seed.ts:61-99 | two texts are equal if and only if the values mean the same tree, in whatever heaps they live; the reader gives that tree |
| `CanonicalForm.FailsExactly` | playground/agents/scenario-seed.ts:73-89 | it fails if and only if a walk through the value comes back to an object or ends at an unsupported one, and the error it names is one the value has |
| `Seeds.HashToSeed` | playground/providers/prng.ts:30-37 | the loop computes the hash that the lemmas below are about |
| `Seeds.HashOfNothing` | playground/providers/prng.ts:31-31 | the hash of nothing is the published offset basis |
| `Seeds.StepIsBijective` | playground/providers/prng.ts:33-34 | for each code unit the hash step has a two-sided inverse on 32 bits |
| `Seeds.OneDifferenceShows` | playground/providers/prng.ts:30-37 | two strings of one length that differ at exactly one position have different hashes |
| `Seeds.HashFromIsBijective` | playground/providers/prng.ts:30-37 | every string maps starting values to hashes one to one and onto |
| `Seeds.IdentityIsInjective` | playground/providers/mock-provider.ts:319-323 | equal identities mean equal step, call index and salt, even when step names contain bars |
| `Seeds.IdentityIs` | playground/providers/mock-provider.ts:319-323 | step, call index and salt with bars between them |
| `Seeds.DerivedSeedTellsSeeds` | playground/providers/mock-provider.ts:319-324 | for one call, different 32-bit seeds derive different seeds |
| `Seeds.DerivedSeedTellsSteps` | playground/providers/mock-provider.ts:319-324 | steps that differ in one character never share a stream |
| `Seeds.ScenarioSeedTellsSeeds` | playground/agents/scenario-seed.ts:116-119 | configurations that mean the same apart from the three excluded fields derive equal seeds exactly when their own seeds are equal, and always a signed 32-bit one |
| `Seeds.ExcludedAre` | playground/agents/scenario-seed.ts:54-59 | the excluded fields are seed, scheduler and telemetryConfig |
| `Seeds.Mulberry32.Draw` | playground/providers/prng.ts:12-20 | one step of the state, and a draw in [0, 1) that depends on it alone |
| `Seeds.SmallOutputs` | playground/providers/prng.ts:16-18 | what is drawn in states 1 and 2 |
| `Seeds.PeriodIsFull` | playground/providers/prng.ts:13-15 | two states of a stream are equal if and only if the numbers of draws are congruent modulo 2^32 |
| `Strategy.ParallelIsEarned` | playground/strategy/evaluator.ts:374-459 | more than one at a time if and only if the context was read, all twelve rules pass and the request and the bound allow two; then no bound is exceeded |
| `Strategy.BlockersExactly` | playground/strategy/evaluator.ts:273-459 | the blockers are exactly the rules the context fails, or else that a bound leaves no room for two; without them the concurrency is the least of the four bounds, the caller's being 4 by default |
| `Pool.StepWorks` | playground/agents/mock-agent.ts:238-247 | every step does exactly one unit of work, three where an item is undefined, so no schedule runs forever |
| `Pool.RunsAreSafe` | playground/agents/mock-agent.ts:230-252 | over every interleaving each claimed index is in exactly one place, and a run is no longer than the work there is |
| `Pool.PoolIsBounded` | playground/agents/mock-agent.ts:230-252 | never more in flight than the limit; the indices claimed are 0, 1, 2, … once each; every result comes from its own item |
| `Pool.EndIsComplete` | playground/agents/mock-agent.ts:238-251 | when all workers have stopped exactly the defined items up to where they got have a result: all items if none is undefined |
| `Pool.TwoInFlightAreEarned` | playground/agents/mock-agent.ts:391-410 | two tasks in flight mean that all twelve rules passed and the context's bound is kept |
| `Pool.OneWorkerIsSequential` | playground/agents/mock-agent.ts:224-229 | with one worker, when a task is in flight all others claimed have their result |
| `Pool.RunWithConcurrency` | playground/agents/mock-agent.ts:230-252 | under every schedule the pool ends, with the own result of each defined item up to the undefined one that stops the last worker, or up to the end |

## Left out

- Processes, git, file reading, console output, the journal and all message texts: exit codes, probe results, worker reports, lease outcomes and the clock are arbitrary answers of the outside.
- Agent activation, review cadence and role resolution (`reviewCadenceFor`, `gateAgents`, the agent lists of a lane): lookups in a rules file.
- `checkEvidence`, `checkDodArtifact`, `lintProbes`, `scripts/check-*.ts`, `scripts/precommit.ts`: the outcome of the first two is an arbitrary answer; the rest are checks over text.
- `sharedContracts`, `depthOf`, `describeProbe` and the integration plan of `scripts/lanes.ts`: easy members nothing else depends on.
- Reading gate records back: a file that does not parse is skipped, and in what order files are read does not matter; a segment called by the empty string, which the record command refuses, is not treated apart.
- `scripts/kb.ts`, `scripts/decide.ts`, `platform/api`, `platform/database`, `platform/dashboard`, `platform/shared`, the telemetry SDK and `spike`: nothing the results above need.
- Lease worker ids carry a random part: no process uses another's, and process ids are not reused while a claim stands.
- A crash in the middle of one save of the supervisor: the state file is replaced by a rename, so a run is cut off between saves.
- A write to a lease file, once begun, is one operation: a half-written file reads like an empty one.
- Rounding: shares, rates and thresholds are exact reals.
- Strings of the delivery, lane and analysis modules are sequences of characters compared by code; the playground and streak modules use 16-bit code units.
- Numbers of the canonical form are known by their decimal text, so 0 and -0 are one number; sparse arrays, symbol keys and objects with accessors are not modelled.
- Reading the awareness context: a context was read in full or not at all.
- A pool worker whose task rejects: the promise of the whole pool then rejects, and no result list exists.
- Flow.Transition: takes `decide` as a parameter; that it answers for the ids it was asked about is what `Units.DecisionKeepsIds` shows.
- Schedules.DeliveryEndsExactly: asks that segments have different names and no required packet in common, which an accepted table violates only by listing a segment or a phase number twice; and a fresh start, with nothing begun, handed off or recorded.
- Leases.LeaseDir.RenewLease: states the operation as a whole; truncating and writing are two operations in `LeaseFiles`.
- Leaks.LeakyConfigsLeak: asks for a rational dominance threshold, which every number the program can hold is.
- Seeds.SmallOutputs: says what is drawn in two small states; the shift distances of the generator show in larger ones only.
- Seeds.DeriveSeed: `callIndex` is a finite number.
