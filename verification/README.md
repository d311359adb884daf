# Conveyor counting: a model and its proofs

The system counts bags on a conveyor: cameras publish frames through a bounded
transport, a tracker follows detections through loss and resurrection, a gate
turns changes of side into signed crossings, a ledger stores every crossing
under a unique key, and sessions, a job queue and an ERP relay build on it.
This project models those parts and proves what they promise.

Each part is modelled in the form it has. Objects that change in place are
classes whose methods are proved against functions on values; runs, stale
callers and interleavings are step systems over those same functions, so what
is proved about a step function holds for the class that is proved equal to it.

| file | what it models |
|---|---|
| `Boxes`, `Matching` | overlap measures, the association cost, the greedy assignment, matches and leftovers |
| `Tracks`, `Plans`, `Fates`, `PlanCosts`, `Tracker` | tracks and the eight-step tracker update; `Plans` says which detection each track receives, `PlanCosts` why, and `Fates` what becomes of it |
| `Gate`, `Counting`, `ShortRuns`, `CountingLaw`, `Engine` | zones, crossings, counters, and the counting law over runs; `ShortRuns` holds the runs of one bag that decide it |
| `Ledger`, `Sessions`, `Lifecycle`, `EventHandler`, `CameraEpochs`, `Delivery`, `Worker`, `Provenance` | rows, cached totals, cases, the life of a session, epochs, and the path from the belt to a session's total, over windows of engine runs and over runs of the inference worker; and back, from a row to its bag |
| `Transport`, `Ownership`, `RingLaws`, `Holding` | the frame ring, who owns a block of pixels, how many block names are needed, alone and with consumers that hold frames |
| `Jobs`, `Leases`, `JobQueue` | the leased job queue and its runner |
| `Outbox`, `ErpRelay` | delivery to the ERP system and its retries |
| `Suppression`, `Shadow`, `Splitter`, `ConfigDefaults` | non-maximum suppression, shadow statistics, dataset splitting, configuration defaults |

## What was found

* **The counting law.** Over every run, the net count is the number of tracks
  last measured beyond the gate minus the number first measured there, although
  the gate forgets every track that is not active in a frame. It holds on all
  runs exactly for gates whose zones tell the two sides apart
  (`CountingLawExactly`), which on a belt axis that reaches every position means
  `pre_gate_offset >= 0` (`OffsetDecides`). The constructor accepts a negative
  offset; then a bag that never moves is counted out when it is missed for a
  frame and found again (`MisclassifiedMiscounts`). The association itself makes
  every plan of that run and has no other way to treat its frames
  (`StandStillIsForced`).
* **Velocity.** `BagTrack.update` takes the observed velocity from the distance
  to the *predicted* position. In steady motion by `m` a frame the estimate
  settles at `m / 2` without a belt prior and at `(2m - p) / 3` with a prior `p`
  (`VelocitySettles`, `VelocityConverges`): a third of the true velocity for a
  bag that moves with the belt. It settles at the true velocity only for a track
  at rest without a prior, or moving against its prior
  (`TrueVelocityStaysExactly`).
* **Block names.** A producer alone is safe exactly when there are more block
  names than ring slots (`NamesMustExceedSlots`). The drivers use eight names
  and the transport defaults to eight slots: once the ring is full, evicting the
  oldest frame destroys the newest frame's block (`NewestIsLost`). With consumers
  that hold frames, each overtaken by at most `lag` newer ones, every interleaving
  is safe exactly with more names than slots and more than `lag + 1` of them
  (`NamesNeededExactly`); without a bound on the lag no number of names is enough
  for a single held frame (`HeldIsOverwritten`).
* **From the belt to the total.** One engine serves session after session. A
  session's cached total is how far the tracks moved across the gate in the frames
  that served it, whatever the engine counted before, through changes of bundle,
  restarts under new epochs and the work of others (`CachedTotalIsNet`,
  `SessionCountsItsFrames`). Every row has its frame, its bag and its detection
  (`RowHasBag`). The worker, however, shows the engine's running count
  as the session's and stops the conveyor by it: it is off by exactly what the
  engine had counted before the session (`ShownIsOwnExactly`,
  `ShownCountExactly`).
* **Deliveries.** Totals do not depend on the order of deliveries exactly when
  redelivered crossings agree on their direction (`OrderIrrelevantExactly`);
  timestamps, confidence and bundle play no part (`OrderIsIrrelevant`). Two
  crossings of a session are taken for one exactly when the same camera and epoch
  saw the same track id, in its first, second, ... crossing alike
  (`CollideExactly`, `WindowsCollideExactly`); an engine that restarts under its old epoch and counts a
  second bag leaves one row and a total of one (`RestartLosesABag`).
* **Cached totals.** Every session operation keeps them equal to the ledger,
  except a resolution that sets another count (`CacheIsLedgerExactly`). The number
  a human decided on stands exactly until the session is closed, or records a new
  crossing, with the ledger saying otherwise, or is resolved to another number,
  which the code allows any number of times (`CountStaysExactly`,
  `DecisionStandsExactly`). The count stays off the ledger's total exactly until
  the first of these, or a decision for the ledger's own number
  (`CacheOfOneExactly`, `StaysOffExactly`).
* **Jobs.** Terminal statuses are left exactly through a late completion or a
  late failure (`TerminalLeftExactly`). The table's invariant needs
  `max_attempts >= 1` at submission and nothing else (`JobsOkExactly`). Recovery
  takes a running job from its worker exactly after the end of the last
  acquisition's or heartbeat's grant (`RecoveredExactly`), so that, with a clock
  that does not run backwards, nobody else gets a job while a lease runs unless it
  failed or was released (`TakenAgainOnlyLate`): a failure reported late, by a
  worker that lost its lease, does hand a running job to a second worker.
* **ERP relay.** An entry whose worker dies while holding it is never taken up
  again, neither delivered nor escalated (`OrphanIsStuck`), and that is the only
  way to lose one: over any run an entry gets stuck exactly when a worker crashed
  while it held it (`OrphanedExactly`, `StuckExactly`). Without crashes every
  entry in progress stays in some worker's hands (`WithoutCrashNoneIsStuck`). An
  adapter that raises in the middle of a batch ends it like a crash. What nobody
  can be asked about goes to a human at once (`UnaskableIsEscalated`), so an entry
  without an external reference is submitted at most once
  (`UnreferencedSubmittedOnce`).
* **Configuration.** A region-of-interest update of an older payload stores it
  under the current schema version. An old setting stays as it is unless it is an
  object that lacks a key of the object the newer defaults hold for it
  (`RegionUpdateUpgrades`, `MergeKeepsExactly`).

## Model

| member | source | states |
|---|---|---|
| Boxes.IouRange | packages/cs_tracking/diou.py:25-40 | IoU lies in [0, 1] for all boxes |
| Boxes.CentreGapWithinDiagonal | packages/cs_tracking/diou.py:42-56 | the squared centre distance never exceeds the squared diagonal of the enclosing box |
| Boxes.UnionWithinEnclosing | packages/cs_tracking/diou.py:80-89 | the union never exceeds the area of the enclosing box |
| Boxes.DiouExact | packages/cs_tracking/diou.py:22-62 | for well-formed boxes the clamp never fires: DIoU is in [-1, 1] and at most IoU |
| Boxes.GiouExact | packages/cs_tracking/diou.py:65-95 | the same for GIoU |
| Boxes.MetricsSymmetric | packages/cs_tracking/diou.py:13-95 | neither measure depends on the order of the boxes |
| Boxes.SelfOverlap | packages/cs_tracking/diou.py:40-62 | a box scores 1 against itself exactly when it has area |
| Boxes.InsideExact | packages/cs_tracking/diou.py:22-95 | of a box inside another, the overlap is the smaller, the union and the hull the larger |
| Boxes.OverlapExactly | packages/cs_tracking/diou.py:25-40 | IoU is positive if and only if the boxes share inner points |
| Boxes.FullOverlapExactly | packages/cs_tracking/diou.py:25-40 | IoU is 1 if and only if the boxes are equal and have area |
| Boxes.PointsApart | packages/cs_tracking/diou.py:42-62 | two distinct points are at the end of the DIoU scale |
| Boxes.SameCentreExactly | packages/cs_tracking/diou.py:42-62 | DIoU equals IoU if and only if the centres coincide |
| Boxes.BoxIouIsIou | packages/cs_tracking/tracker.py:228-236 | the overlap used for id switches is IoU on well-formed boxes |
| Matching.PairCostRange | packages/cs_tracking/matching.py:84-99 | each association cost lies in [0, w_mask + w_dist] for nonnegative weights |
| Matching.CostByParts | packages/cs_tracking/matching.py:84-99 | which weight belongs to which part: coinciding masks or boxes leave the distance, a common place leaves the overlap |
| Matching.ComputeCostMatrix | packages/cs_tracking/matching.py:49-101 | the loops fill every cell with the cost of its pair |
| Matching.Argsort | packages/cs_tracking/matching.py:25 | a permutation of the positions by ascending key, ties left open |
| Matching.LinearSumAssignment | packages/cs_tracking/matching.py:16-42 | an injective matching of size min(rows, columns), sorted by row, in which every cell shares its row or column with a chosen cell of no greater cost |
| Matching.AssociateDetectionsToTracks | packages/cs_tracking/matching.py:104-141 | matches and leftovers partition both index sets, and every pair within the threshold is beaten by a match in its row or column |
| Matching.NoLeftoverPair | packages/cs_tracking/matching.py:135-141 | no unmatched track and unmatched detection are within the threshold |
| Tracks.PredictMovesRigidly | packages/cs_tracking/tracker.py:57-74 | prediction moves box and centroid together, by the blended velocity, keeping size and history |
| Tracks.BlendsHalfWay | packages/cs_tracking/tracker.py:62-66 | a belt beyond the dead band along either axis pulls the prediction half way to its own velocity, a slower one not at all |
| Tracks.VelocityStep | packages/cs_tracking/tracker.py:57-85 | one frame of steady motion, any belt prior: the error against the settled velocity shrinks by -0.05 with a prior and -0.4 without, and the settled velocity is the only fixed point |
| Tracks.TrueVelocityStaysExactly | packages/cs_tracking/tracker.py:57-85 | the settled velocity is the true one exactly for rest without a prior, or motion against it; a third of it for motion with the belt |
| Tracks.VelocitySettles | packages/cs_tracking/tracker.py:57-85 | over any run of steady motion the error is the factor's n-th power times the first error |
| Tracks.VelocityConverges | packages/cs_tracking/tracker.py:57-85 | within any margin of the settled velocity after a stated number of frames |
| Tracks.StepKeepsInv | packages/cs_tracking/tracker.py:151-253 | every update keeps: tracked tracks active, just measured, tentative exactly with one hit; lost ones lost for 1 to max_time_lost frames; one id per track ever created; one fragmentation per pruned track |
| Tracks.IdentityLaw | packages/cs_tracking/tracker.py:34-35 | created = tracked + lost + fragmentation_count, with pairwise distinct ids 1 to the count |
| Tracks.IdsApart | packages/cs_tracking/tracker.py:207-251 | tracked, lost and pruned tracks never share an id |
| Plans.PlanIsSound | packages/cs_tracking/tracker.py:165-231 | every high-score detection goes to exactly one tracked track, lost track or new track; low-score ones only keep tracked tracks alive |
| Tracker.BagTrack.constructor | packages/cs_tracking/tracker.py:27-55 | a new track is tentative with one hit and its first measurement |
| Tracker.BagTrack.Predict | packages/cs_tracking/tracker.py:57-74 | the prediction step in place |
| Tracker.BagTrack.Update | packages/cs_tracking/tracker.py:76-98 | the measurement step in place: history grows, tentative and lost tracks become confirmed |
| Tracker.ConveyorByteTracker.Match | packages/cs_tracking/tracker.py:159-221 | steps 1 to 6 on the track objects follow the plan of the three passes |
| Tracker.ConveyorByteTracker.Finish | packages/cs_tracking/tracker.py:223-253 | steps 7 and 8: births, id switches and pruning |
| Tracker.ConveyorByteTracker.Update | packages/cs_tracking/tracker.py:151-253 | the whole update is one specified step with a sound plan made of three stable associations, keeps the invariant and returns the tracked list, each track of which sits on a detection of the frame |
| Fates.StepFates | packages/cs_tracking/tracker.py:57-101 | what one update makes of each track: seen, with the detection's box, score, mask and place; missed, drifted on and lost or pruned; or born from a leftover detection |
| Fates.TrackedSitOnDetections | packages/cs_tracking/tracker.py:76-98 | every track tracked after an update has the box, score and centre of a detection of that frame, and its mask if there is one |
| Fates.SwitchesAreTakeovers | packages/cs_tracking/tracker.py:207-239 | one id switch for every new track that overlaps where a track missed in this update was expected |
| PlanCosts.PlanByCosts | packages/cs_tracking/tracker.py:169-201 | what is joined is within the cost threshold; whoever goes without is beyond the threshold of every detection that went elsewhere or nowhere |
| PlanCosts.ScoresDecideUses | packages/cs_tracking/tracker.py:165-167 | which detections can do what, by their scores |
| Gate.ProcessOne | packages/cs_counting/gate.py:104-175 | one track: classify, compare with the remembered or recovered zone, raise the crossing, remember |
| Gate.GateStateMachine.ProcessTracks | packages/cs_counting/gate.py:94-181 | all tracks are judged against the old memory; afterwards exactly this frame's tracks are remembered |
| Gate.ZonesAfterKeys | packages/cs_counting/gate.py:177-179 | exactly the tracks of the frame are remembered |
| Gate.ZonesByDistance | packages/cs_counting/gate.py:112-120 | the four zones by the distance from the gate, whose own line belongs to the near side |
| Counting.PendingDirection | packages/cs_counting/gate.py:122-134 | remembered or forgotten, the verdict on a track is the change of side of its last two measurements |
| Counting.SignsAlternate | packages/cs_counting/gate.py:134-173 | sign changes along a history alternate, and their number tells the final side |
| Counting.EngineStepKeepsInv | packages/cs_counting/engine.py:248-282 | every frame keeps the log equal to the side changes of every history and the counters equal to the log |
| Engine.CountingEngine.constructor | packages/cs_counting/engine.py:75-94 | a new engine is in the start state |
| Engine.CountingEngine.RunTracker | packages/cs_counting/engine.py:247-248 | the tracker moves, gate and counters stand still |
| Engine.CountingEngine.RunGate | packages/cs_counting/engine.py:269-275 | the gate sees the tracked tracks and changes nothing else of the tracker |
| Engine.CountingEngine.Count | packages/cs_counting/engine.py:277-282 | the counters grow by the sum and the sign split of the crossings |
| Engine.CountingEngine.ProcessFrame | packages/cs_counting/engine.py:247-282 | tracker, gate and counters of one frame are one step of the pipeline, with a plan the three passes make, and keep the invariant and the counting law where the zones agree |
| CountingLaw.RunKeepsInv | packages/cs_counting/engine.py:247-282 | the invariant over every run |
| CountingLaw.DrivenIsRunnable | packages/cs_tracking/tracker.py:165-231 | a run whose plans the association makes uses all its detections properly |
| CountingLaw.NetIsDisplacement | packages/cs_counting/engine.py:277-278 | in every such state the net count is the displacement of all tracks ever created |
| CountingLaw.CountersSplitNet | packages/cs_counting/engine.py:277-282 | in every such state net = forward - backward, together all crossings, and forward counts the crossings to the far side |
| CountingLaw.CountingLawHolds | packages/cs_counting/gate.py:104-179 | the counting law on every run of a gate whose zones agree |
| CountingLaw.CountingLawExactly | packages/cs_counting/gate.py:112-129 | the law holds on all runs of the code, and on all runs of sound plans, if and only if the zones agree |
| CountingLaw.MisclassifiedMiscounts | packages/cs_counting/gate.py:122-129 | a bag that stands still at a misclassified point is counted when missed and found, by plans the association makes |
| CountingLaw.StandStillIsForced | packages/cs_tracking/tracker.py:165-231 | for those three frames the association can make no other plans |
| ShortRuns.ReturnIsForced | packages/cs_tracking/tracker.py:195-206 | the found bag costs nothing against its lost track, so the third pass must rescue it |
| CountingLaw.CarriedIsCounted | packages/cs_counting/gate.py:134-160 | a bag carried across the gate counts one, forward |
| CountingLaw.NonNegativeOffsetAgrees | packages/cs_counting/gate.py:71 | a nonnegative offset makes the zones agree |
| CountingLaw.OffsetDecides | packages/cs_counting/gate.py:71 | on an axis that reaches every position, only that does |
| CountingLaw.CrossingsOfEachTrack | packages/cs_counting/gate.py:134-173 | each track's crossings carry 1, 2, 3, ... and strictly alternating directions, beginning away from its first side |
| CountingLaw.LogKeysDistinct | packages/cs_counting/gate.py:135-160 | no two crossings of a run share track and sequence number |
| CountingLaw.FirstCrossingIsOne | packages/cs_counting/gate.py:135 | a track that crossed at all has a crossing numbered 1 |
| Ledger.OneRowPerKey | packages/cs_storage/repositories/ledger_repo.py:102-126 | any delivery keeps old rows, adds only delivered events, covers every delivered key and leaves one row per key |
| Ledger.OrderIsIrrelevant | packages/cs_storage/repositories/ledger_repo.py:102-137 | deliveries of the same keys with the same directions, in any order, multiplicity and metadata, on any table, give the same keys, size and totals |
| Ledger.OrderIrrelevantExactly | packages/cs_storage/repositories/ledger_repo.py:102-137 | the order never matters if and only if deliveries of one key agree on the direction |
| Ledger.SessionsAreIndependent | packages/cs_storage/repositories/ledger_repo.py:102-137 | delivering and looking at one session commute |
| Ledger.SessionOrderIsIrrelevant | packages/cs_storage/repositories/ledger_repo.py:128-137 | a session's total and number of rows depend on the keys and directions delivered for it alone |
| Ledger.NoneRejectedExactly | packages/cs_storage/models_orm.py:337 | no crossing is taken for a duplicate if and only if all keys differ |
| Sessions.CrossingEffect | packages/cs_counting/event_handler.py:51-78 | a new row refreshes its session's cache whatever it held; a duplicate or dangling crossing changes nothing |
| Sessions.NextKeepsInv | packages/cs_storage/repositories/session_repo.py:22-232 | every operation keeps one row per key and all references |
| Sessions.CacheIsLedgerExactly | packages/cs_storage/repositories/reconciliation_repo.py:74-84 | all caches stay equal to the ledger's totals if and only if the operation is not an overriding resolution |
| Sessions.LedgerTotalReturns | packages/cs_storage/repositories/session_repo.py:211-232 | closing, or a new crossing, puts the ledger's total back |
| Sessions.CacheOfOneExactly | packages/cs_storage/repositories/reconciliation_repo.py:51-88 | for every operation and session: a right cache is broken exactly by an override, a wrong one put right exactly by closing, a new crossing or a decision for the ledger's number |
| Sessions.StaysOffExactly | packages/cs_storage/repositories/reconciliation_repo.py:74-84 | over a run after an override the count stays off the ledger's total exactly while nothing recovers it |
| Sessions.CountStaysExactly | packages/cs_storage/repositories/reconciliation_repo.py:51-88 | one operation leaves a session's count exactly unless it closes it or records a new crossing with the ledger saying otherwise, or decides on another number |
| Sessions.DecisionStandsExactly | packages/cs_storage/repositories/reconciliation_repo.py:51-88 | over a run the number a human decided on stands if and only if no operation of the run replaces it, later decisions included |
| Sessions.RunKeepsCacheOf | packages/cs_counting/event_handler.py:75-77 | a session that is never overridden keeps the ledger's total, whatever happens to others |
| Sessions.RunKeepsCaches | packages/cs_counting/event_handler.py:75-77 | the caches over every run without overrides |
| Sessions.RowsAreCrossings | packages/cs_storage/repositories/ledger_repo.py:102-126 | over every run the ledger is the accepted crossings, first write winning |
| Sessions.LedgerOnlyGrows | packages/cs_storage/repositories/ledger_repo.py:50-126 | no operation changes or removes a row |
| Sessions.RunsAgree | packages/cs_storage/repositories/ledger_repo.py:128-137 | two runs that were delivered the same keys of a session in the same directions end with the same cached total for it, whatever else they were delivered |
| Lifecycle.AliveExactly | packages/cs_storage/repositories/session_repo.py:84-232 | a session stops counting exactly through a close, a discrepancy, a case or a decision, and nothing brings it back |
| Lifecycle.StatusMoves | packages/cs_storage/repositories/session_repo.py:173-232 | exactly when a session is paused, degraded, reconciled or before a human after an operation |
| Lifecycle.WritesExactly | packages/cs_storage/repositories/session_repo.py:22-232 | what operations write besides status and count |
| Lifecycle.CasesExactly | packages/cs_storage/repositories/reconciliation_repo.py:19-88 | cases are opened at the end and decided in place; nothing else touches them |
| Lifecycle.CreatedExactly | packages/cs_storage/repositories/session_repo.py:22-67 | a session is created exactly when line and profile exist and no session of the line still counts |
| Lifecycle.RunKeepsOnePerLine | packages/cs_storage/repositories/session_repo.py:31-48 | over every run a line never has two sessions that count |
| EventHandler.LedgerRepository.RecordEvent | packages/cs_storage/repositories/ledger_repo.py:56-126 | duplicate, foreign-key error or new row, in that order |
| EventHandler.SessionRepository.Create | packages/cs_storage/repositories/session_repo.py:22-67 | refused exactly while the line has an active session, or when line or product profile is unknown |
| EventHandler.SessionRepository.FlagDiscrepancy | packages/cs_storage/repositories/session_repo.py:173-182 | flag, estimate and status in one step |
| EventHandler.SessionRepository.Close | packages/cs_storage/repositories/session_repo.py:211-232 | the total is derived again; degraded or flagged sessions need reconciliation |
| EventHandler.ReconciliationRepository.Create | packages/cs_storage/repositories/reconciliation_repo.py:19-49 | the case and the session's link to it appear together |
| EventHandler.ReconciliationRepository.Resolve | packages/cs_storage/repositories/reconciliation_repo.py:51-88 | the three resolutions and their effect on the session |
| EventHandler.CountingEventHandler.HandleGateCrossing | packages/cs_counting/event_handler.py:51-78 | record, then refresh only for a new row |
| EventHandler.CountingEventHandler.HandleFrameOutput | packages/cs_counting/event_handler.py:89-130 | the crossings in order up to the first failure, then area and discrepancy |
| EventHandler.AppliedAreNewRows | packages/cs_counting/event_handler.py:106-119 | the crossings reported as applied are exactly the new rows |
| EventHandler.FrameFailsExactly | packages/cs_counting/event_handler.py:108-119 | a frame is handled to the end if and only if every crossing is referenced or repeats one already there |
| EventHandler.FrameRefreshesCache | packages/cs_counting/event_handler.py:89-130 | afterwards the cache is right if and only if it was before or a row was added |
| CameraEpochs.CameraEpochRepository.IncrementAndGetEpoch | packages/cs_storage/repositories/camera_epoch_repo.py:16-39 | the next epoch of that camera, read back afterwards, and no other camera's changes |
| CameraEpochs.EpochCountsStarts | packages/cs_storage/repositories/camera_epoch_repo.py:16-39 | a camera's epoch is the number of its starts |
| CameraEpochs.EpochsIncrease | packages/cs_storage/repositories/camera_epoch_repo.py:25-32 | a camera is never given an epoch twice |
| Delivery.StretchOfRun | packages/cs_counting/engine.py:247-282 | any stretch of any run of an engine can be a session's window |
| Delivery.FreshEpochsSuffice | services/ingest/worker.py:40-50 | windows of engine lives that see only streams started during them share no camera and epoch |
| Delivery.ProducedKeysDistinct | packages/cs_storage/models_orm.py:337 | over all windows of a session, of one engine or several, no two crossings share a key |
| Delivery.DeliveredTotalIsNet | packages/cs_storage/repositories/ledger_repo.py:128-137 | after any delivery that brings a session the crossings of its windows it has one row per crossing and the sum of what the engines counted during them, whatever other sessions are delivered |
| Delivery.CachedTotalIsNet | packages/cs_counting/event_handler.py:51-78 | end to end: the session's cached total is the displacement of the tracks during its windows, over every run that does not override this session |
| Delivery.ShownCountExactly | services/inference/worker.py:190-194 | the running count shown for a session is its own if and only if the engine began to serve it with what the session had by then |
| Delivery.EarlierBagIsShown | services/inference/worker.py:190-194 | an engine that counted a bag before the session shows one for a session that saw none |
| Delivery.CollideExactly | packages/cs_storage/models_orm.py:337 | two crossings of a session have one key if and only if camera, epoch, track id and the crossing's place within its track agree |
| Delivery.WindowsCollideExactly | packages/cs_storage/models_orm.py:337 | two windows share no key if and only if no pair of their crossings agrees in these, whatever sources they saw |
| Delivery.RestartCollidesExactly | packages/cs_tracking/tracker.py:34-35 | the corollary for two whole lives of one source each: a common key if and only if the epoch was reused and a crossing track id recurs |
| Delivery.ReplayCountsOnce | packages/cs_storage/repositories/ledger_repo.py:102-126 | the same crossings under the same sources count once, although two engines counted them |
| Delivery.RestartLosesABag | packages/cs_tracking/tracker.py:34-35 | a concrete pair of lives: two bags, a total of one |
| Worker.StoreOfRun | services/inference/worker.py:66-206 | what a run of the worker does to the store is a run of session operations |
| Worker.AcceptedOfRun | services/inference/worker.py:144-171 | over every run a session is delivered exactly the crossings of the frames that served it |
| Worker.LookupFinds | services/inference/worker.py:78-81 | a lookup finds the line's most recently opened session that still counts, or none because there is none |
| Worker.WindowWasFound | services/inference/worker.py:78-81 | over every run each window of a session lies after a lookup that found it counting on the line, with no lookup in between, under the bundle brought last |
| Worker.ServedIsWindow | services/inference/worker.py:144-171 | every frame that serves a session is a window of it |
| Worker.FoundIsKept | services/inference/worker.py:78-100 | what a lookup found is served until the next lookup or restart |
| Worker.WindowsAreApart | services/inference/worker.py:39 | frames of one engine life follow one another, frames of different lives share no source |
| Worker.SessionCountsItsFrames | services/inference/worker.py:66-206 | end to end: over every run of the worker, with lookups, dropped crossings, restarts and the work of others, a session's cached total is the displacement of the tracks in its frames |
| Worker.ShownIsOwnExactly | services/inference/worker.py:190-194 | the shown count differs from the session's own by exactly what the engine had counted before |
| Provenance.CrossingHasDetection | packages/cs_counting/gate.py:134-173 | every new crossing tells of a track of the frame that changed sides and sits on a detection of it |
| Provenance.RowHasBag | packages/cs_counting/event_handler.py:56-119 | over every run of the worker, every row of a session was written for a frame that served it, with that frame's camera, epoch, line, bundle, number and time, and tells of a track that changed sides, with its detection's score |
| Transport.SharedMemoryTransport.WriteImageData | packages/cs_core/transport.py:105-136 | the named block holds the new pixels, all others theirs |
| Transport.SharedMemoryTransport.GetImageData | packages/cs_core/transport.py:153-182 | the block's pixels, or nothing |
| Transport.SharedMemoryTransport.Publish | packages/cs_core/transport.py:206-230 | append, evicting the oldest frame and its block from a full ring, with both drop counters; the errors of capacities below 1 |
| Transport.SharedMemoryTransport.Consume | packages/cs_core/transport.py:238-241 | one frame from the front of every nonempty queue |
| Transport.SharedMemoryTransport.Release | packages/cs_core/transport.py:248-251 | the frame's block is gone |
| Transport.SharedMemoryTransport.Close | packages/cs_core/transport.py:253-263 | every block is gone |
| Ownership.OwnershipKeptExactly | packages/cs_core/transport.py:127-136 | every step keeps one owner per block and every frame's own pixels, except exactly a write under a claimed name |
| Ownership.LiveNamesDistinct | packages/cs_core/transport.py:184-200 | two live frames never share a name |
| RingLaws.SpanIsSafe | drivers/video_rtsp/driver.py:68-75 | a span below the cycle makes the next write safe |
| RingLaws.PacedRunIsOwned | packages/cs_core/transport.py:177-263 | over every paced interleaving of write, publish, consume, release and reopen, every queued or in-flight frame reads its own pixels |
| RingLaws.PacedRunIsSafe | packages/cs_core/transport.py:177-263 | the same from the empty ring, for any capacity and cycle |
| RingLaws.NamesMustExceedSlots | drivers/video_rtsp/driver.py:72 | a producer alone is safe for ever if and only if there are more names than slots |
| RingLaws.NewestIsLost | packages/cs_core/transport.py:215-218 | with as many names as slots, eviction destroys the newest queued frame's block |
| RingLaws.OldestIsOverwritten | packages/cs_core/transport.py:127-136 | with fewer names than slots, a queued frame reads the newest frame's pixels |
| Holding.HeldRunIsOwned | packages/cs_core/transport.py:177-263 | more names than slots, and than lag + 1 if frames are held, keep every interleaving safe |
| Holding.HeldIsOverwritten | drivers/video_rtsp/driver.py:72 | one frame held while a cycle is written loses its pixels, for any number of names |
| Holding.NamesNeededExactly | drivers/video_rtsp/driver.py:68-75 | for any count of held frames and any lag, exactly how many names keep all interleavings safe |
| RingLaws.RunKeepsFifo | packages/cs_core/transport.py:206-246 | over every run a queue is the newest stretch of what was published, frames come out in order, consecutive_drops is the trailing run of overflows |
| RingLaws.NothingLost | packages/cs_core/transport.py:206-246 | published = consumed + dropped + queued |
| RingLaws.EveryRunIsFifo | packages/cs_core/transport.py:206-246 | both over every run from the empty ring, paced or not |
| RingLaws.ResultTellsDrops | packages/cs_core/transport.py:206-230 | over every run a publisher is told how many frames of its camera were dropped and how many publications in a row overflowed |
| Jobs.JobsOkExactly | packages/cs_storage/repositories/job_repo.py:43-168 | attempts, lease and status stay consistent under every operation, stale ones included, if and only if a submission allows an attempt |
| Jobs.TerminalLeftExactly | packages/cs_storage/repositories/job_repo.py:113-135 | when a finished job changes status or returns to the queue |
| Jobs.RunKeepsInv | packages/cs_storage/repositories/job_repo.py:19-168 | the whole invariant over every interleaving |
| Jobs.AcquisitionsAreBounded | packages/cs_storage/repositories/job_repo.py:83-95 | acquisitions never exceed max_attempts plus releases, and between two of one job it failed, was released or lost its lease |
| Jobs.BudgetDrains | packages/cs_storage/repositories/job_repo.py:88 | the nonnegative sum of remaining attempts falls with every acquisition and grows only by submissions and releases |
| Leases.GrantLasts | packages/cs_storage/repositories/job_repo.py:73-111 | after an acquisition or a heartbeat the lease expires exactly after its length |
| Leases.BestIsFirst | packages/cs_storage/repositories/job_repo.py:76-79 | the acquired job has the highest priority and, within it, the earliest creation |
| Leases.RunIsGranted | packages/cs_storage/repositories/job_repo.py:83-111 | over every run a running job's lease and heartbeat are those of its last grant, its start that of its first acquisition |
| Leases.RecoveredExactly | packages/cs_storage/repositories/job_repo.py:147-168 | over every run recovery takes a running job exactly after the end of its last grant |
| Leases.TakenAgainOnlyLate | packages/cs_storage/repositories/job_repo.py:43-100 | a job that neither failed nor was released is acquired again only after its lease ended |
| Leases.EndingIsRecorded | packages/cs_storage/repositories/job_repo.py:113-168 | whoever ends a job leaves the time, and the reason or the result |
| Leases.RecordsAreKept | packages/cs_storage/repositories/job_repo.py:83-168 | nobody else writes them, and what was submitted stays |
| Leases.ReleaseUndoesTake | services/jobrunner/worker.py:479-487 | an acquisition and a release leave the job as it was, but for its first start and older heartbeats |
| Leases.SubmittedIsWaiting | packages/cs_storage/repositories/job_repo.py:19-41 | a submitted job waits as it was ordered |
| JobQueue.JobRepository.ReclaimExpiredLeases | packages/cs_storage/repositories/job_repo.py:147-168 | exactly the running jobs with a lease before now are requeued or failed |
| JobQueue.JobRepository.SubmitJob | packages/cs_storage/repositories/job_repo.py:19-41 | a queued job without attempts is added at the end |
| JobQueue.JobRepository.AcquireNextJob | packages/cs_storage/repositories/job_repo.py:43-100 | after recovery a job of highest priority, earliest among those, never a GPU job without GPU; nothing exactly when none is eligible |
| JobQueue.JobRepository.Candidate | packages/cs_storage/repositories/job_repo.py:76-79 | the preferred eligible job |
| JobQueue.JobRepository.FailJob | packages/cs_storage/repositories/job_repo.py:123-135 | failed for good or queued again, whatever the status was |
| JobQueue.JobRepository.CompleteJob | packages/cs_storage/repositories/job_repo.py:113-121 | completed, whatever the status was |
| JobQueue.JobRepository.CancelJob | packages/cs_storage/repositories/job_repo.py:137-145 | only jobs that are not finished |
| JobQueue.JobRepository.Heartbeat | packages/cs_storage/repositories/job_repo.py:102-111 | only running jobs |
| JobQueue.JobRepository.ReleaseForGpu | services/jobrunner/worker.py:479-487 | a running job goes back and its attempt with it |
| JobQueue.JobrunnerWorker.RunStep | services/jobrunner/worker.py:449-524 | an acquisition and one step about the same job: release, completion or failure |
| JobQueue.StepOutcome | services/jobrunner/worker.py:462-522 | how the job ends; a GPU job runs only if the GPU was free before and after |
| Outbox.RunKeepsInv | packages/cs_storage/repositories/outbox_repo.py:25-175 | the entry laws and single holding under every interleaving of relay workers, crashes and other session work |
| Outbox.DeliveryLaw | services/erp_relay/worker.py:56-107 | submissions are attempts less one in progress, at most five; escalated if and only if exactly one case names the entry |
| Outbox.DoneIsFinal | packages/cs_storage/repositories/outbox_repo.py:81-84 | a sent or escalated entry is never submitted again |
| Outbox.OrphanIsStuck | services/erp_relay/worker.py:119-131 | a claimed entry in nobody's hands stays so for ever |
| Outbox.OrphanedExactly | services/erp_relay/worker.py:119-131 | of all steps, exactly the crash of a worker that holds the entry does that to it |
| Outbox.StuckExactly | services/erp_relay/worker.py:119-131 | over any run an entry is stuck if and only if some worker crashed while it held it |
| Outbox.WithoutCrashNoneIsStuck | packages/cs_storage/repositories/outbox_repo.py:81-97 | from the empty relay, without crashes, every entry in progress is in some worker's hands |
| Outbox.EscalationReachesSession | services/erp_relay/worker.py:62-107 | sent exactly on success or a confirmed posting; escalation puts the session and a case before a human |
| Outbox.OutcomeExactly | services/erp_relay/worker.py:62-107 | sent, escalated or waiting again: which, exactly, and until when |
| Outbox.UnaskableIsEscalated | services/erp_relay/worker.py:95-105 | without anybody to ask, a failed submission goes to a human at once, with a case |
| Outbox.UnreferencedSubmittedOnce | services/erp_relay/worker.py:72-105 | over every run an entry without an external reference is submitted at most once |
| Outbox.ClaimedExactly | packages/cs_storage/repositories/outbox_repo.py:81-103 | who is claimed, and that those left behind are no older and the limit is reached |
| Outbox.CreatedIsWaiting | packages/cs_storage/repositories/outbox_repo.py:19-37 | a new entry may be claimed from the moment it is made |
| Outbox.SpacedSpan | packages/cs_storage/repositories/outbox_repo.py:164-165 | from the first failure to failure n + 1 at least 30 * (2^n - 1) seconds pass |
| Outbox.EscalationTakesTime | packages/cs_storage/repositories/outbox_repo.py:145-167 | five failures take at least 450 seconds |
| ErpRelay.OutboxRepository.ClaimPendingEntries | packages/cs_storage/repositories/outbox_repo.py:61-103 | exactly the oldest due entries up to the limit become in progress |
| ErpRelay.OutboxRepository.OldestDue | packages/cs_storage/repositories/outbox_repo.py:81-84 | the oldest due entry not yet picked |
| ErpRelay.OutboxRepository.MarkFailed | packages/cs_storage/repositories/outbox_repo.py:127-167 | the doubled delay, or escalation, for any base delay and limit |
| ErpRelay.ErpRelayWorker.ProcessEntry | services/erp_relay/worker.py:39-107 | one answered submission settles the entry, opens the case and is logged |
| ErpRelay.ErpRelayWorker.RunStep | services/erp_relay/worker.py:109-133 | claim up to five and process them in order, each at its own time, counting deliveries |
| ErpRelay.BatchIsRun | services/erp_relay/worker.py:109-133 | a round without others in between is a run of the step system |
| Suppression.SuppressionSymmetric | packages/cs_vision/postprocess.py:138-151 | the suppression relation is symmetric |
| Suppression.SuppressesExactly | packages/cs_vision/postprocess.py:138-151 | for boxes of at least a pixel: IoU above 0.45, or more than 0.60 of the narrower extent along the belt |
| Suppression.Suppress | packages/cs_vision/postprocess.py:132-154 | the shrinking-queue loop terminates and equals the simple scan |
| Suppression.OrderByScore | packages/cs_vision/postprocess.py:130 | an order by descending score |
| Suppression.KeptDoNotSuppress | packages/cs_vision/postprocess.py:132-156 | kept boxes do not suppress one another |
| Suppression.DroppedHasBetter | packages/cs_vision/postprocess.py:132-156 | every dropped box is suppressed by a kept one of no lower score |
| Suppression.DroppedExactly | packages/cs_vision/postprocess.py:132-156 | a box is dropped if and only if a kept one before it suppresses it |
| Suppression.KeepBodies | packages/cs_vision/postprocess.py:117-156 | the kept bodies come by descending score and do not suppress one another; every other body is suppressed by a kept one of no lower score |
| Shadow.WelfordIsExact | packages/cs_vision/shadow_evaluator.py:30-39 | after any values count * mean is their sum and M2 their squared deviation, never negative |
| Shadow.SampleVarianceIsExact | packages/cs_vision/shadow_evaluator.py:37-39 | the variance is the squared deviation over one less than the number of values, never negative |
| Shadow.WelfordStats.Update | packages/cs_vision/shadow_evaluator.py:30-35 | one observation in place |
| Shadow.EveryBoxCounted | packages/cs_vision/shadow_evaluator.py:151-178 | over any frames and injective assignments, tp + fn is all active boxes and tp + fp all shadow boxes |
| Shadow.HitsAreCounted | packages/cs_vision/shadow_evaluator.py:162-169 | true positives are the pairs that reach the threshold |
| Shadow.MeanOfMatched | packages/cs_vision/shadow_evaluator.py:180 | a frame's mean is that of its matched pairs, 1 for an empty frame, 0 without matches |
| Shadow.ShadowModelEvaluator.EvaluateFrame | packages/cs_vision/shadow_evaluator.py:141-182 | the boxes are matched injectively, fully, and so that no two overlap more than in their own pairs; over all frames so far hits and misses are all active boxes, and the running statistics are exact for the frames' mean overlaps |
| Splitter.FillHoldout | packages/cs_data/split_dataset.py:63-76 | the first heavy sessions while there is room, then from the end of the others, whose order stays; nothing lost |
| Splitter.SplitSessions | packages/cs_data/split_dataset.py:40-118 | for any shuffle and ratios: a partition, the holdout size, training's share rounded down, frames conserved, heavy sessions isolated; leakage only for repeated ids |
| Splitter.DivideSizes | packages/cs_data/split_dataset.py:78-97 | sending heavy leftovers to validation first changes who is where, not how many |
| Splitter.ShareFits | packages/cs_data/split_dataset.py:79 | ratios that are not negative make a share of training |
| Splitter.SplitIsGood | packages/cs_data/split_dataset.py:73-97 | size, partition and isolation of the result |
| Splitter.LeakIsDuplicate | packages/cs_data/split_dataset.py:103-114 | with distinct ids no two sets share one |
| Splitter.FramesConserved | packages/cs_data/split_dataset.py:116-118 | frame counts add up |
| ConfigDefaults.DeepMerge | packages/cs_core/config_defaults.py:53-70 | the loop over the overrides computes the recursive merge, at every depth |
| ConfigDefaults.GetConfigWithDefaults | packages/cs_core/config_defaults.py:73-93 | the effective payload, or the error for an unknown version |
| ConfigDefaults.MergeLeftIdempotent | packages/cs_core/config_defaults.py:53-70 | merging the defaults in again changes nothing |
| ConfigDefaults.MergeRightIdempotent | packages/cs_core/config_defaults.py:53-70 | merging the overrides in again changes nothing |
| ConfigDefaults.EffectiveIsStable | packages/cs_core/config_defaults.py:73-93 | an effective payload is its own effective payload |
| ConfigDefaults.OneSettingChanges | services/api/routes.py:1300-1305 | changing one stored setting leaves all other effective settings alone |
| ConfigDefaults.RegionUpdateKeepsTheRest | services/api/routes.py:1300-1305 | the region update changes the region and nothing else |
| ConfigDefaults.MergeKeepsExactly | packages/cs_core/config_defaults.py:53-70 | merging defaults in changes nothing if and only if every default key is there, at every depth both have objects |
| ConfigDefaults.RegionUpdateUpgrades | services/api/routes.py:1300-1305 | of a payload of an older version an old setting stays exactly unless it is an object that lacks a key of the newer default object; new settings appear |

## Left out

- Rounding: coordinates, scores, costs and statistics are reals. Where the code stores 32-bit floats, equal values may differ.
- Mask overlap and the Euclidean distance are arbitrary functions with the ranges their definitions give them (`Metric.Valid`); the projection on the belt axis is an arbitrary function of the point. Rejecting a zero axis is not modelled.
- Detection, the region filter, merge splitting and amodal mask reconstruction: detections arrive as arbitrary lists, latent ones among them. Rewriting a merged track's mask after the update is not modelled; the counting law holds for any association and so for any masks.
- scipy's assignment: the tracker class uses the greedy fallback. The laws over runs (`CountingLaw`, `Tracks`) hold for every plan that uses detections properly, whichever assignment made it, and `Shadow.EveryBoxCounted` for any injective one.
- The class-wide track counter is a field of the one tracker. `reset_session` with live tracks restarts it and ids can repeat; resetting, and `update_geometry` during a run, are left out.
- `compute_pairwise_diou_matrix`, a double loop over the modelled DIoU.
- The area-integral estimate, hard-frame capture, calibration and bundle activation: they do not feed the count.
- Storage details: row locks and SQL dialects (each repository method is one step), event ids and vehicle data of sessions, evidence texts, `update_status`, defect disputes. Foreign keys are taken as enforced. Ids are positions; jobs and outbox entries count from 0.
- The inference worker is modelled on values, frame by frame: its class, reading pixels, applying configurations, drop degradation (one of the operations of others) and the PLC calls are left out. A frame whose crossings lack a reference loses the rest of its crossings (services/inference/worker.py:163-179); the end-to-end law asks for the references.
- A crash between the separate commits inside `process_entry`, `handle_gate_crossing` or the frame loop.
- When the database is unreachable the ingest worker makes up an epoch (services/ingest/worker.py:48 and 66); `Delivery.FreshEpochsSuffice` does not cover such epochs.
- Transport.SharedMemoryTransport.Consume: models one pass; polling until a timeout repeats it, because time is not part of the transport's state.
- Block names are pairs of camera and slot instead of formatted strings; shared-memory handles and stale system blocks are not modelled.
- Engine.CountingEngine.ProcessFrame: models the tracker, the gate and the counters of a frame; the region filter, merge splitting and masks before and after them and the area estimate are left out.
- ErpRelay.ErpRelayWorker.RunStep: runs a batch without other workers in between; interleavings and crashes are the step sequences of `Outbox`.
- JobQueue.JobrunnerWorker.RunStep: runs a job without other workers in between; interleavings are the step sequences of `Jobs`. The runner's heartbeat call names a parameter the repository does not have (services/jobrunner/worker.py:502), so no renewal is assumed.
- JobQueue.JobRepository.Candidate: picks the first of equally good jobs; the step system allows any of them.
- `mark_in_progress` and `fetch_pending_entries` of the outbox, which the relay does not use. The laws over relay runs take the default delay and limit, as the relay does.
- Postprocessing before suppression (class ids, letterbox, mask decoding), print marks, latency and SPRT figures of the shadow evaluator.
- The manifest hash of a split and the random shuffle (any permutation is allowed). Session ids are taken as the strings they are compared as.
- Nested default objects shared between callers: configuration values are immutable here.
- API routes, authentication, field buses, rendering and demo paths.
