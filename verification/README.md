# IPProxyPool: verified model

IPProxyPool is a proxy gateway. This project models the state machines and algorithms inside it in Dafny and proves
what they keep over all inputs and all runs. Nothing was executed.

* **Warehouse sink** (`SeenWindow`, `SinkCycle`, `SinkProtocol`, `PumpRefinement`, `FreshReads`, `ConsumerDeletion`). A
  Redis stream feeds a consumer group; workers reclaim and read entries, classify them against a bounded window of event
  ids, insert rows into the warehouse and acknowledge. Steps may fail, replies and acknowledgements may be lost, a failed
  insert may have stored some rows, and workers may crash between any two steps, which wipes their window. No run loses
  an event, and deleting a consumer is safe under an exact condition.
* **LinUCB arms** (`LinearAlgebra`, `ArmAlgebra`, `MatrixInverse`, `ArmFloor`, `ArmTraining`, `Selection`, `Bandit`,
  `BanditRun`, `BanditArms`, `Exploitation`). The rank-one inverse update, the blend towards the identity, the score and
  the choice of the best arm, over exact reals in four dimensions. Matrices stay symmetric, positive definite and at most the
  identity; between blends they are exact inverses; no arm is abandoned, however often it has been tried; and what
  rewards do to the choice.
* **Choice of a node** (`TierQuota`, `TierFairness`, `Gateway`, `GatewayRuns`, `GatewayRequests`). The window of the
  last 100 selected tiers that forces an absent tier, how fair it is, the streaming pass that applies it to the scores
  of the arms, the attempts of a request, and that the gateway can make every run the quota allows.
* **Free-pool registry** (`Health`, `Eviction`, `Registry`, `SourceGuard`, `Intake`, `FetchCycle`, `Routable`,
  `HtmlScanner`, `LineParser`, `AddressLists`). Health arithmetic, a map with time to live and capacity eviction, the
  suspension of sources, deduplication and truncation of what they bring, and the two address scanners.
* **Managed node store** (`ManagedNode`, `NodeStore`, `NodeTransactions`, `NodeRecovery`). Normal form of a node, the
  file round trip, and add/remove/reweigh as transactions over memory, file and router with every mix of failures.
* **Metrics histogram** (`Histogram`, `HistogramRaces`), **chunked bodies** (`ChunkedBody`, `ChunkEncoding`; section
  7.1 of RFC 9112) and **retries** (`Retry`).

Objects whose methods update fields are classes here, each method proved against a function of its inputs and old
state; the properties are proved about those functions. `Text`, `Decimal`, `Division`, `Splitting`, `Ipv4`,
`Sequences` and `Options` hold what several modules share. `dafny verify dfyconfig.toml` checks everything.

## Where the code and its comments disagree

* gateway/src/gateway.rs:32 and :495 promise every tier a selection in any 100. The code gives it in any 101, and only
  while at most 101 tiers compete (`TierFairness.FairWithinWindowPlusOneIff`); within 100 it holds only when tiers do
  not compete at all (`TierFairness.FairWithinWindowIff`).
* gateway/src/ch_sink.rs:268-269 calls the deletion of idle consumers safe. Redis discards what a deleted consumer has
  pending; `ConsumerDeletion.CleanupCanLoseAnEvent` gives a run that loses an event this way, and
  `ConsumerDeletion.DeletionIsSafeIff` says exactly when no continuation can. It is not enough that another consumer
  still has the event pending: a worker may already count that copy as a duplicate and acknowledge it next
  (`ConsumerDeletion.DuplicateMarkOutlivesDeletion`).
* gateway/src/bandit.rs:219-220 says that forgetting keeps 90% of what an arm has learned. It keeps 90% of matrix and
  vector, but the estimate made of both becomes 0.81 of the old one plus 0.09 b'x (`Exploitation.EstimateAfterForgetting`),
  and b'x grows with every update. An arm's first forgetting therefore takes any constant reward of at least 1/90
  beyond the clamp, and arms that were told apart before score the same (`Exploitation.RewardsDecideAtFirst`,
  `Exploitation.ForgettingHidesRewards`; `Exploitation.MoreRewardScoresHigher` says exactly when rewards count).
* tools/ipp_forward.py:41-74 takes the first line that reads as zero for the last chunk. If the stream ends inside a
  chunk size with leading zeros, a truncated body passes for complete (`ChunkEncoding.PrefixesRefusedIff`).
* gateway/src/free_pool.rs: the line parser keeps an address as it is spelt, the byte scanner prints it canonically. On
  lists of one `ip:port` a line the two agree exactly when no octet has a leading zero (`AddressLists.ListsAreRead`);
  comments and protocol marks, which only the line parser heeds, and addresses without a port, behind which only the byte
  scanner looks on, are not part of such lists.

## Margins

Two limits of the code leave room for what it ships with. At most 16 failed nodes are remembered
(gateway/src/gateway.rs:248), which keeps retries on new nodes up to 16 of them (`Retry.NoNodeTwiceIff`); a request has
3, so none goes to a node twice (`Retry.NoRequestRepeatsANode`). Seeds are checked for uniqueness and number only
(gateway/src/node_registry.rs:180-191), while a file also has to be in normal form (`NodeStore.FileRoundTrip`); the seeds
of gateway/src/main.rs are, so the first file written from them loads back as the same list (`NodeStore.SeedsComeBack`).

## Model

| member | source | states |
|---|---|---|
| SeenWindow.SeenIds.CheckAndInsert | gateway/src/ch_sink.rs:63-78 | set and queue hold the same duplicate-free ids, namely the last `cap` recorded; a hit is reported exactly when the non-empty id is among them |
| SeenWindow.SeenIds.constructor | gateway/src/ch_sink.rs:53-59 | an empty window of capacity at least one |
| SeenWindow.WindowIsDistinct | gateway/src/ch_sink.rs:46-78 | whatever was looked up, the ids in the window are non-empty and pairwise different |
| SeenWindow.HistoryGrows | gateway/src/ch_sink.rs:63-78 | looking up further ids only appends to the history |
| SeenWindow.PassedTwiceMeansWindowTurnedOver | gateway/src/ch_sink.rs:63-78 | an id let through twice by one process had `cap` other, pairwise different ids let through in between |
| SinkCycle.ChSinkWorker.ClassifyEntry | gateway/src/ch_sink.rs:135-162 | the buffers and the window after one entry, for poison, duplicate, full rows and redelivery |
| SinkCycle.ChSinkWorker.ClassifyReply | gateway/src/ch_sink.rs:165-227 | a reply is classified entry by entry, in order |
| SinkCycle.ChSinkWorker.PumpOnce | gateway/src/ch_sink.rs:165-266 | the three commands a cycle sends, the rows it reports and the window it leaves: the k-th acknowledgement belongs to the k-th row, every event read is inserted, or a copy of one met before, or left because the rows are full, and nothing else is skipped but poison |
| SinkCycle.TakesOne | gateway/src/ch_sink.rs:135-162 | an entry goes to exactly one of rows, skips and held |
| SinkCycle.CycleTakesAll | gateway/src/ch_sink.rs:165-227 | a cycle takes in all it has read, nothing else and nothing twice |
| SinkCycle.FoldAligns | gateway/src/ch_sink.rs:146-156 | rows and ids to acknowledge stay aligned, row k being the row of entry k |
| SinkCycle.FoldRowCount | gateway/src/ch_sink.rs:149-155 | an entry is held only if the rows are full |
| SinkCycle.FoldSkips | gateway/src/ch_sink.rs:146-161 | only poison and fresh duplicates are skipped, poison always, a redelivered event never |
| SinkCycle.CyclePartition | gateway/src/ch_sink.rs:135-227 | the partition and the alignment of a whole cycle, and that nothing is held when COUNT is honoured on both reads |
| SinkCycle.CycleSkips | gateway/src/ch_sink.rs:135-227 | over a whole cycle poison is skipped and redelivered events are not |
| SinkCycle.AlignedAcks | gateway/src/ch_sink.rs:245-256 | what is acknowledged after the insert are, place by place, the events whose rows were inserted |
| SinkCycle.CycleKeepsEvents | gateway/src/ch_sink.rs:135-256 | every event read is inserted with its own acknowledgement, or dropped as a fresh copy of one met before, or left unacknowledged with the rows full |
| SinkCycle.CycleSkipsAreDue | gateway/src/ch_sink.rs:135-243 | what is acknowledged without a row is poison or such a copy |
| SinkProtocol.FaultEffects | gateway/src/ch_sink.rs:165-266 | what a lost reply, a lost acknowledgement, a failed insert and a crash leave of group, warehouse and worker |
| SinkProtocol.InvMeansNoEventLost | gateway/src/ch_sink.rs:135-266 | the invariant names a witness for every acknowledged duplicate, so no event is lost |
| SinkProtocol.ReadVouches | gateway/src/ch_sink.rs:202-227 | a fresh read either is a duplicate of an entry that vouches for its event, or vouches for it itself |
| SinkProtocol.ReclaimKeepsInv | gateway/src/ch_sink.rs:173-200 | reclaiming, by any worker, keeps the invariant |
| SinkProtocol.ReadKeepsInv | gateway/src/ch_sink.rs:202-231 | reading keeps the invariant, also when the reply is lost |
| SinkProtocol.AckSkipsKeepsInv | gateway/src/ch_sink.rs:233-243 | acknowledging skips keeps the invariant, whether or not the acknowledgement arrives |
| SinkProtocol.InsertKeepsInv | gateway/src/ch_sink.rs:245-265 | inserting keeps the invariant, whole, failed or stored in part |
| SinkProtocol.AckRowsKeepsInv | gateway/src/ch_sink.rs:248-256 | acknowledging rows keeps the invariant |
| SinkProtocol.StepKeepsInv | gateway/src/ch_sink.rs:165-266 | every step keeps the invariant, crashes included |
| SinkProtocol.RunKeepsInv | gateway/src/ch_sink.rs:165-266 | every run keeps the invariant |
| SinkProtocol.NoRunLosesAnEvent | gateway/src/ch_sink.rs:165-266 | in every reachable state each delivered event is in the warehouse or carried by an entry still pending |
| SinkProtocol.DrainedWarehouseIsComplete | gateway/src/ch_sink.rs:165-266 | with nothing pending, the warehouse has the row of every delivered event and no other rows |
| PumpRefinement.PumpOnceIsARun | gateway/src/ch_sink.rs:165-266 | the imperative cycle is a run of the step system with the same effects on group, warehouse and window, the warehouse gaining row by row what is sent, for lost acknowledgements and for inserts that succeed, fail, or fail with some rows stored |
| FreshReads.LetThroughTwice | gateway/src/ch_sink.rs:63-227 | over runs: between two crashes a worker lets an id through twice only with a window of other, pairwise different ids let through in between |
| ConsumerDeletion.DeletionKeepsInv | gateway/src/ch_sink.rs:268-295 | a deletion keeps the invariant if each event the consumer owns has landed or is carried elsewhere by an entry no worker is about to acknowledge as a duplicate |
| ConsumerDeletion.UnsafeIsLost | gateway/src/ch_sink.rs:233-295 | otherwise the acknowledgements of the duplicates already found lose the event |
| ConsumerDeletion.DeletionIsSafeIff | gateway/src/ch_sink.rs:268-295 | after deleting a consumer no continuation loses an event exactly under that condition |
| ConsumerDeletion.CleanupCanLoseAnEvent | gateway/src/ch_sink.rs:268-295 | a run after which the startup cleanup loses an event |
| ConsumerDeletion.DuplicateMarkOutlivesDeletion | gateway/src/ch_sink.rs:135-295 | a run after which a deletion seems to lose nothing and the next acknowledgement loses the event |
| ArmAlgebra.CauchySchwarz | gateway/src/bandit.rs:202-217 | the inequality for the form of an arm's matrix |
| ArmAlgebra.DenominatorAtLeastOne | gateway/src/bandit.rs:206-208 | the denominator of the update is at least one |
| ArmAlgebra.QuadAfterRankOne | gateway/src/bandit.rs:202-208 | what the update does to the quadratic form |
| ArmAlgebra.RankOneKeepsGood | gateway/src/bandit.rs:202-208 | the update keeps the matrix symmetric, positive definite and at most the identity, and no direction grows |
| ArmAlgebra.BlendKeepsGood | gateway/src/bandit.rs:221-224 | so does the forgetting blend |
| ArmAlgebra.RankOneInvertsAccumulate | gateway/src/bandit.rs:202-208 | the update keeps the matrix the inverse of the accumulated sum of x x' |
| ArmAlgebra.EveryReachableArmIsGood | gateway/src/bandit.rs:202-224 | whatever an arm learns, its matrix keeps this shape, no division is by zero, and updates are counted |
| ArmAlgebra.BetweenBlendsExactInverse | gateway/src/bandit.rs:202-217 | between blends the matrix is exactly the inverse of the accumulated sum and b the sum of reward times x |
| ArmAlgebra.FreshArmExactInverse | gateway/src/bandit.rs:112-217 | a fresh arm holds the inverse of I plus the sum of x x' until its first blend |
| MatrixInverse.GoodHasInverse | gateway/src/bandit.rs:102-110 | every matrix an arm can have is invertible |
| MatrixInverse.EveryStretchIsExact | gateway/src/bandit.rs:202-224 | the same exactness from any reachable state, after any number of blends, until the next one |
| ArmAlgebra.QuadOfBlend | gateway/src/bandit.rs:221-224 | what forgetting does to the uncertainty of a direction: nine tenths of it and one tenth of a fresh arm's |
| ArmFloor.RankOneKeepsShare | gateway/src/bandit.rs:202-208 | an update leaves each direction at least the share 1 / (1 + x' a x) of its uncertainty |
| ArmFloor.BlendRestores | gateway/src/bandit.rs:221-224 | forgetting never takes uncertainty away, in any direction |
| ArmFloor.EveryArmIsAlive | gateway/src/bandit.rs:202-224 | whatever an arm learns in contexts of squared length at most B, after n updates it keeps at least 1 / (1 + B)^n of its uncertainty |
| ArmTraining.UnrewardedFades | gateway/src/bandit.rs:202-224 | over updates without reward each blend leaves exactly 0.81 of the squared length of b, and nothing else changes it |
| ArmTraining.FormAfterRankOne | gateway/src/bandit.rs:202-208 | an update divides every form with its own context by 1 + x' a x |
| ArmTraining.Rewarded | gateway/src/bandit.rs:202-217 | between blends n rewarded updates add n x to b |
| ArmTraining.Fed | gateway/src/bandit.rs:202-224 | twenty rewards after a blend bring a faded arm back to an expectation of at least a half |
| Bandit.ContextsFit | gateway/src/bandit.rs:264-266 | the contexts the engine builds have the bias 1 and a squared length of at most 3.04 |
| Bandit.EventuallyRipe | gateway/src/bandit.rs:174-193 | for every exploration factor and every k there is a step from which the bonus left after k updates outweighs rewards and penalties |
| Bandit.EventuallyWorn | gateway/src/bandit.rs:174-193 | and a number of updates that takes at least half of such a bonus |
| Bandit.LittleOutscoresMuch | gateway/src/bandit.rs:174-193 | from then on an arm with at most k updates outscores every arm worn that much, across tiers and rewards |
| Bandit.WornScore | gateway/src/bandit.rs:174-193 | upper bound of the score of an arm that has learned, from the clamp and the bound on the matrix |
| Bandit.FreshScore | gateway/src/bandit.rs:174-193 | lower bound of the score of an arm with at most k updates, from the floor under its matrix |
| BanditRun.PicksAreBest | gateway/src/gateway.rs:432-489 | each attempt of a request goes to an arm not tried before that none of the others left outscores in its context at its step |
| BanditRun.LastLearns | gateway/src/gateway.rs:1071-1078 | the arm tried last learns, no other arm moves |
| BanditRun.RipePickIsNotWorn | gateway/src/gateway.rs:432-489 | a ripe request that does not try an arm with few updates ends on an arm that is not yet worn |
| BanditRun.ServeProgresses | gateway/src/gateway.rs:432-489 | so every request brings the trial of such an arm nearer |
| BanditRun.NoPermanentLockIn | gateway/src/gateway.rs:432-489 | for every pool and every k there is a number of requests after which each arm has learned k times or been tried by k requests, in every run, from whatever states, for all contexts, failed attempts and rewards |
| BanditRun.TriesAreUpdates | gateway/src/gateway.rs:1071-1078 | without failed attempts every try is an update, so then each arm has learned k times |
| BanditArms.BanditArm.Update | gateway/src/bandit.rs:202-217 | the arm moves as one learning step and its matrix keeps its shape; the denominator is at least one |
| BanditArms.BanditArm.ComputeUcbScore | gateway/src/bandit.rs:174-193 | the score, and that the clamp on the variance never acts |
| Bandit.ScoreInFull | gateway/src/bandit.rs:47-193 | the score by its formula and its numbers: estimate limited to 0 and 1, bonus, cost of the tier, premium for free nodes |
| Bandit.BonusIff | gateway/src/bandit.rs:186-186 | the bonus times the root of 1 + n is alpha times spread times the root of ln(1 + t) |
| Exploitation.EstimatesDecide | gateway/src/bandit.rs:174-193 | arms alike in matrix, updates and tier score exactly as far apart as their estimates, limited to 0 and 1 |
| Exploitation.GreaterEstimateWins | gateway/src/bandit.rs:286-301 | so the one with the lower estimate is not chosen |
| Exploitation.GreaterEstimateIsPicked | gateway/src/gateway.rs:448-489 | nor by the gateway |
| Exploitation.ConstantReward | gateway/src/bandit.rs:202-224 | an arm that always earns r has the matrix of one that earns 1 and r times its vector, through all updates and blends |
| Exploitation.MoreRewardScoresHigher | gateway/src/bandit.rs:174-224 | of two arms with the same contexts the one that always earned more scores higher exactly if estimates are positive and the lower one is below 1 |
| Exploitation.OneContextEstimate | gateway/src/bandit.rs:174-217 | after n rewards of 1 in one context the estimate is n q / (1 + n q) |
| Exploitation.RewardsDecideAtFirst | gateway/src/bandit.rs:174-217 | so until arms first forget the one that earned more scores higher |
| Exploitation.EstimateAfterForgetting | gateway/src/bandit.rs:219-224 | forgetting makes 0.81 e + 0.09 b'x of an estimate e |
| Exploitation.ForgettingHidesRewards | gateway/src/bandit.rs:219-224 | and with the first forgetting arms with any rewards of at least 1/90 score the same |
| Exploitation.FirstForgettingOfTier | gateway/src/bandit.rs:32-59 | a free arm first forgets with its 1,000th update, any other with its 10,000th |
| Exploitation.TierCosts | gateway/src/bandit.rs:61-70 | how far arms of two tiers in one state score apart |
| BanditArms.LinUCBEngine.SelectBestArm | gateway/src/bandit.rs:286-301 | the first arm with the greatest score, none for an empty pool |
| BanditArms.LinUCBEngine.SelectOutside | gateway/src/gateway.rs:432-489 | the same among the arms not tried before |
| BanditArms.ServeRequest | gateway/src/gateway.rs:432-1078 | attempts until one connects, after which the last node tried learns, are one step of the runs above |
| Selection.FirstMaxIsUnique | gateway/src/bandit.rs:286-301 | the first maximum is determined by the scores |
| Gateway.SmartProxyGateway.ArmFor | gateway/src/gateway.rs:113-123 | the arm of a node, created fresh on first use; no other arm moves |
| Gateway.SmartProxyGateway.Observe | gateway/src/gateway.rs:1071-1078 | the arm of the node learns, and none but that one |
| Gateway.SmartProxyGateway.TierQuotaForcedTier | gateway/src/gateway.rs:499-553 | the forced tier is absent, no absent one has fewer candidates, and it is the first in the pool among those with as few; none is forced exactly if no candidate tier is absent or all candidates are of one tier |
| Gateway.SmartProxyGateway.SelectBanditNodeExcluding | gateway/src/gateway.rs:432-490 | a node of the pool that is eligible and not excluded, the first with the greatest score of its arm at the next step; none exactly if there is no such node; an initial selection obeys the quota and enters the window, a retry does neither |
| Gateway.ScoredAsBefore | gateway/src/gateway.rs:113-476 | the arms created in the course of the pass change nobody's score |
| Gateway.TopIsChosen | gateway/src/gateway.rs:448-489 | on a retry no eligible node that is not excluded scores more than the chosen one, and none before it in the pool as much |
| GatewayRequests.RunRequest | gateway/src/gateway.rs:889-1015 | over the attempts of a request only eligible nodes are tried, none that failed before, all but the last failed to connect, and at most 16 retries never repeat a node |
| GatewayRuns.EveryLegalTierIsPicked | gateway/src/gateway.rs:448-489 | for every tier the quota allows, at every step, in every context and whatever the arms have learned so far, there is feedback after which the gateway picks that tier |
| GatewayRuns.EveryRunHappens | gateway/src/gateway.rs:432-553 | so the gateway can be led through every run that the quota's guarantees speak of |
| TierQuota.TiersOf | gateway/src/gateway.rs:505-519 | the tiers with a candidate, each once |
| TierQuota.Missing | gateway/src/gateway.rs:524-529 | the candidate tiers that are not in the window |
| TierQuota.Rarest | gateway/src/gateway.rs:533-551 | an absent tier with the fewest candidates |
| TierQuota.CountIsSize | gateway/src/gateway.rs:533-551 | the candidates counted for a tier are the eligible nodes of that tier that are not excluded |
| TierQuota.ListedIsSomewhere | gateway/src/gateway.rs:505-519 | and the tiers collected are those with such a node |
| TierQuota.ForcedTierInPool | gateway/src/gateway.rs:499-553 | what the forced tier is, in terms of the pool |
| TierQuota.BestIsLegal | gateway/src/gateway.rs:448-489 | whatever the scores, the node chosen is of a tier the quota allows |
| TierFairness.AbsentIsPicked | gateway/src/gateway.rs:499-553 | while some tier is absent, an absent tier is picked |
| TierFairness.AbsentWasOldest | gateway/src/gateway.rs:480-488 | a tier absent after a selection was the oldest in the window |
| TierFairness.SettledAfterWindow | gateway/src/gateway.rs:432-553 | with at most W + 1 tiers at most one is absent after W selections, from any window |
| TierFairness.AbsenceEmpties | gateway/src/gateway.rs:432-553 | with m tiers, at most W, no tier is absent within m selections |
| TierFairness.EveryTierWithinWindowPlusOne | gateway/src/gateway.rs:432-553 | every candidate tier occurs in any W + 1 consecutive initial selections |
| TierFairness.FairWithinWindowPlusOneIff | gateway/src/gateway.rs:35-553 | that guarantee holds exactly while at most W + 1 tiers compete |
| TierFairness.FairWithinWindowIff | gateway/src/gateway.rs:32-553 | the promise of W selections holds exactly when at most one tier has candidates |
| Health.SaneAfterNotes | gateway/src/free_pool.rs:988-1006 | rate, latency and backoff stay in range; backoff is set exactly while failures last |
| Health.CompositeIsFraction | gateway/src/free_pool.rs:1008-1019 | the composite is a fraction, halved without a streak and undiscounted for a trusted streak |
| Health.ScoreFallsWithLatency | gateway/src/free_pool.rs:1008-1011 | above the neutral latency the score is in inverse proportion to the latency |
| Health.CompositeMonotone | gateway/src/free_pool.rs:1008-1019 | a better rate, a lower latency and a longer streak never make a lower composite |
| Health.NotesMoveWeight | gateway/src/free_pool.rs:988-1036 | a success no slower than the average never lowers the weight, a failure never raises it |
| Health.WeightRange | gateway/src/free_pool.rs:1021-1036 | the weight is 1 to 20, above 10 only for an elite node with three successes in a row and an average below 1.5 seconds |
| Health.WeightIsRounded | gateway/src/free_pool.rs:1021-1036 | the weight is the composite scaled to 10, or 20 for such a node, rounded half up |
| Health.CompositeOfStreak | gateway/src/free_pool.rs:1008-1019 | each of the first three successes in a row adds a sixth of the score |
| Health.AfterFailure | gateway/src/free_pool.rs:996-1036 | any failure leaves a weight of at most 4 and the backoff of its streak |
| Health.BackoffDoubles | gateway/src/free_pool.rs:996-1006 | the backoff doubles from one minute up to one hour |
| Health.SuccessClosedForm | gateway/src/free_pool.rs:988-994 | k successes in a row give 1 - (1 - s) 0.7^k |
| Health.FailuresClosedForm | gateway/src/free_pool.rs:996-1006 | k failures in a row leave s 0.7^k, k more failures and the backoff of their number |
| Health.LatencyBound | gateway/src/free_pool.rs:988-994 | closed-form bound of the smoothed latency |
| Health.FullWeightFromNinthSuccess | gateway/src/free_pool.rs:975-1036 | an elite node never slower than a second has weight 20 exactly from its ninth success on |
| Eviction.BeforeTotal | gateway/src/free_pool.rs:1206-1252 | the eviction order is total and irreflexive |
| Eviction.BeforeTransitive | gateway/src/free_pool.rs:1206-1252 | and transitive |
| Eviction.LexLessIff | gateway/src/free_pool.rs:1244-1252 | addresses are compared at the first place where they part |
| Eviction.KeepSkipsLeast | gateway/src/free_pool.rs:1206-1230 | over capacity, removing the least entry does not change what is to be kept |
| Eviction.KeepIsTheGreatest | gateway/src/free_pool.rs:1206-1230 | what is kept are as many as fit, each outranking each one removed |
| Eviction.KeepIsUnique | gateway/src/free_pool.rs:1206-1230 | no other set of entries is like that, whatever the order of iteration |
| Registry.Registry.UpsertFull | gateway/src/free_pool.rs:1104-1159 | a known address is refreshed - rate, latency and streak move by their formulas, no backoff is left - and keeps its node; a new one is inserted with the fields of the raw node and the registry cut to capacity, whoever goes being backed off before, or lower than, all who stay |
| Registry.Registry.RenewTtl | gateway/src/free_pool.rs:1161-1165 | only the expiry of the address changes |
| Registry.Registry.NoteVerifyFailed | gateway/src/free_pool.rs:1169-1179 | a known node has 0.7 of its rate, no streak, one failure more, its backoff and a weight of at most 4; any address is marked, the marks being bounded |
| Registry.ConsecutiveFailures | gateway/src/free_pool.rs:1169-1242 | after k failures in a row the rate is s 0.7^k and the node is in no snapshot until 60 times 2^(k-1) seconds, at most an hour, after the last, and in every one from then on until it expires |
| Registry.Registry.Reverify | gateway/src/free_pool.rs:1191-1200 | success or failure of a known node only |
| Registry.Registry.LeastOf | gateway/src/free_pool.rs:1206-1230 | one pass, in any order, finds the least entry |
| Registry.Registry.PickVictim | gateway/src/free_pool.rs:1206-1230 | the victim is the least entry of all |
| Registry.Registry.EvictIfOverCapacity | gateway/src/free_pool.rs:1206-1230 | the loop ends with exactly what the one-shot specification keeps, and counts what it removed |
| Registry.RemovedGoFirst | gateway/src/free_pool.rs:1206-1252 | whoever is removed is backed off while the kept one is not, or has the lower composite, or the smaller address |
| Registry.Registry.Snapshot | gateway/src/free_pool.rs:1234-1242 | the nodes of exactly the entries that are unexpired, not backed off and pass the elite gate, each once |
| SourceGuard.TrailingEmpty | gateway/src/free_pool.rs:1280-1296 | the length of the run of empty outcomes at the end of the trace |
| SourceGuard.SourceGuard.NoteOutcome | gateway/src/free_pool.rs:1280-1296 | counter and suspension tick are those of the trace of counted outcomes |
| SourceGuard.SourceGuard.ShouldFetch | gateway/src/free_pool.rs:1272-1277 | a fetch is due unless the last `maxZero` outcomes were empty; from then on exactly every `retryEvery` ticks, counted from the tick at which they had become that many |
| SourceGuard.SourceGuard.Tick | gateway/src/free_pool.rs:1316-1352 | one tick of the loop extends the driven trace by one tick |
| SourceGuard.SuspendedIff | gateway/src/free_pool.rs:1280-1296 | suspended exactly when at least `maxZero` outcomes since the last yield were counted, all empty |
| SourceGuard.DriveInOrder | gateway/src/free_pool.rs:1272-1296 | fetches happen in order, at most once a tick |
| SourceGuard.SuspendedSchedule | gateway/src/free_pool.rs:1272-1296 | since the tick t of suspension a tick u is a fetch exactly if `retryEvery` divides u - t |
| SourceGuard.FetchedAtMultiples | gateway/src/free_pool.rs:1272-1296 | every tick t + k * retryEvery is a fetch |
| SourceGuard.FetchIsAtMultiple | gateway/src/free_pool.rs:1272-1296 | and every fetch since t is at such a tick |
| SourceGuard.OneFetchInEach | gateway/src/free_pool.rs:1272-1296 | of any `retryEvery` consecutive ticks exactly one is a fetch |
| SourceGuard.FetchedUnlessSuspended | gateway/src/free_pool.rs:1272-1277 | a source that is not suspended is fetched at the next tick |
| FetchCycle.Ask | gateway/src/free_pool.rs:1316-1329 | the sources asked are exactly those due |
| FetchCycle.CountAll | gateway/src/free_pool.rs:1332-1356 | every source asked is counted once, as empty exactly if it failed, timed out or brought an empty list not declared unchanged, and no other is |
| FetchCycle.FetchAll | gateway/src/free_pool.rs:1308-1362 | who is asked, what is counted, and that the result is the deduplicated yield in the order of the sources |
| FetchCycle.CollectedIff | gateway/src/free_pool.rs:1332-1361 | what is collected are the nodes of the lists that sources asked have brought as new |
| FetchCycle.CollectedInOrder | gateway/src/free_pool.rs:1357-1361 | in the order of the sources |
| FetchCycle.LaterSourcesOnlyAdd | gateway/src/free_pool.rs:1357-1361 | sources behind never displace what earlier ones brought |
| Intake.DedupeFirst | gateway/src/free_pool.rs:1357-1361 | the loop computes the deduplication |
| Intake.DedupeKeepsFirsts | gateway/src/free_pool.rs:1357-1361 | exactly the first occurrences per address and protocol are kept, in order |
| Intake.SourceOrder | gateway/src/free_pool.rs:1388-1392 | sources are ranked by first appearance |
| Intake.SourcesByFirstNode | gateway/src/free_pool.rs:1388-1392 | the ranks are in the order of the sources' first nodes |
| Intake.CapIntake | gateway/src/free_pool.rs:1384-1399 | the prefix of the stable sort by elite history and source rank, or the input if it fits |
| Intake.StableSortFacts | gateway/src/free_pool.rs:1393-1396 | the result is sorted and every class of equal keys stands in its original order |
| Intake.StableSortIsUnique | gateway/src/free_pool.rs:1393-1396 | and it is the only list that is |
| Intake.TruncationKeepsEarliest | gateway/src/free_pool.rs:1393-1398 | of each class the earliest survive, and all of a class before one with a survivor |
| Intake.EliteThenSourceOrder | gateway/src/free_pool.rs:1384-1399 | a node survives only if all elite ones, and all of earlier sources of its kind, do |
| Routable.SpeltByNumerals | gateway/src/free_pool.rs:117-130 | four numerals spell the address of their values, leading zeros or not |
| Routable.RoutableShown | gateway/src/free_pool.rs:117-140 | for a printed address the check is that of its octets |
| Routable.SpeltIff | gateway/src/free_pool.rs:117-130 | what spells an address are exactly four numbers of at most 255 joined by dots |
| Routable.RoutableIff | gateway/src/free_pool.rs:117-140 | what is refused are exactly seven blocks of addresses, given by their 32-bit numbers |
| HtmlScanner.ScanOctets | gateway/src/free_pool.rs:409-434 | the octet loop computes the recursive reading |
| HtmlScanner.ScanPortStart | gateway/src/free_pool.rs:435-470 | the tag-skipping loop ends and finds the first digit behind white space and tags |
| HtmlScanner.ScanIpPort | gateway/src/free_pool.rs:408-481 | the match at the head of the text |
| HtmlScanner.MatchIpPort | gateway/src/free_pool.rs:408-481 | octets are at most 255, the port is 1 to 65535, and at least one byte is consumed |
| HtmlScanner.Extract | gateway/src/free_pool.rs:356-405 | the scan loop computes the extraction and ends on every input |
| HtmlScanner.ExtractsOnlyWellFound | gateway/src/free_pool.rs:356-405 | from any bytes only canonical, routable addresses with a port come out |
| HtmlScanner.ExtractsOnlyAtTokens | gateway/src/free_pool.rs:356-405 | every entry stands where a number starts that is not the tail of another, and is of the protocol marked in the 200 bytes before, or of the default |
| LineParser.ParseWith | gateway/src/free_pool.rs:525-576 | the parser takes the entries of all lines in order |
| LineParser.ParsesOnlyRoutable | gateway/src/free_pool.rs:525-576 | from any text only entries come out that spell a routable address with a port |
| LineParser.ProtoIsMarked | gateway/src/free_pool.rs:535-541 | an entry is of the protocol its line marks, in either case, or of the default |
| Decimal.ParseUnsignedIff | gateway/src/free_pool.rs:543-556 | the numbers accepted: digits up to the maximum, with or without leading zeros and a plus sign |
| AddressLists.LineParsed | gateway/src/free_pool.rs:528-569 | a listed line yields its entry, spelt as it stands |
| AddressLists.LineMatched | gateway/src/free_pool.rs:408-481 | a listed line is matched as a whole, whatever follows |
| AddressLists.CellMatched | gateway/src/free_pool.rs:435-477 | an address is matched with the port behind any white space and whole tags |
| AddressLists.ListsAreRead | gateway/src/free_pool.rs:356-576 | both scanners return every item of a list once and in order, and agree exactly if no octet has a leading zero |
| AddressLists.PrintedListsComeBack | gateway/src/free_pool.rs:356-576 | lists of printed addresses come back from both scanners unchanged |
| Ipv4.ParseShown | gateway/src/node_registry.rs:474-488 | printing and parsing an address undo each other |
| Ipv4.ShowParsed | gateway/src/node_registry.rs:474-488 | only the printed form of an address is accepted |
| ManagedNode.NormalizeGivesNormal | gateway/src/node_registry.rs:471-571 | what is accepted is in normal form, and the other fields are kept |
| ManagedNode.NormalIffFixed | gateway/src/node_registry.rs:471-571 | the normal form is exactly what normalization leaves alone |
| ManagedNode.NormalizeIff | gateway/src/node_registry.rs:471-571 | normalization gives exactly the normal node that the raw node spells, and refuses exactly what spells none |
| ManagedNode.NormalizeIsIdempotent | gateway/src/node_registry.rs:471-571 | normalizing twice is normalizing once |
| ManagedNode.TierIsRead | gateway/src/node_registry.rs:496-571 | residential and datacenter have one short name each, in either case; any other tier but mobile is refused |
| ManagedNode.NormalInFull | gateway/src/node_registry.rs:471-571 | the normal form with its numbers, and what providers and credentials may be |
| ManagedNode.AddrNamesIpAndPort | gateway/src/node_registry.rs:494-495 | equal addresses mean equal host and port |
| ManagedNode.TokenOfProto | gateway/src/model.rs:49-56 | the protocol written is the protocol read |
| ManagedNode.ProtoNames | gateway/src/model.rs:31-56 | the names of each protocol, in either case, and that there are no others |
| ManagedNode.NodeRoundTrip | gateway/src/node_registry.rs:129-166 | a node in normal form comes back from its persisted form, but for the exit address |
| ManagedNode.ReadIsNormal | gateway/src/node_registry.rs:146-166 | whatever is persisted, a node read from it is in normal form |
| NodeStore.EnsureUniqueAndBounded | gateway/src/node_registry.rs:453-467 | the bound is checked first, then the first repeated address is reported |
| NodeStore.NoRepeatIffDistinct | gateway/src/node_registry.rs:453-467 | no repeat is found exactly if addresses are distinct, and one that is found is one |
| NodeStore.ReadFile | gateway/src/node_registry.rs:428-450 | loading, with each way a file is refused |
| NodeStore.LoadsIff | gateway/src/node_registry.rs:428-467 | exactly which files load, and as what |
| NodeStore.RepeatIsReported | gateway/src/node_registry.rs:453-467 | an address reported as repeated stands in the file twice |
| NodeStore.SeedsLoadIff | gateway/src/node_registry.rs:180-191 | without a file the seeds are taken, if they are few enough and no address comes twice |
| NodeStore.FileRoundTrip | gateway/src/node_registry.rs:129-450 | a list comes back from its file exactly if it is bounded, unique and normal, and identically exactly if it also has no exit addresses |
| NodeStore.SeedsComeBack | gateway/src/main.rs:419-450 | the seeds pass the check, and the first file written from them loads back as the same list |
| NodeStore.ReadIsSound | gateway/src/node_registry.rs:428-450 | whatever is loaded is bounded, unique and normal |
| NodeTransactions.NodeRegistry.Persist | gateway/src/node_registry.rs:348-393 | the file is replaced as a whole or left alone; nothing is done without a path |
| NodeTransactions.NodeRegistry.AddNode | gateway/src/node_registry.rs:225-260 | result, memory, file and every content of the file in between, for each mix of outcomes |
| NodeTransactions.NodeRegistry.RemoveNode | gateway/src/node_registry.rs:264-294 | the same for removal |
| NodeTransactions.NodeRegistry.SetWeight | gateway/src/node_registry.rs:299-345 | the same for group weights, which write nothing if no node matches and report how many nodes of the provider are in the country, whatever case it is written in |
| NodeTransactions.Reweigh | gateway/src/node_registry.rs:317-324 | the loop sets and counts exactly the group |
| NodeRecovery.PlanKeepsSound | gateway/src/node_registry.rs:225-345 | every operation keeps the list bounded, unique and normal |
| NodeRecovery.AddThenRemove | gateway/src/node_registry.rs:225-294 | adding a node and removing it leaves the list as it was |
| NodeRecovery.RemovedIsOne | gateway/src/node_registry.rs:264-294 | removal takes out one node of that address and leaves the others in their order |
| NodeRecovery.RefusedWhen | gateway/src/node_registry.rs:225-345 | for each operation exactly when it is refused, and with which error |
| NodeRecovery.WeightSetOnGroup | gateway/src/node_registry.rs:299-345 | the weight is set on the group and nowhere else, and a change is written |
| NodeRecovery.AllOrNothing | gateway/src/node_registry.rs:225-345 | an error leaves memory alone; success leaves any file written equal to memory |
| NodeRecovery.CrashFindsOldOrNew | gateway/src/node_registry.rs:225-393 | at every crash point a restart loads the old or the new list |
| NodeRecovery.StepDecidesSync | gateway/src/node_registry.rs:225-345 | an operation that writes decides whether file and memory agree, one that does not changes nothing |
| NodeRecovery.DivergesIff | gateway/src/node_registry.rs:225-345 | after any run they disagree exactly if a failed rollback left another list behind and nothing has been written since |
| NodeRecovery.MemoryIsWhatSucceeded | gateway/src/node_registry.rs:225-345 | after any run memory is what the successful operations alone make of it |
| Histogram.BucketFrom | gateway/src/metrics.rs:29-31 | the first bucket that takes a clipped duration; there always is one |
| Histogram.CumulativeIsAtMost | gateway/src/metrics.rs:919-926 | the buckets up to a bound hold exactly the observations of at most it |
| Histogram.LastRowIsAll | gateway/src/metrics.rs:789-799 | no clipped observation is above the last bound |
| Histogram.DurationHistogram.Observe | gateway/src/metrics.rs:789-799 | an observation is added to what the counters stand for |
| Histogram.DurationHistogram.Render | gateway/src/metrics.rs:919-935 | each row counts the durations up to its bound, the last equals `+Inf` and the count; the sum, each duration counted up to a minute, saturates |
| HistogramRaces.AdvanceKeepsCounters | gateway/src/metrics.rs:166-175 | each atomic operation, failed exchanges included, keeps the counters those of the observers |
| HistogramRaces.StepKeepsInv | gateway/src/metrics.rs:789-935 | so does every step of observers and reader |
| HistogramRaces.RunKeepsInv | gateway/src/metrics.rs:789-935 | the invariant holds under every interleaving |
| HistogramRaces.ShownIsBounded | gateway/src/metrics.rs:919-935 | under any interleaving rows never fall and the last exceeds `+Inf` by at most the observers under way |
| HistogramRaces.QuietCountersAreExact | gateway/src/metrics.rs:789-799 | once all observers are done the counters are exactly those of the observations |
| ChunkedBody.SkipTrailerSection | tools/ipp_forward.py:59-63 | the trailer section is consumed up to a blank line or the end |
| ChunkedBody.ReadChunkedBody | tools/ipp_forward.py:41-74 | the loop computes the decoding and leaves the rest on the stream |
| ChunkedBody.NeverAboveCap | tools/ipp_forward.py:64-69 | no body above the cap is returned, whatever the stream holds |
| ChunkEncoding.TrailersEnd | tools/ipp_forward.py:57-62 | an empty line, with or without carriage return, ends the trailer section, any other line is skipped |
| ChunkEncoding.TokenOfPrefix | tools/ipp_forward.py:50-50 | from a size line, or the beginning of one, the size digits present are read |
| ChunkEncoding.ChunksRead | tools/ipp_forward.py:46-73 | whole chunks are read one after the other as long as they fit |
| ChunkEncoding.DecodeOfEncode | tools/ipp_forward.py:41-74 | decoding undoes encoding and consumes it exactly; an overflow is raised exactly if the data exceed the cap |
| ChunkEncoding.HexIsReadBack | tools/ipp_forward.py:54-54 | a size printed in hexadecimal is read back |
| ChunkEncoding.PiecesComeBack | tools/ipp_forward.py:41-74 | a body sent in pieces behind their printed sizes comes back joined, or overflows exactly above the cap |
| ChunkEncoding.PaddedSizeIsRead | tools/ipp_forward.py:50-50 | blanks around a size make no difference |
| ChunkEncoding.PaddedHeadIsRead | tools/ipp_forward.py:50-50 | nor do blanks between a size and its extensions |
| ChunkEncoding.SizeForms | tools/ipp_forward.py:53-56 | the other forms of a size that are read, and those that are refused |
| ChunkEncoding.CutIsRefused | tools/ipp_forward.py:41-74 | without leading zeros every prefix before the last chunk is refused |
| ChunkEncoding.CutAtZeroPasses | tools/ipp_forward.py:56-63 | cut behind the leading zero of a size, the data before it are returned as a whole body |
| ChunkEncoding.PrefixesRefusedIff | tools/ipp_forward.py:41-74 | all such prefixes are refused exactly if no size has a leading zero |
| Retry.ProxyContext.FailToConnect | gateway/src/gateway.rs:987-1015 | bytes are reset, the node is remembered, and a retry is granted while any is left |
| Retry.RecordedOnce | gateway/src/gateway.rs:251-258 | failed nodes are remembered once each and at most 16 |
| Retry.FailedAreRemembered | gateway/src/gateway.rs:251-258 | over a request exactly the first 16 nodes tried are remembered |
| Retry.FewAttemptsAreDistinct | gateway/src/gateway.rs:251-258 | at most 17 attempts never go to a node twice |
| Retry.NoNodeTwiceIff | gateway/src/gateway.rs:987-1015 | no request can go to a node twice exactly if at most 16 retries are allowed |
| Retry.NoRequestRepeatsANode | gateway/src/model.rs:163-168 | with the 3 retries a request has, no node is tried twice and all that failed are remembered |

## Left out

- BanditArms.BanditArm.ComputeUcbScore: floating point is replaced by exact reals, so rounding, NaN and infinities are not modelled; square root and logarithm are parameters of which only squaring back, monotony and unboundedness are used.
- BanditRun.NoPermanentLockIn: requests are served one after the other over a fixed pool; selections that the tier quota forces are not among them (with a single tier it never forces one), an attempt that finds no node left is not an attempt, and the second component of every context is 1 as `extract_context` sets it. An attempt that fails counts as a try but teaches nothing, since only the last node tried learns.
- Gateway.SmartProxyGateway.SelectBanditNodeExcluding: which nodes are eligible for a request is a parameter; two nodes with one address are of one tier, as the router keeps addresses unique; pruning the arms of nodes that have left the pool is not modelled.
- GatewayRequests.RunRequest: the loop is that of the proxy server, which calls the gateway before and after each attempt; requests of sticky sessions and of the SOCKS path, and the refusal of credentials on free nodes, are not part of it.
- Exploitation.MoreRewardScoresHigher: rewards are constant over an arm's history; arms with changing rewards are compared by their estimates only (`Exploitation.EstimatesDecide`).
- GatewayRuns.EveryRunHappens: the candidates are constant over the run, as in the guarantees, and the feedback between two selections is any that leads to the pick, with rewards of 0 and 1 in the context of that selection.
- TierFairness.FairWithinWindowPlusOneIff: initial selections one after the other with a constant set of candidates; changing request specs and concurrent selections, which share one window and lock it twice, are not modelled.
- SinkProtocol.NoRunLosesAnEvent: stream trimming, the idle threshold of reclaiming and the creation of the group at the end of the stream are not modelled; a reply of several entries is several consecutive steps, and deleting a consumer is a step of these runs only if it has nothing pending.
- Registry.Registry.UpsertFull: an entry is a value that replaces the one in the map instead of being updated in place; times are whole seconds.
- SourceGuard.SourceGuard.NoteOutcome: the 32-bit counter of empty outcomes does not wrap.
- FetchCycle.FetchAll: the fetches themselves are parameters, so their concurrency is not modelled.
- HtmlScanner.Extract: the text is a sequence of bytes written as characters; the lossy decoding of the 200-byte window cannot make or break an ASCII mark and is left out.
- ManagedNode.NormalizeGivesNormal: error messages are reduced to the kind of error.
- NodeTransactions.NodeRegistry.Persist: JSON text is replaced by the records it stands for or by text that does not parse; creating the directory, writing and syncing the temporary file and renaming it are one outcome, since only the rename changes the file.
- HistogramRaces.ShownIsBounded: steps are atomic in one total order; bucket and count counters do not wrap at 64 bits (the sum saturates, as in the source).
- ChunkedBody.ReadChunkedBody: the connection itself, its timeouts and the translation of errors into responses are left out.
- Retry.NoNodeTwiceIff: the selection that honours the excluded nodes is `Gateway.SmartProxyGateway.SelectBanditNodeExcluding`; sticky sessions of the router are not part of this model.
- The router, tenants, telemetry and vendor pricing are left out: which node matches a request is an arbitrary predicate, and the router's answer to a change is an arbitrary outcome.
- Network, HTTP, TLS, SOCKS, Redis and ClickHouse clients, the admin routes, the metrics endpoint, the web interface, the SDKs and the check scripts are left out.
- Configuration tables, clamping helpers, environment parsing, the anonymity and geo verdicts, the sampling of logs and the counters by label are left out: they would add only easy members.
