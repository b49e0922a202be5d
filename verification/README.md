# The SZL mesh, modelled in Dafny

This project models the stateful cores of the mesh repository and proves what they keep.

* **Two-track CRDT, node runtime, harness and lab** (`Crdt`, `Receipts`, `Enrollment`, `Node`, `NodeRuns`, `Harness`,
  `HarnessRuns`, `Lab`, `LabLaws`). Documents, nodes, gateways and the harness are classes whose methods are proved against step
  functions on values; the theorems are about all runs of those steps. The central one: replicas reached by the same
  operations agree on the observed view even while they classify operations differently. The lab's evidence from single
  scenarios becomes a theorem about all valid scenarios.
* **Mesh coordinator** (`LayerAssignment`, `PipelinePlan`, `LeastConnections`, `Relay`, `Coordinator`, `PipelineExits`,
  `CoordinatorRuns`, `DispatchRuns`, `Liveness`). The allocator, the greedy planner, the scheduler, the deduplicating relay and the
  budgeted loop, each with its optimality or exactness theorem, and invariants of every interleaving.
* **Hash-chained ledger and pre-authentication encoding** (`KhipuLedger`, `Pae`). Tamper evidence is stated without any
  assumption on the hash: same content, or a collision between strings the two chains hashed.
* **Quorum certificates** (`Quorum`, `Proposal`, `QuorumSafety`, `IdealScheme`). Counting by distinct organ, agreement
  with the proposal, and conditional Byzantine safety, whose bound is exact under every correct
  signature scheme.
* **Snapshot merge** (`VectorClocks`, `SnapshotMerge`, `MergeLaws`). A last-writer-wins join with a least upper bound of
  vector clocks.

`Prelude` and `Orders` hold shared values, Python's ordering of strings and its stable sort.

Hashes, signatures, MACs, JSON, UTF-8, base64, the seeded generator and clocks are parameters. A property that needs
something of them says so in its `requires` (`Receipts.KeyWorks` and `ReadsBack`, `KhipuLedger.Encodings` and
`TellsApart`, `Proposal.Correct`, `QuorumSafety.Formation`, `Injective` for the operations at hand); all others hold for
every choice. `IdealScheme` shows that what is asked of signatures and encodings can be had. Numbers are exact: VRAM,
scores, credits and times are reals or integers. Each method is one atomic step.

Where the code and its own documentation differ, the model follows the code:

* Dispatch picks by load, so the node that serves stage i need not be the planned tile; the plan only fixes how many
  stages there are (`szl_mesh_coordinator.py:766-768`).
* A pipeline that stops at a failed stage has made one step more than it has receipts, although its result always carries
  `receiptsInEqOut: True` (`szl_mesh_coordinator.py:816-818`); `PipelineExits.Exits` states both numbers.
* A revoked node, or one with jobs on record, can join again and is then UP with its counters at zero
  (`szl_mesh_coordinator.py:414-447`). `CoordinatorRuns.BalancedIff` and `AlwaysRevokedDownIff` state exactly which joins
  the accounts and the revocations survive.
* A write with an unknown transition class fails after its operation has been stored (`node.py:91-117`), so it is never
  broadcast; `HarnessRuns.GossipUnifiesIffNoneFailed` states that nodes then never unify, and
  `HarnessRuns.FailedWriteSplitsViews` what they show.
* The gate has a status for a revoked signer (`receipts.py:285-286`), but no node ever reports it: a gateway's registry
  leaves out revoked nodes (`enrollment.py:124-130`), so their receipts are refused for the signature
  (`Node.StatusReported`).
* Merging documents commutes only if they agree on the tracks of shared operations (`crdt.py:166-169`).
* A proposal counts an organ as often as it is listed, a verification once (`quorum.py:218-249`).

## Model

| member | source | states |
|---|---|---|
| Orders.LessExact | src/szl_mesh/crdt.py:103-105 | the order of strings that all tie-breaks use: the first differing character decides, and a proper prefix comes first |
| Crdt.CRDTDocument.AddOp | src/szl_mesh/crdt.py:160-170 | adds an operation under its id unless the id is held, in which case entry and track stay; refuses another document |
| Crdt.CRDTDocument.SetOpTrack | src/szl_mesh/crdt.py:172-185 | changes the track of a held operation and nothing else |
| Crdt.CRDTDocument.Merge | src/szl_mesh/crdt.py:187-199 | the result is the union in which own entries win, whatever order the entries are copied in; the count is of new ids |
| Crdt.CRDTDocument.MergeOps | src/szl_mesh/crdt.py:201-207 | adds the operations up to the first that belongs to another document, and fails there with those added |
| Crdt.CRDTDocument.CollectWinners | src/szl_mesh/crdt.py:209-223 | the loop over an unordered table finds, for every key, the operation no other of that key is ordered after |
| Crdt.CRDTDocument.Materialise | src/szl_mesh/crdt.py:209-227 | the view maps each key to its greatest operation, and omits it if that deletes |
| Crdt.CRDTDocument.CurrentHeads | src/szl_mesh/crdt.py:243-256 | the sorted ids of the per-key greatest operations among the tracks that count |
| Crdt.CRDTDocument.AllOps | src/szl_mesh/crdt.py:262-264 | all operations, by ascending id |
| Crdt.BeforeTotal | src/szl_mesh/crdt.py:103-105 | the order key compares any two operations with different ids one way or the other |
| Crdt.BeforeTransitive | src/szl_mesh/crdt.py:103-105 | the order key is transitive |
| Crdt.BeforeIrreflexive | src/szl_mesh/crdt.py:103-105 | no operation is ordered before itself |
| Crdt.MergeCommutesIff | src/szl_mesh/crdt.py:187-199 | merging commutes exactly when the logs agree, tracks included, on the operations they share |
| Crdt.MergeAssociativeIdempotent | src/szl_mesh/crdt.py:187-199 | merging is associative and absorbs repeats on all logs, agreeing or not |
| Crdt.ObservedIgnoresClassification | src/szl_mesh/crdt.py:233-256 | replicas with the same operations and different local verdicts show one observed view and one list of heads |
| Crdt.AuthorizedNeedsAgreement | src/szl_mesh/crdt.py:229-231 | and one authorized view once they authorize the same operations |
| Crdt.LatestWins | src/szl_mesh/crdt.py:214-227 | an operation with the highest clock decides its key |
| Crdt.ViewExact | src/szl_mesh/crdt.py:209-227 | a key shows a value exactly when the operation that comes last for it by clock, then node id, then op_id, sets that value |
| Crdt.HeadsExact | src/szl_mesh/crdt.py:243-256 | the heads are exactly those last operations among the ones not revoked, by ascending id |
| Crdt.AddedAllContents | src/szl_mesh/crdt.py:201-207 | adding operations that agree wherever their ids do gives exactly their set, so order and repeats do not matter |
| Crdt.AddedAllExact | src/szl_mesh/crdt.py:160-170 | under each id stays what the log had, or else the first operation that came with the id |
| Lab.NormalizeOperations | lab/simulator.py:48-132 | accepts exactly the clean rows and reports the first bad one; yields the deliveries, the distinct operations by id, and the number of duplicates |
| Lab.ConflictDetected | lab/simulator.py:121-131 | the table of first sightings reveals every row that gives an id another track than an earlier row did |
| Lab.OrderKeepsOperations | lab/simulator.py:153-165 | all four delivery orders hand a replica the same set of operations |
| Lab.OrdersExact | lab/simulator.py:153-165 | the four orders themselves: as listed, reversed, rotated by the replica number, and by key with the latest clock first |
| Lab.StrideAt | lab/simulator.py:168-186 | a piece of the split operations holds every step-th one and misses none of them |
| Lab.CommutativityCheck | lab/simulator.py:168-180 | true exactly when the two halves give one snapshot merged either way round |
| Lab.CoherentHalvesCommute | lab/simulator.py:168-180 | which holds for operations that agree wherever their ids do |
| Lab.AssociativityCheck | lab/simulator.py:183-197 | always true |
| Lab.ReconcileReplica | lab/simulator.py:233-251 | a replica fed in its own order ends with the whole log, and a replay adds nothing |
| Lab.Deliver | lab/simulator.py:225-231 | each partition holds exactly the operations that originate at it |
| Lab.Reconcile | lab/simulator.py:233-263 | every reconciled replica has the snapshot of the whole log, and the replicas agree |
| Lab.SimulateScenario | lab/simulator.py:200-395 | succeeds on exactly the valid scenarios and otherwise gives the error of the first check that fails; never diverges: all four checks hold, the status is CONVERGED, and every final snapshot is that of the whole log |
| Lab.RebuiltLog | lab/simulator.py:135-138 | a document built from a log's operations in any order, with any repeats, is that log |
| LabLaws.AcceptedExactly | lab/simulator.py:48-132 | a scenario is accepted exactly when its size, clocks and origins are within bounds and rows with one op_id agree on the track |
| LabLaws.RowClean | lab/simulator.py:88-131 | the error of a row: its clock first, then its origin, then an earlier row with its op_id on another track |
| LabLaws.FinalShows | lab/simulator.py:200-395 | in the fields of the rows: every final view, on either track, shows exactly what the latest row of each key sets |
| LabLaws.InitialShows | lab/simulator.py:225-231 | before the exchange each replica shows exactly what the latest of its own rows sets, rows without an origin being dealt in turn |
| LabLaws.LatestRowDecides | lab/simulator.py:200-395 | a row that is not revoked and has the highest clock of its key has its value in every final view, or has removed its key |
| LabLaws.IdsReported | lab/simulator.py:121-132 | the report lists the op_ids of the rows once each, sorted, and counts the rows that repeat one |
| LabLaws.HeadsReported | lab/simulator.py:141-150 | every replica's final heads are the op_ids of the latest rows |
| Receipts.AuthorizedIffEvidence | src/szl_mesh/receipts.py:242-302 | the gate authorizes exactly on a verifying receipt for this change by a registered, unrevoked signer, with the locked claims and a close clock |
| Receipts.StatusExact | src/szl_mesh/receipts.py:224-302 | a refusal carries the first status, in the order of the gate's checks, that has something to complain of |
| Receipts.BuiltReceiptVerifies | src/szl_mesh/receipts.py:133-214 | a receipt built with a working key verifies and, if JSON reads its statement back, decodes to that statement |
| Enrollment.AdmittedIffQualifies | src/szl_mesh/enrollment.py:135-221 | any request is admitted exactly when its proof, time, claims, vendor, id and key are in order; the certificate then has its own id, key and claims and the time of admission |
| Enrollment.FormationGateway.Enroll | src/szl_mesh/enrollment.py:135-221 | the early returns succeed on exactly the requests that qualify, give the reason of the first check that fails, and file a certificate only on success |
| Enrollment.RejectedIffFirst | src/szl_mesh/enrollment.py:135-221 | a request is rejected for a reason exactly when that one complains of it and none earlier in the order does |
| Enrollment.EnrollKeepsCertificatesBound | src/szl_mesh/enrollment.py:183-221 | no request, captured or forged, replaces a certificate or files a key under an id that is not its hash |
| Enrollment.HonestRequestAdmittedIff | src/szl_mesh/enrollment.py:62-92 | a request built with the formation key and a key that loads is admitted exactly when its clock is within the window, its claims are the locked ones and its id is neither revoked nor enrolled |
| Node.MeshNode.EnrollWith | src/szl_mesh/node.py:56-80 | the node is enrolled exactly when the gateway admits it |
| Node.MeshNode.WriteOp | src/szl_mesh/node.py:91-141 | the whole new state and record of a write, the operation stored even when the transition class turns out unknown |
| Node.MeshNode.Receive | src/szl_mesh/node.py:160-193 | the whole new state of a remote operation: clock, log, receipt, track |
| Node.MeshNode.Settle | src/szl_mesh/node.py:128-133 | the receipt is kept and the track is the gate's |
| Node.WriteExact | src/szl_mesh/node.py:91-141 | a write field by field: what is stored under which clock, when it fails, and the track by the evidence in its own receipt |
| Node.RemoteExact | src/szl_mesh/node.py:143-193 | a remote operation field by field: authorized exactly when this node has joined and the receipt is evidence; the receipt is kept; new exactly when its id was not held |
| Node.WriteKeepsSane | src/szl_mesh/node.py:82-117 | every operation held by a node stays visible and no newer than the node's clock, through writes |
| Node.ApplyKeepsSane | src/szl_mesh/node.py:160-193 | and through remote operations |
| Node.ReadYourWrites | src/szl_mesh/node.py:82-117 | after a write the observed view shows it, or omits the key after a deletion, unless its id collides with that of another held operation |
| Node.WriteSupersedesHeld | src/szl_mesh/node.py:82-102 | what is written while holding an operation is ordered after it |
| Node.SupersededLoses | src/szl_mesh/crdt.py:214-227 | an operation never decides its key on a replica that holds a later one for it |
| Node.WriteReceiptHeads | src/szl_mesh/node.py:104-126 | a write's own receipt states the locked claims, the operation's id, the heads before and after it, its class, signer and time |
| Node.WriteReceiptAuthorizedIff | src/szl_mesh/node.py:104-141 | it is kept, and authorized exactly when the writer's key is registered and unrevoked and the clocks agree |
| Node.AuthorizedAtPeerIff | src/szl_mesh/node.py:91-193 | end to end: a write's record is authorized at a peer exactly when the peer has joined, the writer's key is on file and unrevoked at its gateway, and its clock is within the window of the writer's |
| Node.WriteStatusReported | src/szl_mesh/node.py:128-158 | the status a write reports is the gate's for the node's registry |
| Node.StatusReported | src/szl_mesh/node.py:143-193 | so is that of a remote operation, and it is never that of a revoked signer |
| Node.SettledOnEvidence | src/szl_mesh/node.py:143-158 | an unenrolled node authorizes nothing; an enrolled one only on evidence it then holds |
| NodeRuns.AuthorizationBacked | src/szl_mesh/node.py:106-193 | in every reachable state, the last classification of each authorized operation found evidence in the receipt still held |
| NodeRuns.AuthorizedIffBacked | src/szl_mesh/node.py:106-193 | and exactly those are authorized: evidence at the last classification is also enough |
| NodeRuns.AuthorizedOpsAttested | src/szl_mesh/node.py:106-193 | so each has in the ledger a verifying receipt over its id, by the key on file for an enrolled node |
| NodeRuns.CertificatesStayBound | src/szl_mesh/enrollment.py:183-221 | over any run the certificate store only grows and each id is the hash of its key |
| NodeRuns.DocumentHoldsReached | src/szl_mesh/node.py:91-193 | a document holds exactly the operations its node wrote or was handed |
| NodeRuns.Convergence | src/szl_mesh/node.py:160-193 | nodes reached by the same operations, in any order and with any receipts and verdicts, agree on observed view and heads, and on the authorized view when they authorize the same |
| Harness.MeshHarness.AddNode | src/szl_mesh/harness.py:40-47 | only a node that enrolls joins the list |
| Harness.MeshHarness.WriteBy | src/szl_mesh/harness.py:49-55 | any node, listed or not, writes; the write is logged exactly when it succeeds, and no other node changes |
| Harness.MeshHarness.PlanDeliveries | src/szl_mesh/harness.py:57-66 | every record for every node but its origin, in the order of the loops |
| Harness.MeshHarness.Gossip | src/szl_mesh/harness.py:57-71 | applies some order of exactly those deliveries |
| Harness.MeshHarness.Converged | src/szl_mesh/harness.py:73-76 | true exactly when there is a node and all nodes' views of the track have one digest |
| Harness.GossipDelivers | src/szl_mesh/harness.py:57-71 | whatever the shuffle, each node ends with what it held and everything logged |
| Harness.DeliveriesCount | src/szl_mesh/harness.py:57-66 | each record is planned once per log entry for every node but its origin |
| Harness.GossipAuthorizesIff | src/szl_mesh/harness.py:57-71 | in any order, gossip authorizes an operation at a node exactly when the node has joined and the receipt that came last with it was evidence on arrival |
| Harness.GossipUnifiesIff | src/szl_mesh/harness.py:57-71 | in any state, reached by a run or not, one round makes all nodes hold the same operations exactly when they agreed on those never logged |
| Harness.GossipConverges | src/szl_mesh/harness.py:57-76 | when all operations were logged, one round makes observed views and heads equal |
| Harness.FailedWriteStaysUnlogged | src/szl_mesh/node.py:91-117 | a write fails exactly on an unknown transition class, and either way its operation is new to, and stored with, its writer |
| HarnessRuns.RunCoherent | src/szl_mesh/harness.py:40-71 | in every run, with failed writes, revocations and writes by unlisted nodes, the failed writes are exactly what is not in the log, and each is held by its writer and by nobody else |
| HarnessRuns.GossipUnifiesIffNoneFailed | src/szl_mesh/harness.py:57-71 | after gossip in any order, two or more nodes hold the same operations exactly when no earlier write named an unknown transition class |
| HarnessRuns.GossipConverged | src/szl_mesh/harness.py:57-76 | without such a write, gossip over at least one node makes the harness report convergence of the observed track, for every digest |
| HarnessRuns.GossipAlwaysConverges | src/szl_mesh/harness.py:57-76 | and all nodes then show one observed view and one list of heads |
| HarnessRuns.FailedWriteSplitsViews | src/szl_mesh/harness.py:57-76 | after such a write to a key that nothing else writes to, gossip leaves the writer showing the key and every other node without it |
| KhipuLedger.JobReceiptLedger.Append | src/sovereign/szl_mesh_agent.py:400-454 | appends one linked receipt and changes no entry; the chain stays intact |
| KhipuLedger.JobReceiptLedger.VerifyChain | src/sovereign/szl_mesh_agent.py:456-475 | passes exactly the intact chains, and otherwise reports the first bad link and why |
| KhipuLedger.AppendIntact | src/sovereign/szl_mesh_agent.py:417-454 | an intact chain extended by an append is intact |
| KhipuLedger.EntryExact | src/sovereign/szl_mesh_agent.py:417-454 | an entry part by part: what it states, what its hash is taken over, and what its envelope signs |
| KhipuLedger.TamperEvidence | src/sovereign/szl_mesh_agent.py:84-93 | two intact chains with one head hash, whose receipts canonical JSON tells apart, hold the same receipts in the same order, or exhibit two hashed inputs with one digest |
| IdealScheme.EncodingsExist | src/sovereign/szl_mesh_agent.py:84-93 | what that asks of the two encodings can be had |
| KhipuLedger.VerificationBlindSpots | src/sovereign/szl_mesh_agent.py:465-474 | verification does not see missing tail entries, the stated previous hash, or the envelope |
| Pae.SameEncoding | src/szl_mesh/receipts.py:88-96 | the joining and the concatenating encodings are one function |
| Pae.DecodeExact | src/sovereign/szl_mesh_agent.py:102-114 | a decoder recognises exactly the encodings and inverts them |
| Pae.EncodeInjective | src/szl_mesh/_vendor/khipu_consensus/__init__.py:33-36 | no two (type, body) pairs share an encoding, for all byte strings (DSSE protocol.md, section "Signature Definition") |
| Pae.TestVector | src/szl_mesh/_vendor/khipu_consensus/__init__.py:33-36 | the encoding gives the test vector of DSSE protocol.md |
| Decimal.NoLeadingZero | src/szl_mesh/_vendor/khipu_consensus/__init__.py:33-36 | lengths are written without leading zeros |
| Relay.ChaskiRelay.IsDuplicate | src/sovereign/szl_mesh_coordinator.py:309-322 | evicts, answers, and records a first sighting |
| Relay.SeenMatchesHistory | src/sovereign/szl_mesh_coordinator.py:309-322 | the evicting table agrees with the full history on everything within the window |
| Relay.EvictionUnobservable | src/sovereign/szl_mesh_coordinator.py:309-322 | eviction never changes an answer under a clock that does not go back |
| Relay.AtMostOncePerWindow | src/sovereign/szl_mesh_coordinator.py:309-322 | two accepted calls with one id are more than the window apart |
| Relay.AcceptedIff | src/sovereign/szl_mesh_coordinator.py:309-322 | a call is let through exactly when every accepted call with its id is more than the window back, so repeats do not keep an id out |
| LayerAssignment.FillCoverage | src/sovereign/szl_mesh_coordinator.py:205-209 | the coverage array holds, for every layer, the VRAM of the nodes that serve it |
| LayerAssignment.LowestWindow | src/sovereign/szl_mesh_coordinator.py:220-229 | the sliding sum finds the leftmost of the windows with the least coverage |
| LayerAssignment.AssignLayers | src/sovereign/szl_mesh_coordinator.py:192-229 | the proportional, half-even rounded window size, and the leftmost least-covered window of that size |
| LayerAssignment.AssignmentUnique | src/sovereign/szl_mesh_coordinator.py:192-229 | the assignment is determined by the nodes and lies within the model |
| LayerAssignment.ProportionalShare | src/sovereign/szl_mesh_coordinator.py:205-217 | the size is the nearest number to the share of layers by VRAM, an even one at a tie, at least 1 and at most the model, said with products |
| LayerAssignment.MoreVramMoreLayers | src/sovereign/szl_mesh_coordinator.py:205-217 | a node with at least as much VRAM never gets fewer layers |
| LayerAssignment.NodesAddUp | src/sovereign/szl_mesh_coordinator.py:205-209 | totals and coverage add up over the nodes, each counting once where it serves |
| LayerAssignment.LayersAddUp | src/sovereign/szl_mesh_coordinator.py:220-229 | the coverage of a window adds up over its layers |
| LayerAssignment.FirstNodeSpansModel | src/sovereign/szl_mesh_coordinator.py:205-217 | the first node is given the whole model |
| PipelinePlan.MakePlan | src/sovereign/szl_mesh_coordinator.py:657-691 | the walk yields a greedy plan that stops only at the end of the model or at a layer no node serves; the guard never cuts it short |
| PipelinePlan.CoveredExactly | src/sovereign/szl_mesh_coordinator.py:673-691 | covered exactly when some UP tile serves every layer; otherwise the stages serve every layer up to one that nobody serves |
| PipelinePlan.EndsIncrease | src/sovereign/szl_mesh_coordinator.py:673-691 | stage ends strictly increase |
| PipelinePlan.GreedyOptimal | src/sovereign/szl_mesh_coordinator.py:673-691 | no set of UP tiles with fewer members covers the model |
| PipelinePlan.GreedyStaysAhead | src/sovereign/szl_mesh_coordinator.py:673-691 | after as many stages, the greedy cursor is at least as far as any other chain's |
| PipelinePlan.PlansAgree | src/sovereign/szl_mesh_coordinator.py:668-691 | the ranges walked depend on the ranges offered, not on the join order |
| LeastConnections.PickLeastLoaded | src/sovereign/szl_mesh_coordinator.py:163-185 | somebody is picked exactly when somebody is UP; the pick is UP with the fewest connections |
| LeastConnections.PickDeterministic | src/sovereign/szl_mesh_coordinator.py:137-185 | same request, same candidates in any order, same pick, whatever the generator |
| LeastConnections.PickExact | src/sovereign/szl_mesh_coordinator.py:137-185 | the generator is asked once, for the request and the sorted ids of the least loaded, and the pick is where it lands |
| LeastConnections.ServingKeepsBalance | src/sovereign/szl_mesh_coordinator.py:176-185 | serving a least-loaded member keeps counts within one of each other |
| LeastConnections.BalancedShares | src/sovereign/szl_mesh_coordinator.py:176-185 | balanced counts that sum to N over m members are even shares |
| LeastConnections.EvenShareIff | src/sovereign/szl_mesh_coordinator.py:176-185 | an even share is N / m rounded down or up |
| Coordinator.MeshCoordinator.JoinNode | src/sovereign/szl_mesh_coordinator.py:414-447 | the tile, the order, the reset counters: the whole new state, re-joins included |
| Coordinator.MeshCoordinator.ReceiveHeartbeat | src/sovereign/szl_mesh_coordinator.py:453-467 | accepts exactly a valid, unexpired, unrevoked token for this id, and brings its tile up |
| Coordinator.MeshCoordinator.EvictStaleTiles | src/sovereign/szl_mesh_coordinator.py:469-489 | marks exactly the stale tiles down and lists them in order |
| Coordinator.MeshCoordinator.RevokeNode | src/sovereign/szl_mesh_coordinator.py:495-506 | revokes and marks down |
| Coordinator.MeshCoordinator.JobComplete | src/sovereign/szl_mesh_coordinator.py:840-846 | one connection less, never below zero |
| Coordinator.MeshCoordinator.DispatchRequest | src/sovereign/szl_mesh_coordinator.py:515-651 | the whole new state and outcome of a dispatch, on all four paths |
| Coordinator.MeshCoordinator.RunPipeline | src/sovereign/szl_mesh_coordinator.py:693-838 | one plan, then the bounded loop of dispatches over it |
| Coordinator.PickIsTile | src/sovereign/szl_mesh_coordinator.py:581-610 | the selected tile is UP and has the fewest connections of those UP |
| PipelineExits.DispatchedIff | src/sovereign/szl_mesh_coordinator.py:515-651 | dispatched exactly when the relay has forgotten the id, the gate passes and a node is UP; only then is there a receipt, for that id |
| PipelineExits.GateExact | src/sovereign/szl_mesh_agent.py:305-334 | the gate judges the score stated, or without one whether there are an id and a model |
| PipelineExits.OutcomeExact | src/sovereign/szl_mesh_coordinator.py:537-598 | which of the four outcomes a dispatch has, and that a degraded one names all nodes on file, in join order |
| PipelineExits.DispatchedExactly | src/sovereign/szl_mesh_coordinator.py:600-625 | what a dispatched request changes: one job, connection and credit at the picked node, one receipt, nothing else |
| PipelineExits.DispatchedYields | src/sovereign/szl_mesh_coordinator.py:600-651 | what it yields: its id, score, node, host fields, and the routing receipt field by field |
| PipelineExits.Exits | src/sovereign/szl_mesh_coordinator.py:728-803 | every exit at once: how many stages are dispatched, the exit, the steps, and one receipt per dispatched stage in stage order |
| PipelineExits.ConvergedIff | src/sovereign/szl_mesh_coordinator.py:728-803 | converged exactly when the plan is non-empty, covering and within budget, the gate passes, and no stage id is still remembered at its turn |
| PipelineExits.BudgetExhaustedIff | src/sovereign/szl_mesh_coordinator.py:728-803 | budget exhausted exactly when the plan is longer and every stage within the budget goes well |
| PipelineExits.StepsBounded | src/sovereign/szl_mesh_coordinator.py:728-780 | steps never exceed budget or plan; there is one result per step |
| PipelineExits.StageIdsDiffer | src/sovereign/szl_mesh_coordinator.py:766-767 | the stages of one pipeline have distinct request ids |
| PipelineExits.ResultsTell | src/sovereign/szl_mesh_coordinator.py:735-803 | one result per step, each under its own stage id; only the last can be other than dispatched, and then the exit says so |
| Coordinator.BudgetExact | src/sovereign/szl_mesh_coordinator.py:116-130 | the budget by cases: the caller's limit if usable, else the setting if usable, else 8, never above 1024 |
| PipelineExits.PipelineConvergesIff | src/sovereign/szl_mesh_coordinator.py:693-803 | for the pipeline as called: with a limit m, or a setting m, or neither and m = 8, it converges exactly when the plan is non-empty, covering, of at most m stages, and all of them are free |
| CoordinatorRuns.PipelineIsRun | src/sovereign/szl_mesh_coordinator.py:728-803 | a pipeline is the run of its stages' dispatches, so all run properties cover it |
| PipelineExits.DispatchServes | src/sovereign/szl_mesh_coordinator.py:592-651 | a dispatched request adds one connection, one job, one credit and one linked receipt, at an UP node with the fewest connections, whose host fields it returns; any other leaves all but the relay as it was |
| CoordinatorRuns.Conservation | src/sovereign/szl_mesh_coordinator.py:414-625 | over every run from an empty coordinator: receipts are the jobs on record and those that joins wiped, credits add up to jobs, open connections lie within jobs, the ledger verifies |
| CoordinatorRuns.BalancedIff | src/sovereign/szl_mesh_coordinator.py:414-625 | so receipts equal jobs, and credits, exactly when no join replaced a tile that had done jobs |
| CoordinatorRuns.JoinKeepsBooksIff | src/sovereign/szl_mesh_coordinator.py:414-447 | a join keeps the books exactly when the node is new or has done no job |
| CoordinatorRuns.JoinKeepsRevokedDownIff | src/sovereign/szl_mesh_coordinator.py:414-447 | a join keeps revoked nodes down exactly when the joining node is not revoked |
| CoordinatorRuns.AlwaysRevokedDownIff | src/sovereign/szl_mesh_coordinator.py:414-506 | throughout a run revoked nodes are down exactly when none of them joins again |
| CoordinatorRuns.RevokeTakesOut | src/sovereign/szl_mesh_coordinator.py:495-506 | a revocation takes the node out of use |
| CoordinatorRuns.RevokedNeverSelected | src/sovereign/szl_mesh_coordinator.py:495-610 | and it is not selected until it joins again, whatever else happens |
| CoordinatorRuns.SameHeadSameReceipts | src/sovereign/szl_mesh_agent.py:84-93 | runs whose ledgers end in one hash hold the same receipts, under the same proviso, or a collision is exhibited |
| DispatchRuns.AtMostOncePerWindow | src/sovereign/szl_mesh_coordinator.py:537-542 | two dispatches of one id in any run are more than the window apart |
| Liveness.UpIff | src/sovereign/szl_mesh_coordinator.py:414-506 | over every run, a node is up exactly when since its last join or counted heartbeat it was not revoked and no eviction ran more than 90 seconds after it |
| Liveness.OpenJobs | src/sovereign/szl_mesh_coordinator.py:600-625 | over every run without a re-join, open jobs are those given less those completed while one was open |
| DispatchRuns.ReceiptsFarApart | src/sovereign/szl_mesh_coordinator.py:537-620 | so are the dispatches behind two receipts for one id |
| DispatchRuns.ReceiptSource | src/sovereign/szl_mesh_coordinator.py:612-620 | every receipt was appended by a dispatch of the request it names |
| DispatchRuns.FairShares | src/sovereign/szl_mesh_coordinator.py:600-610 | while the same m nodes are UP and no job completes, n dispatches give each n / m jobs rounded down or up, whatever the tie-break |
| DispatchRuns.FullSpanPlan | src/sovereign/szl_mesh_coordinator.py:679-691 | an UP tile that spans the model makes every plan one covering stage |
| DispatchRuns.FirstNodePlan | src/sovereign/szl_mesh_coordinator.py:419-441 | which holds as long as the first node to join stays UP and does not join again |
| Quorum.Tally | src/szl_mesh/_vendor/khipu_consensus/__init__.py:138-161 | checks every item on its own and counts the checks that count |
| Quorum.VerifyQuorum | src/szl_mesh/quorum.py:289-393 | refuses bad policies, fails closed on inadmissible certificates, and otherwise counts exactly the trusted organs with a supporting record |
| Quorum.AdmissibleIff | src/szl_mesh/quorum.py:323-359 | which certificates are admissible, by the form in which they are submitted |
| Quorum.CheckExact | src/szl_mesh/_vendor/khipu_consensus/__init__.py:111-161 | what a check reports: valid exactly when the record proves a claim under the organ's key, and what it then says |
| Quorum.ObjectSupports | src/szl_mesh/quorum.py:152-163 | in a certificate object `signature` comes before `sig` |
| Quorum.SubmittedRecords | src/szl_mesh/quorum.py:323-363 | which hash and which records a submission is checked for, form by form |
| Quorum.CheckedInTurn | src/szl_mesh/quorum.py:361-383 | every record that is there is checked once, in order |
| Quorum.CountingAreSupporters | src/szl_mesh/quorum.py:361-393 | the organs counted are exactly those with at least one record verifying under their own key as allow over the hash |
| Quorum.SupportMonotone | src/szl_mesh/quorum.py:361-393 | more records never lose an organ; order and replays change nothing |
| Quorum.JunkChangesNothing | src/szl_mesh/quorum.py:361-393 | records that support nobody, wherever they stand, change nothing |
| Quorum.CountAtMostTally | src/szl_mesh/quorum.py:376-383 | the verified count never exceeds the engine's raw count |
| Proposal.ProposeAction | src/szl_mesh/quorum.py:177-250 | one signed record per organ with a key, tallied under the matching public keys |
| Proposal.RecordStates | src/szl_mesh/_vendor/khipu_consensus/__init__.py:73-110 | a record field by field: the statement signed, the reason by verdict, the key id, and no `sig` |
| Proposal.CollectedInTurn | src/szl_mesh/quorum.py:177-216 | each organ in turn adds its record if it has a key |
| Proposal.RenameKeepsChecks | src/szl_mesh/quorum.py:152-163 | the to_dict rename changes no check |
| Proposal.ProposedIffVerified | src/szl_mesh/quorum.py:218-249 | with distinct organs, proposal and verification count the same, whatever the signature scheme |
| Proposal.AgreeIff | src/szl_mesh/quorum.py:218-249 | with repeated organs they disagree exactly when the threshold lies above the voters and within the votes |
| Proposal.RepeatedOrganDisagrees | src/szl_mesh/quorum.py:218-249 | one organ listed three times is proposed as canonical 3-of-4 and does not verify |
| QuorumSafety.QuorumSafety | src/szl_mesh/quorum.py:323-393 | with at most n trusted organs holding distinct keys and fewer than 2t - n Byzantine, conflicting actions do not both gather a quorum |
| QuorumSafety.NoConflictingCertificates | src/szl_mesh/quorum.py:323-393 | so no two admissible certificates for them are both canonical |
| QuorumSafety.DefaultPolicyToleratesOne | src/szl_mesh/quorum.py:88-90 | 3-of-4 tolerates one Byzantine key |
| QuorumSafety.SupporterSigned | src/szl_mesh/_vendor/khipu_consensus/__init__.py:111-135 | what verified for an honest key is the statement that key signed, because the encoding has one reading |
| QuorumSafety.UnsafeBeyond | src/szl_mesh/quorum.py:177-393 | under every correct signature scheme, n organs with keys of their own and 2t - n of them Byzantine can make two proposals of conflicting actions that both verify |
| QuorumSafety.SafeIff | src/szl_mesh/quorum.py:323-393 | so under every such scheme a policy is safe exactly against fewer than 2t - n Byzantine keys |
| QuorumSafety.ProposalUnforged | src/szl_mesh/quorum.py:177-216 | a proposal's records verify only under their signers' own keys and only for what those signed |
| IdealScheme.IdealCorrect | src/szl_mesh/_vendor/khipu_consensus/__init__.py:73-135 | a scheme correct in this sense exists |
| IdealScheme.IdealFormation | src/szl_mesh/_vendor/khipu_consensus/__init__.py:73-135 | and any organs with different private keys form a formation under it |
| VectorClocks.CompareExact | mesh_command/app.py:121-131 | the comparison decides the pointwise order, an absent entry reading as 0 |
| VectorClocks.BelowExact | mesh_command/app.py:121-131 | that order name by name |
| VectorClocks.MergeClocks | mesh_command/app.py:134-139 | the loops compute the pointwise maximum |
| VectorClocks.LeastUpperBound | mesh_command/app.py:134-139 | the merged clock is the least upper bound |
| VectorClocks.MergedInGroups | mesh_command/app.py:134-139 | merging clocks in groups and then together is merging at once |
| SnapshotMerge.GroupByKey | mesh_command/app.py:154-157 | groups hold exactly the candidates for their keys, in node order |
| SnapshotMerge.CompareAll | mesh_command/app.py:183-193 | one relation for every pair of snapshots, the earlier node on the left |
| SnapshotMerge.SelectAll | mesh_command/app.py:159-182 | the selected registers and the conflicts, key by key in order |
| SnapshotMerge.MergeSnapshots | mesh_command/app.py:148-207 | the whole output body |
| MergeLaws.OrderIrrelevant | mesh_command/app.py:148-207 | the body is the same for every order of the snapshots |
| MergeLaws.WinnerExact | mesh_command/app.py:142-163 | the winner is the one candidate that none beats and that comes from the least node among its equals |
| MergeLaws.LastWriterWins | mesh_command/app.py:142-182 | in the fields of the request: a register is in the output exactly when a node holds it, it is wanted, and every other node's register of its key has an earlier time, or then a lesser writer, digest or tombstone mark, or is equal in these and from a greater node |
| MergeLaws.RegistersExact | mesh_command/app.py:163-182 | a register is in the output exactly when it is selected, tombstones only on request |
| MergeLaws.ConflictsExact | mesh_command/app.py:164-175 | a conflict is reported exactly for the keys under which two registers have different digests, with the sorted nodes that hold the key, their number, and the selected node and writer |
| MergeLaws.RelationsExact | mesh_command/app.py:183-193 | the relations are exactly those of each pair of snapshots, the lesser node on the left, and as many as there are pairs |
| MergeLaws.OutputArranged | mesh_command/app.py:195-207 | nodes, registers and conflicts come in ascending order, and the clock is the least that no snapshot exceeds |
| MergeLaws.TwoRounds | mesh_command/app.py:148-182 | merging in rounds, tombstones included, selects the same register contents, or two values share a digest |
| MergeLaws.TwoRoundsClock | mesh_command/app.py:134-139 | and gives the same merged clock |

## Left out

- Concurrency: every method is one atomic step. `dispatch` takes its lock three times, so the coordinator theorems speak of sequential calls.
- Floating point: VRAM, coverage, scores, credits and times are exact numbers.
- Cryptography, SHA-256, HMAC, DER and PEM, base64, UTF-8 and JSON: function parameters, with correctness or injectivity as explicit hypotheses where a property needs it. A signature is a function of key and message; ECDSA's random nonce is not modelled. `Receipts.Statement` and `Quorum.Claim` hold the fields the code reads.
- Ill-typed fields: a missing or null field is modelled, and told apart where the code does (`payloadType`); a field of another type is not. In particular an unhashable `organ` in a quorum record, which makes `pubkeys.get` raise, is not part of this model.
- Text and size validation of requests (`_bounded_text`, patterns, maximum lengths and record counts): only the conditions the algorithms rely on are kept. Values are immutable canonical texts, so copying is not modelled.
- `PipelineExits.ConvergedIff`: the "error" exit is not modelled, because no step of the loop raises on well-typed requests.
- `PipelineExits.Exits`: assumes that the clock does not go back between stages, as do the once-per-window results of `Relay` and `DispatchRuns`.
- `PipelinePlan.MakePlan`: among tiles with the same range the walk takes the one that joined first; the theorems speak of the ranges walked, not of which such tile is named.
- `Lab.NormalizeOperations`: `_bounded_text`, row shapes and record limits are not part of acceptance; a row is clean when the fields the algorithm reads are.
- `Coordinator.MeshCoordinator.DispatchRequest`: yields the decision, node, host fields, receipt and state; labels and trace lines are left out.
- `Coordinator.MeshCoordinator.RunPipeline`: yields exit, steps, outcomes and state; the trace and the messages are left out.
- `Quorum.Tally`: the reason texts of checks are not modelled.
- `Quorum.VerifyQuorum`: the reason texts of checks are not modelled.
- `Proposal.ProposeAction`: takes the action hash; deriving it from an action (`quorum.py:99-122`) is text normalisation and hashing.
- `SnapshotMerge.MergeSnapshots`: yields the body; the constant fields and the digests in its receipt are left out.
- `Lab.SimulateScenario`: yields the snapshots, ids, counts and checks; constant and descriptive report fields are left out.
- `HarnessRuns.RunCoherent`: a node outside the harness enrolls with the harness's gateway and writes to its document; nodes of other gateways or documents are not part of a run.
- `NodeRuns.Convergence`: assumes that distinct operations of the run have distinct ids; nodes share one gateway.
- `QuorumSafety.QuorumSafety`: is conditional. It assumes distinct keys, at most n trusted organs, and that what verifies under an honest key was signed with it; the code checks none of these.
- Reasons and log lines (`down_reason`, traces, labels, warnings).
- `CorroborationLedger`, `combined_classification`, the `KhipuBFT` stub: thin, and their window is not enforced in the code.
- `MeshNodeAgent` and `NodeRegistry`: compositions of the token check, the gate and the ledger, which are modelled in the coordinator; they would add only easy members.
- `MeshNode.verify_ledger` (`node.py:205`), which counts the receipts whose signatures verify, and `MeshHarness.digests`: thin.
- `spine.py`, `demo.py`, the web surfaces (`lab/app.py`, the routes of `mesh_command/app.py`, `src/sovereign/api.py`), threads and persistence.
- Features that only documents describe (skip-layer routing, a revocation CRDT, metrics).
