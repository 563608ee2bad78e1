# ethlambda consensus core in Dafny

A model of the consensus logic of ethlambda, a Lean Ethereum client, and proofs about it. `dafny verify dfyconfig.toml`
checks the whole project.

| file | models |
|---|---|
| `Types` | containers, roots, the hash as a parameter |
| `Justifiability`, `JustifiedSlots`, `VoteMatrix` | the 3SF-mini schedule, the justified-slots bit window, the flattened pending votes |
| `Transition` | the state transition as functions on values |
| `Machine` | the same transition on a mutable state object, proved equal to `Transition` |
| `Bookkeeping`, `Runs`, `Quorum`, `TransitionRules` | what a block keeps true, what holds over whole chains, who voted for what, the rules of 3SF-mini in absolute terms |
| `ForkChoice` | LMD-GHOST weights and head, the safe target |
| `LiveChain`, `Payloads` | the live-chain key codec and its pruning, the payload buffers and latest-vote extraction |
| `Store`, `StoreSafety`, `StoreRules`, `FastForward`, `Attesting` | the fork-choice store as a value, its invariant over all runs, what each handler does field by field, ticking, attestation targets |
| `StoreMachine` | the store as a mutable object, proved against `Store` |
| `ProofSelection`, `BlockBuilder`, `Aggregation`, `Proposing` | grouping votes, the greedy proof cover, the fixed-point block builder, aggregation of single signatures, block production from a store |
| `Cascade`, `Delivery`, `Server` | blocks that arrive before their parents: indices and queue, sequences of arrivals, the handler |
| `Replicas` | stores of one chain that received different blocks |

## What is proved

- **Chains.** Every run of accepted blocks keeps the redundant state consistent (`Runs.RunKeepsInv`), never reverts
  finality (`Runs.FinalityNeverReverts`), and justifies exactly what two thirds voted for (`Quorum.JustifiedIffQuorum`);
  two conflicting justifications need a third of the validators on both sides (`Quorum.ConflictNeedsEquivocation`).
  Each attestation of each block follows one rule (`TransitionRules.RunFollowsRule`): which votes count, when a target is
  justified, and that finality advances exactly when source and target are neighbours in the schedule.
  A block is refused for its header or its state root only (`Bookkeeping.AppliesIffAdmissible`).
- **Store.** Every run of blocks, ticks and gossip keeps head, checkpoints and live index in order
  (`StoreSafety.StoreSafe`), and every input has exactly the stated effect (`StoreRules.InputRule`); what a node attests
  to is the stated target (`Attesting.TargetRule`) and valid by its own rules (`Attesting.ProducedIsValid`); the safe
  target lies on the head's path (`ForkChoice.SafeTargetOnHeadPath`); catching up by a jump equals replaying
  (`FastForward.FastForwardIsReplay`).
- **Blocks.** A block comes out of production exactly when it is the validator's turn and the slot is in range, and the
  store that produced it imports it (`Proposing.ProduceBlock`).
- **Cascade.** The states a server ends with are those of the accepted blocks with accepted ancestry (`Server.ImportAll`),
  and the order of arrival is irrelevant except in one case: a badly signed copy of an importable block whose parent is not
  an anchor. While the parent is missing the bad copy overwrites the good one, and the block is lost
  (`Delivery.OrderIrrelevantIffUncontested`, `Delivery.BadCopyLosesBlock`). A block that has to wait leads to a request for
  what is missing, except behind a rejected copy: that copy is tried again each time, and nothing is asked for
  (`Delivery.SilentIffRejected`).
- **Replicas.** Stores of one chain agree on every state they share, so they agree on every block
  (`Replicas.OutcomesAgree`), and what a server ends with is such a store (`Replicas.CascadeIsAStore`).

Some promises hold under a condition, and the condition is exact. The justifiability test follows its documented schedule
up to distance 2^62 and misses the pronic distances beyond (`Justifiability.ScheduleExact`,
`Justifiability.ScheduleMissesLargePronic`); no slot of a chain is that far out (`Bookkeeping.TestFollowsSchedule`). The
latest vote of a validator depends on the visiting order of a hash map exactly when it has two different votes of its
highest slot (`Payloads.OrderIrrelevantIffNoTopTies`, `Payloads.TiesAreAmbiguous`). The votes of a built block are a fixed
point of the last candidate; of the block itself only under the condition of `BlockBuilder.FixedPointForIff`, because the
order of attestations decides what a body justifies (`BlockBuilder.BodyOrderDecides`).

Where prose and code disagree the code is modelled. The finalization check uses the current finalized slot
(`crates/blockchain/state_transition/src/lib.rs:402-403`), not the one at the start of the block as
`docs/3sf_mini.md:161` says. A slot has five intervals (`crates/blockchain/src/lib.rs:35`), not four as
`docs/lmd_ghost.md:621` says.

## Assumptions

- Hashing is a parameter. `CollisionFree`: header roots are injective and nonzero, state roots nonzero. Where votes are
  identified by the root of their data, `DataRootsDistinct`: those roots are injective too. For `Replicas`,
  `BodyRootsDistinct`: body roots are injective. A block's root is its header's root.
- A `Root` is a number whose order is the byte order of the 32-byte root. Slots are unbounded numbers; the 64-bit bound
  is written out where the code depends on it (`4 * delta + 1`, the key codec), and the history limit bounds slots elsewhere.
- The answers of the signature library and the wall clock are parameters; hash-map and hash-set iteration is any order.
- A store starts from an anchor state within the state invariant. Genesis is one (`Runs.GenesisInv`), and every state a
  run reaches is one.
- The cascade takes `depth` as a witness that parent roots do not form a cycle, and the outcome of importing a block
  whose parent state is there as a function of the block (`Replicas.StoreDecidesAcceptance` gives that function).

## Model

| member | source | states |
|---|---|---|
| `Runs.RunKeepsInv` | crates/blockchain/state_transition/src/lib.rs:44-110 | in every state of every run of accepted blocks the bookkeeping invariant holds: history length is the header's slot, window length is history length - 1 - finalized slot, every pending root is nonzero, below quorum and sits at an unjustified slot above the boundary, the stored votes are sorted and rectangular |
| `Runs.FinalityNeverReverts` | crates/blockchain/state_transition/src/lib.rs:346-442 | between any two states of a run the finalized slot does not decrease, finalized <= justified slot, the earlier finalized block is on the later chain, history only grows, no slot loses its justification |
| `Runs.RunExtends` | crates/blockchain/state_transition/src/lib.rs:113-202 | any later state of a run extends any earlier one: same validators, longer history, finality on the same chain |
| `Runs.HistoryIsAncestorIndex` | crates/blockchain/state_transition/src/lib.rs:149-181 | after any run from a fresh state the history holds exactly the genesis root and the root of every block but the last, each at its slot, and zero elsewhere; the tip is the last block |
| `Runs.GenesisInv` | crates/common/types/src/state.rs:91-118 | the genesis state is within the invariant, for every validator list including the empty one |
| `Quorum.JustifiedIffQuorum` | crates/blockchain/state_transition/src/lib.rs:272-330 | in every state of every run a block above the finality boundary is justified if and only if at least two thirds of the validators have a counted vote for it |
| `Quorum.QuorumSound` | crates/blockchain/state_transition/src/lib.rs:305-328 | every justified block of a run, also the finalized and the latest justified one, has the counted votes of two thirds of the validators |
| `Quorum.CountedVotesWereCast` | crates/blockchain/state_transition/src/lib.rs:272-303 | a counted vote is a set bit of an attestation for that target in a block of the run |
| `Quorum.ConflictNeedsEquivocation` | crates/blockchain/state_transition/src/lib.rs:243-330 | if two runs over equally many validators justify different blocks at one slot, at least a third of the registered validators have a counted vote for both, each a set bit in a block of its run |
| `Quorum.AttestationExact` | crates/blockchain/state_transition/src/lib.rs:272-330 | one attestation keeps state, tallies and ledger of counted votes in agreement: the tally of an unjustified block is exactly its voters, a justified one has a quorum |
| `Quorum.RunExact` | crates/blockchain/state_transition/src/lib.rs:228-335 | that agreement holds after every block of a run |
| `Quorum.UnjustifiedTally` | crates/blockchain/state_transition/src/lib.rs:305-330 | in a settled state no stored tally reaches two thirds |
| `TransitionRules.ValidIffCounts` | crates/blockchain/state_transition/src/lib.rs:346-385 | a vote passes the checks if and only if it goes from a justified block of the chain to a later, not yet justified one whose slot is scheduled after the finalized slot |
| `TransitionRules.UnscheduledIsIgnored` | crates/blockchain/state_transition/src/lib.rs:346-385 | an attestation whose target is not scheduled changes nothing |
| `TransitionRules.QuorumRule` | crates/blockchain/state_transition/src/lib.rs:305-328 | with a quorum the target becomes the latest justified, exactly its slot is marked, and finality advances to the source if and only if no slot strictly between is scheduled; tallies above the boundary stay |
| `TransitionRules.AttestationRule` | crates/blockchain/state_transition/src/lib.rs:272-330 | the whole rule for one attestation: ignored, too long, recorded or justifying |
| `TransitionRules.RunFollowsRule` | crates/blockchain/state_transition/src/lib.rs:272-330 | in every run each attestation of each block follows the rule, from the parent's boundary to the block's own |
| `TransitionRules.NewlyJustifiedWasScheduled` | crates/blockchain/state_transition/src/lib.rs:272-330 | in every run a slot that a block newly justifies above its boundary was the target of a counted quorum in that block and scheduled after what was finalized at that moment |
| `TransitionRules.SevenIsUnscheduled` | crates/blockchain/state_transition/src/lib.rs:501-525 | slot 7 after finalized slot 0 is not scheduled |
| `BlockBuilder.FinalizedHere` | crates/blockchain/state_transition/src/lib.rs:394-411 | a concrete state and two votes that finalize the block the first one justified |
| `Bookkeeping.AppliesIffAdmissible` | crates/blockchain/state_transition/src/lib.rs:44-202 | within the invariant a block applies if and only if its slot is ahead of the state and within the history limit, the proposer is the slot's, and the parent is the tip: no attestation can make it fail |
| `Bookkeeping.BlockKeepsInv` | crates/blockchain/state_transition/src/lib.rs:44-110 | an applied block leaves a settled state that extends the one before, with its own slot, header and exactly the gap's zeros in the history |
| `Bookkeeping.HeaderSound` | crates/blockchain/state_transition/src/lib.rs:113-202 | a valid header leaves a sound starting point for attestations: window and history of matching length, every justification answer unchanged, pending tallies carried over |
| `Bookkeeping.AttestationSound` | crates/blockchain/state_transition/src/lib.rs:272-330 | one attestation keeps the bookkeeping; a newly finalized checkpoint is its source and was justified before; only its target can become newly justified above the boundary |
| `Bookkeeping.AttestationsSound` | crates/blockchain/state_transition/src/lib.rs:228-335 | attestation processing of a sound state never fails and ends in a sound, re-encoded state that only advances |
| `Bookkeeping.JustifySound` | crates/blockchain/state_transition/src/lib.rs:307-326 | `set_justified` is in bounds, adds exactly the target slot, and removing the tally keeps all others pending |
| `Bookkeeping.ShiftSound` | crates/blockchain/state_transition/src/lib.rs:424-426 | moving the boundary to a justified source keeps the window length and turns justified-at into (justified before or at or below the source) |
| `Bookkeeping.FinalizeSound` | crates/blockchain/state_transition/src/lib.rs:394-442 | finalization keeps soundness, moves the boundary only strictly forward, and keeps every tally above it |
| `Bookkeeping.NoBackwardFinality` | crates/blockchain/state_transition/src/lib.rs:402-425 | whenever finalization is not blocked the old boundary is at or below the source, so the slot subtraction cannot underflow although sources below the boundary are accepted |
| `Bookkeeping.PendingIsIndexed` | crates/blockchain/state_transition/src/lib.rs:258-271 | the root index knows every pending root at its slot |
| `Bookkeeping.TalliesIndexed` | crates/blockchain/state_transition/src/lib.rs:427-441 | the branch for a root missing from the index is never taken while pruning |
| `Bookkeeping.PendingSlotUnique` | crates/blockchain/state_transition/src/lib.rs:258-271 | a pending root sits at one slot only |
| `Bookkeeping.ZeroHashNeverFires` | crates/blockchain/state_transition/src/lib.rs:233-240 | within the invariant the zero-hash error is never returned |
| `Bookkeeping.CapacitiesBounded` | crates/blockchain/state_transition/src/lib.rs:159-193 | the history guard also bounds the window and the vote matrix |
| `Bookkeeping.GapGuardIsSlotBound` | crates/blockchain/state_transition/src/lib.rs:159-172 | within the invariant the sum compared by the gap guard is the block's own slot |
| `Transition.SlotJumpIsLoop` | crates/blockchain/state_transition/src/lib.rs:72-100 | the direct slot jump equals the slot-by-slot loop for every state and later slot, given nonzero state hashes |
| `Transition.StateRootUnread` | crates/blockchain/state_transition/src/lib.rs:44-70 | changing a block's state root does not change the result of processing it |
| `Machine.ConsensusState.StateTransition` | crates/blockchain/state_transition/src/lib.rs:44-70 | the in-place transition equals the function the run theorems are about and keeps the invariant; on each error the exact state it leaves |
| `Machine.ConsensusState.ProcessSlots` | crates/blockchain/state_transition/src/lib.rs:84-100 | as the function; unchanged on error |
| `Machine.ConsensusState.ProcessBlock` | crates/blockchain/state_transition/src/lib.rs:103-110 | as the function; on an error the state is as after the failing header check |
| `Machine.ConsensusState.ProcessBlockHeader` | crates/blockchain/state_transition/src/lib.rs:113-202 | as the function; on a gap error only the genesis roots were set, on any other error nothing |
| `Machine.ConsensusState.ValidateHeader` | crates/blockchain/state_transition/src/lib.rs:116-147 | no error exactly when slot, parent slot, proposer and parent root are right; otherwise the first failing check's error |
| `Machine.ConsensusState.ProcessAttestations` | crates/blockchain/state_transition/src/lib.rs:228-335 | as the function; unchanged on error |
| `Machine.ConsensusState.AccumulateVotes` | crates/blockchain/state_transition/src/lib.rs:241-335 | decode, apply in block order, encode: the packed result of folding the attestations over the decoded votes |
| `Machine.ConsensusState.SerializeJustifications` | crates/blockchain/state_transition/src/lib.rs:448-476 | the votes go back sorted by root and flattened: the packed progress, everything else unchanged |
| `Machine.ConsensusState.ApplyAll` | crates/blockchain/state_transition/src/lib.rs:272-330 | the fold over all attestations, with every tally of validator-count length |
| `Machine.ConsensusState.ApplyAttestation` | crates/blockchain/state_transition/src/lib.rs:272-330 | one attestation as the function: invalid, too long, below quorum, justifying |
| `Machine.ConsensusState.TryFinalize` | crates/blockchain/state_transition/src/lib.rs:394-442 | as the function, with no underflow and no unknown root |
| `Machine.ConsensusState.MoveBoundary` | crates/blockchain/state_transition/src/lib.rs:409-441 | new boundary, shifted window, exactly the tallies above the boundary |
| `Machine.AnyJustifiable` | crates/blockchain/state_transition/src/lib.rs:402-404 | true exactly when some slot strictly between is justifiable |
| `Machine.MarkVotes` | crates/blockchain/state_transition/src/lib.rs:296-303 | sets exactly the bits of the aggregation, all in range |
| `Machine.IndexHistory` | crates/blockchain/state_transition/src/lib.rs:262-270 | the latest slot of every root after the boundary |
| `JustifiedSlots.ExtendKeepsSlots` | crates/blockchain/state_transition/src/justified_slots_ops.rs:34-47 | extending changes no slot's answer and makes the target settable |
| `JustifiedSlots.SetAddsOneSlot` | crates/blockchain/state_transition/src/justified_slots_ops.rs:26-30 | setting adds exactly one slot to the absolute set |
| `JustifiedSlots.ShiftMovesBoundary` | crates/blockchain/state_transition/src/justified_slots_ops.rs:50-67 | for every slot: justified after shifting by delta with the boundary moved by delta, if and only if justified before or at or below the new boundary |
| `JustifiedSlots.ShiftWindow` | crates/blockchain/state_transition/src/justified_slots_ops.rs:50-67 | the bit-by-bit copy is the suffix of the window, and the identity for delta 0 |
| `VoteMatrix.DecodeAfterEncode` | crates/blockchain/state_transition/src/lib.rs:243-256 | decoding the sorted flattened form of any rectangular vote map returns the map |
| `VoteMatrix.EncodeAfterDecode` | crates/blockchain/state_transition/src/lib.rs:448-476 | encoding what was decoded from a sorted rectangular form returns that form |
| `VoteMatrix.ListingUnique` | crates/blockchain/state_transition/src/lib.rs:448-476 | a set of roots has one ascending listing, so equal maps encode identically whatever the iteration order |
| `VoteMatrix.EncodeTallies` | crates/blockchain/state_transition/src/lib.rs:448-476 | the loops produce the ascending listing and its flattened votes |
| `VoteMatrix.DecodeTallies` | crates/blockchain/state_transition/src/lib.rs:243-256 | the loop decodes row i to root i |
| `VoteMatrix.SortKeys` | crates/blockchain/state_transition/src/lib.rs:454-456 | the ascending listing of the keys |
| `VoteMatrix.CountIsCardinality` | crates/blockchain/state_transition/src/lib.rs:305-307 | the vote count is the number of distinct validators |
| `Justifiability.ScheduleExact` | crates/blockchain/state_transition/src/lib.rs:501-525 | for every 64-bit distance the test agrees with the documented schedule if and only if the distance is below 2^62 or not pronic |
| `Bookkeeping.TestFollowsSchedule` | crates/blockchain/state_transition/src/lib.rs:346-410 | in every state of a chain the test agrees with the documented schedule for every slot up to the latest block's |
| `Justifiability.ScheduleWithinHistory` | crates/blockchain/state_transition/src/lib.rs:501-525 | for slots within the history limit the test is the documented schedule |
| `Justifiability.ScheduleMissesLargePronic` | crates/blockchain/state_transition/src/lib.rs:515-524 | a pronic distance above 2^62 that the code rejects |
| `Justifiability.NothingBetween` | crates/blockchain/state_transition/src/lib.rs:501-525 | above 5 nothing strictly between n^2 and n(n+1), or n(n+1) and (n+1)^2, is justifiable |
| `Justifiability.NextJustifiable` | crates/blockchain/state_transition/src/lib.rs:501-525 | from any distance d a justifiable one is at most isqrt(d)+1 ahead, while below 2^62 |
| `Justifiability.PronicTest` | crates/blockchain/state_transition/src/lib.rs:515-524 | 4d+1 is a perfect square exactly for pronic d |
| `ForkChoice.ComputeBlockWeights` | crates/blockchain/fork_choice/src/lib.rs:9-27 | on every slot-increasing tree, in any visiting order: the weight of a block above the start slot is the number of validators whose vote is for it or a descendant, and no other block has weight |
| `ForkChoice.ComputeLmdGhostHead` | crates/blockchain/fork_choice/src/lib.rs:36-82 | terminates; empty tree or unknown start: the start; otherwise the head of the recursive definition and its weights, from the start or, for the zero root, from a lowest block |
| `ForkChoice.BuildChildren` | crates/blockchain/fork_choice/src/lib.rs:57-67 | lists under each parent exactly its children that meet the score |
| `ForkChoice.PickBest` | crates/blockchain/fork_choice/src/lib.rs:74-79 | the child with the greatest (weight, root) |
| `ForkChoice.LowestBlock` | crates/blockchain/fork_choice/src/lib.rs:45-51 | a block of lowest slot |
| `ForkChoice.GhostPathEndsAtHead` | crates/blockchain/fork_choice/src/lib.rs:69-82 | any path of greatest-(weight, root) children that ends at a childless block ends at the computed head |
| `ForkChoice.GhostPathUnique` | crates/blockchain/fork_choice/src/lib.rs:69-82 | there is at most one such path from a block |
| `ForkChoice.GhostPathExists` | crates/blockchain/fork_choice/src/lib.rs:69-82 | there is at least one such path from a block |
| `ForkChoice.HeadDescends` | crates/blockchain/fork_choice/src/lib.rs:69-82 | the head is stored, descends from the start and has no qualifying child |
| `ForkChoice.HeadEndsHeaviestPath` | crates/blockchain/fork_choice/src/lib.rs:57-82 | in terms of the tree and the votes alone: from a stored block there is exactly one path to the child with most votes, the highest root among equals, until no child has the score, and it ends at the head |
| `ForkChoice.ThresholdPath` | crates/blockchain/fork_choice/src/lib.rs:57-82 | every block on the way to the head meets the score, and no child of the head does |
| `ForkChoice.ChildrenNeverOutweighParent` | crates/blockchain/fork_choice/src/lib.rs:9-27 | the supporters of any set of siblings, added up, are at most those of the parent |
| `ForkChoice.TwoSiblingsShareVotes` | crates/blockchain/fork_choice/src/lib.rs:9-27 | two siblings' weights add up to at most the number of votes |
| `ForkChoice.SafeChildIsBest` | crates/blockchain/src/store.rs:103-126 | with the two-thirds threshold a block has at most one qualifying child, and it is the best child without threshold |
| `ForkChoice.SafeTargetOnHeadPath` | crates/blockchain/src/store.rs:103-126 | for the same start, tree and at most n > 0 votes the safe target is the head or an ancestor of it |
| `StoreRules.SafeTargetRule` | crates/blockchain/src/store.rs:103-126 | for latest votes of both pools and the n > 0 validators of the head's state: 3 * support >= 2n for every block from the justified one down to the new safe target, and for no child of it |
| `LiveChain.KeyRoundTrip` | crates/storage/src/store.rs:182-193 | decoding an encoded 40-byte key gives back slot and root |
| `LiveChain.KeyReencodes` | crates/storage/src/store.rs:182-193 | every 40-byte key is the encoding of what it decodes to |
| `LiveChain.KeyOrder` | crates/storage/src/store.rs:179-186 | byte order on keys is the order on (slot, root) |
| `LiveChain.Prune` | crates/storage/src/store.rs:548-576 | deletes exactly the leading stale entries of the iteration |
| `LiveChain.EarlyStopExact` | crates/storage/src/store.rs:551-562 | stopping at the first live key deletes all stale keys if and only if the iteration meets no live key before a stale one |
| `LiveChain.AscendingIsStaleFirst` | crates/storage/src/backend/rocksdb.rs:100-121 | an iteration in ascending byte order meets the stale keys first |
| `LiveChain.PruneAscending` | crates/storage/src/store.rs:548-576 | over an ascending iteration exactly the entries with slot >= finalized remain, values unchanged |
| `LiveChain.PruneIndex` | crates/storage/src/store.rs:548-576 | pruning the encoded index of a store gives the encoding of the store's pruned live index |
| `LiveChain.IndexDecodes` | crates/storage/src/store.rs:514-525 | every entry of the encoded index decodes to a live block with its slot and parent |
| `Payloads.PushBatch` | crates/storage/src/store.rs:123-135 | the buffer holds the newest entries of everything pushed, up to its capacity |
| `Payloads.ExtractLatest` | crates/storage/src/store.rs:852-878 | the result of visiting the keys in some order: each validator with available data gets one of its votes of the highest slot, and nobody else gets one |
| `Payloads.OrderIrrelevantIffNoTopTies` | crates/storage/src/store.rs:859-875 | all visiting orders of the keys give the same result if and only if no validator has two different votes of its highest available slot |
| `Payloads.LatestIffVisited` | crates/storage/src/store.rs:852-878 | the maps that give each validator one of its votes of the highest slot are exactly those the loop returns for some visiting order |
| `Payloads.VisitIsLatest` | crates/storage/src/store.rs:859-875 | whatever the order, the loop returns one of each validator's votes of the highest slot |
| `Payloads.LatestUnique` | crates/storage/src/store.rs:852-878 | without such a tie there is one such map |
| `Payloads.TiesAreAmbiguous` | crates/storage/src/store.rs:868-874 | two orders of one two-vote table that return the two answers |
| `StoreSafety.StoreSafe` | crates/blockchain/src/store.rs:300-677 | over every run of blocks, ticks, clock jumps, single and aggregated gossiped votes and pending blocks from an anchor: the store invariant holds, justified and finalized slots never decrease, finalized <= justified, the justified root stays in the live index at its slot, live slots increase from parent to child, the head is the justified block or descends from it |
| `StoreSafety.InputSound` | crates/blockchain/src/store.rs:300-677 | every input, a block, tick, jump, single or aggregated vote or held block, keeps the store invariant |
| `StoreRules.InputRule` | crates/blockchain/src/store.rs:300-677 | what every input does to every field of the store |
| `StoreRules.BlockRule` | crates/blockchain/src/store.rs:591-654 | an imported block: higher checkpoints taken, live index and vote data pruned exactly when finality moves, header, state and live entry added, its votes filed, then the head at the end of the heaviest path for latest known votes, then the proposer's vote |
| `StoreRules.FilingRule` | crates/blockchain/src/store.rs:605-640 | the votes in the body that have a proof, one entry per vote with the proof of its attestation, join the known payloads, of which the last 4096 are kept |
| `StoreRules.RoomForVotes` | crates/blockchain/src/store.rs:605-640 | with room in the buffer the known keys grow by exactly those votes |
| `StoreRules.DataRule` | crates/blockchain/src/store.rs:611-639 | the data of those votes and of the proposer's is stored under its root, and no other |
| `StoreRules.BlockVotesCount` | crates/blockchain/src/store.rs:642-645 | whatever latest votes the following head choice reads, each validator with a vote in the block has one of at least that slot |
| `StoreRules.ImportedIff` | crates/blockchain/src/store.rs:559-589 | a block is imported if and only if it is new, its parent's state is there, its signatures are valid or unchecked, and the transition accepts it |
| `StoreRules.TickRule` | crates/blockchain/src/store.rs:319-358 | by interval: promotion at 0 with a proposal and at 4, an aggregator's payloads at 2, the safe target at 3, nothing at 1 |
| `StoreRules.PromotionRule` | crates/blockchain/src/store.rs:40-45 | all new payloads join the known ones, the last 4096 are kept, and the head is the end of the heaviest path for latest votes among them |
| `StoreRules.AggregateRule` | crates/blockchain/src/store.rs:486-501 | an aggregated vote adds its data and one new payload with its proof per participant, of which the last 512 are kept |
| `StoreRules.ValidIffPlausible` | crates/blockchain/src/store.rs:235-292 | vote data passes if and only if its three blocks are stored at their slots, in order of slots, and its slot is at most one ahead of the clock |
| `StoreRules.VoteAcceptedIff` | crates/blockchain/src/store.rs:367-406 | a single vote is let in if and only if it is plausible, its target state is there, and it is validly signed by a registered validator |
| `StoreRules.AggregateAcceptedIff` | crates/blockchain/src/store.rs:444-484 | an aggregated vote is let in if and only if it is plausible, its target state is there, and it is proved for registered validators |
| `StoreRules.AnchorRule` | crates/storage/src/store.rs:258-358 | every field of a fresh store |
| `StoreSafety.BlockStepSound` | crates/blockchain/src/store.rs:547-677 | importing a block, whatever its outcome, keeps the store invariant and moves no checkpoint back |
| `StoreSafety.BlockCheckpoints` | crates/storage/src/store.rs:455-491 | after the checkpoint update the pruned live index still holds every stored block from the new finalized slot on, and both checkpoints are stored blocks at their slots |
| `StoreSafety.ImportSound` | crates/blockchain/src/store.rs:591-640 | checkpoints, tables and votes of an imported block keep the invariant |
| `StoreSafety.TickStepSound` | crates/blockchain/src/store.rs:319-358 | a tick keeps the invariant, advances time by one, and leaves checkpoints, states and live index alone |
| `StoreSafety.UpdateHeadSound` | crates/blockchain/src/store.rs:51-66 | for any votes the new head is live and descends from the justified block |
| `StoreSafety.PendingSound` | crates/storage/src/store.rs:726-730 | storing a block whose parent is missing does not disturb the invariant |
| `StoreSafety.LiveIncreases` | crates/storage/src/store.rs:514-525 | slots strictly increase from parent to child in the live index |
| `StoreSafety.AnchorSound` | crates/storage/src/store.rs:258-358 | a store initialised from any state within the invariant is within the store invariant |
| `Store.BodyEntriesKeys` | crates/blockchain/src/store.rs:605-640 | a block body contributes exactly the votes whose bits are set in the attestations that have a proof |
| `StoreMachine.ForkChoiceStore.constructor` | crates/storage/src/store.rs:258-358 | the anchor is head, safe target, justified and finalized; the object satisfies the invariant |
| `StoreMachine.ForkChoiceStore.OnBlock` | crates/blockchain/src/store.rs:547-677 | the exact error or none, the store of one block step, the invariant, no checkpoint moved back; unchanged on a known or rejected block |
| `Store.SignaturesPassIff` | crates/blockchain/src/store.rs:1196-1285 | verification passes if and only if there is one proof per attestation with the same participants, all registered, the proposer voted, and every key decodes and every signature is valid |
| `StoreMachine.VerifySignatures` | crates/blockchain/src/store.rs:1196-1285 | the first failing check in source order, or none |
| `StoreMachine.VerifyProof` | crates/blockchain/src/store.rs:1222-1250 | indices, then keys in order, then the proof |
| `StoreMachine.SealedTransition` | crates/blockchain/src/store.rs:583-589 | the transition on a copy of the parent state with the state root put into its header, or the error |
| `StoreMachine.ForkChoiceStore.ImportBlock` | crates/blockchain/src/store.rs:591-640 | checkpoints if higher, tables, votes: as the function |
| `StoreMachine.ForkChoiceStore.FinishImport` | crates/blockchain/src/store.rs:591-654 | the head is chosen before the proposer's vote is recorded |
| `StoreMachine.ForkChoiceStore.RecordVotes` | crates/blockchain/src/store.rs:605-640 | votes zipped with proofs, surplus of either ignored; data of all of them and of the proposer stored |
| `StoreMachine.ForkChoiceStore.UpdateCheckpoints` | crates/storage/src/store.rs:455-491 | head always, checkpoints if given, pruning only if finality advanced |
| `StoreMachine.ForkChoiceStore.UpdateHead` | crates/blockchain/src/store.rs:51-66 | the fork-choice head of the latest known votes |
| `StoreMachine.ForkChoiceStore.AcceptNewAttestations` | crates/blockchain/src/store.rs:40-45 | all new payloads become known, then the head is chosen |
| `StoreMachine.ForkChoiceStore.UpdateSafeTarget` | crates/blockchain/src/store.rs:103-126 | the two-thirds fork choice over both pools |
| `StoreMachine.ForkChoiceStore.OnTick` | crates/blockchain/src/store.rs:300-361 | the final store of a chain of ticks from where the jump lands to the target time, with the proposal signalled on the last tick only |
| `StoreMachine.ForkChoiceStore.TickInterval` | crates/blockchain/src/store.rs:319-358 | one tick step |
| `StoreMachine.ForkChoiceStore.InsertPendingBlock` | crates/storage/src/store.rs:726-730 | stores the header, nothing the fork choice sees |
| `StoreMachine.ForkChoiceStore.OnGossipAttestation` | crates/blockchain/src/store.rs:367-438 | the exact refusal of a single vote, with the store unchanged, or its data stored |
| `StoreMachine.ForkChoiceStore.OnGossipAggregated` | crates/blockchain/src/store.rs:444-518 | the exact refusal, with the store unchanged, or the data and one entry per participant |
| `StoreMachine.ForkChoiceStore.GetAttestationTarget` | crates/blockchain/src/store.rs:682-749 | both walks end and meet stored headers only; the result is the target of `Attesting.TargetRule` |
| `StoreMachine.ForkChoiceStore.ProduceAttestationData` | crates/blockchain/src/store.rs:752-772 | passes this node's own validation if and only if the slot is at most one ahead of the clock |
| `Attesting.TargetSound` | crates/blockchain/src/store.rs:682-749 | in every store within the invariant the target is a stored block at its slot, an ancestor-or-self of the head, not behind the justified slot, and unless it is the justified checkpoint at a slot justifiable after the finalized one |
| `Attesting.TargetRule` | crates/blockchain/src/store.rs:682-749 | the target is found at most three generations back from the head, stopping at the safe target's slot, then at the nearest ancestor-or-self that is not above the finalized slot or at a scheduled slot, or is the justified checkpoint if that is behind it |
| `Attesting.ProducedIsValid` | crates/blockchain/src/store.rs:235-292 | produced data validates if and only if its slot is at most the current slot + 1 |
| `FastForward.FastForwardIsReplay` | crates/blockchain/src/store.rs:313-358 | for a non-aggregator, with no eviction and no two different votes of a validator at its highest slot, jumping ahead and ticking five times ends in the same store as ticking every interval |
| `FastForward.ClockEndsAtLater` | crates/blockchain/src/store.rs:308-320 | the clock ends at max(old, new) and no checkpoint moves |
| `FastForward.TicksAfterJump` | crates/blockchain/src/store.rs:313-320 | more than five intervals behind, exactly five ticks are run, starting five before the target; otherwise one per missed interval |
| `FastForward.EveryPhaseOnce` | crates/blockchain/src/store.rs:332-357 | five consecutive ticks meet each interval of a slot exactly once |
| `FastForward.TickingShape` | crates/blockchain/src/store.rs:319-358 | after any number of ticks the store is the old one with payloads promoted or not and safe target updated or not, whatever vote order each tick saw |
| `ProofSelection.AggregateByData` | crates/blockchain/src/store.rs:980-1013 | one aggregate per distinct data, whose bits are exactly the validators that cast it, in any group order |
| `ProofSelection.BitsOf` | crates/blockchain/src/store.rs:956-974 | exactly the given indices are set, with length highest index + 1, or empty for none |
| `ProofSelection.CoverGroup` | crates/blockchain/src/store.rs:1144-1187 | the greedy loop ends; at most one proof per covered member; every pick is stored for a member; each pick covers most of what was uncovered among the proofs stored for an uncovered member; it leaves nothing uncovered if each member's stored proofs name it |
| `ProofSelection.BestProof` | crates/blockchain/src/store.rs:1159-1168 | a candidate covering most remaining validators, the last such one |
| `ProofSelection.SelectProofs` | crates/blockchain/src/store.rs:1134-1191 | attestations and proofs align with equal bits, each is stored for an included vote, at most one per included vote, and all included votes are covered if provable |
| `BlockBuilder.BuildBlock` | crates/blockchain/src/store.rs:1020-1125 | succeeds if and only if the candidate is admissible, otherwise the error of applying it; at most (number available) + 1 rounds, each adding exactly what its candidate makes eligible; the block is accepted by the state transition on the same head state with the same post-state; every collected vote is available, about a known head, proved, and speaks from a checkpoint some round justified, and all such votes are collected; the same holds for the checkpoint the returned block justifies if and only if a round saw the checkpoint it justifies or no available vote speaks from it; proofs align; provable votes are all covered |
| `BlockBuilder.FixedPointForIff` | crates/blockchain/src/store.rs:1036-1099 | for any checkpoint: the collection has every vote it makes eligible if and only if some round saw it or no available vote speaks from it |
| `BlockBuilder.BodyOrderDecides` | crates/blockchain/state_transition/src/lib.rs:272-330 | two attestations where the second votes from what the first justifies: their order in a body decides which checkpoint it justifies |
| `BlockBuilder.BodyOrderDecidesHere` | crates/blockchain/state_transition/src/lib.rs:272-330 | a concrete state and two votes for which it does |
| `BlockBuilder.BodyDoesNotMatter` | crates/blockchain/src/store.rs:1036-1056 | whether a candidate applies, and its error if not, depend on its header only |
| `BlockBuilder.CollectVotes` | crates/blockchain/src/store.rs:1029-1099 | the fixed-point loop: distinct available votes, none eligible under the last candidate's own post-state missing; the error of applying the candidate otherwise |
| `BlockBuilder.AddEligible` | crates/blockchain/src/store.rs:1063-1098 | one round adds every eligible vote not there yet and nothing else |
| `BlockBuilder.ApplyTo` | crates/blockchain/src/store.rs:1053-1056 | slots and block processing on a copy of the head state |
| `Proposing.ProduceBlock` | crates/blockchain/src/store.rs:795-849 | succeeds if and only if it is the validator's turn and the slot is ahead of the head state and within the history limit, and names the one that fails otherwise; given valid signatures the store it came from imports the block as new with the post-state it was built with; it covers all collected votes, which are a fixed point |
| `Proposing.GetProposalHead` | crates/blockchain/src/store.rs:778-790 | ticks to the start of the slot signalling a proposal, then promotes and chooses the head |
| `Proposing.RunOperates` | crates/blockchain/src/store.rs:1196-1260 | at every point of every run of verified events each stored proof names the validator it is filed under and only registered validators, and vote data is filed under its root |
| `Proposing.AggregatesNamed` | crates/blockchain/src/store.rs:158-206 | the payloads of an aggregation name the validators they are filed under, and only registered ones |
| `Aggregation.AggregateSignatures` | crates/blockchain/src/store.rs:132-225 | for any order of the votes: one entry per signature that decodes, whose validator is registered with a decodable key, whose vote data is stored and whose vote aggregates; its proof names exactly those signers; the signatures used up are exactly those |
| `Proposing.HeadHasNoChild` | crates/blockchain/src/store.rs:51-66 | no stored block is a child of the chosen head |
| `Proposing.PlanIsSound` | crates/blockchain/src/store.rs:802-835 | votes, proofs and head drawn from such a store meet the builder's limits and are all provable |
| `Proposing.GroupPayloads` | crates/storage/src/store.rs:143-149 | groups the buffer by key in insertion order |
| `Server.BlockChainServer.OnBlock` | crates/blockchain/src/lib.rs:295-310 | terminates, as one delivery event; ends with no block waiting for a parent whose state is there; pops the queue at most 1 + (registrations) times if the parent's state is there, else at most 2 + (registrations with those of the block and of ancestors that lack a parent state); requests one proper ancestor with no stored header exactly when the block has to wait and no stored ancestor can be tried |
| `Server.BlockChainServer.ProcessOrPendBlock` | crates/blockchain/src/lib.rs:315-404 | consistent data with the longer queue; only the first block of an event can find its parent's state missing, and it then ends with a block to try or a request |
| `Server.BlockChainServer.PendBlock` | crates/blockchain/src/lib.rs:325-377 | stores and registers the block and waiting ancestors only, then queues one ancestor that can be tried, or requests one missing one because none can |
| `Server.BlockChainServer.WalkUp` | crates/blockchain/src/lib.rs:348-376 | the walk over stored headers ends: one ancestor whose parent has a state is queued, stored in full, or one root without a header is requested because no ancestor can be tried |
| `Server.BlockChainServer.ResolveMissing` | crates/blockchain/src/lib.rs:329-335 | the walk over cached ancestors ends at a proper ancestor that is not cached |
| `Server.BlockChainServer.ImportBlock` | crates/blockchain/src/lib.rs:379-404 | queue plus registrations do not grow; an accepted block gets its state |
| `Server.BlockChainServer.CollectPendingChildren` | crates/blockchain/src/lib.rs:420-450 | moves exactly the waiting children to the queue and clears their cached ancestors |
| `Server.BlockChainServer.Drain` | crates/blockchain/src/lib.rs:302-304 | ends after at most (queue + registrations) rounds with nothing importable waiting |
| `Server.ImportAll` | crates/blockchain/src/lib.rs:295-450 | a fresh server fed any sequence of blocks is a delivery, and unless a block is contested ends with exactly the states of the anchors and of the accepted blocks whose whole ancestry is accepted |
| `Delivery.OrderIrrelevantIffUncontested` | crates/blockchain/src/lib.rs:295-450 | for a set of received blocks all arrival orders leave the same states if and only if no badly signed copy was received of a block that is importable and whose parent is no anchor |
| `Delivery.StatesAreDerivable` | crates/blockchain/src/lib.rs:295-450 | if no block is contested, between events a root has a state if and only if accepted received blocks connect it to an anchor |
| `Delivery.OrderThatLoses` | crates/blockchain/src/lib.rs:326-346 | an arrival order after which a contested block has no state |
| `Delivery.OrderThatImports` | crates/blockchain/src/lib.rs:379-404 | an arrival order after which it has one |
| `Delivery.BadCopyLosesBlock` | crates/blockchain/src/lib.rs:326-346 | good copy, bad copy, parent loses the block; bad copy, good copy, parent imports it |
| `Delivery.SilentIffRejected` | crates/blockchain/src/lib.rs:348-376 | a block that has to wait ends without a state and without a request if and only if a rejected copy stands on its path of ancestors |
| `Delivery.ChildOfRejectedIsSilent` | crates/blockchain/src/lib.rs:352-361 | a child of a rejected copy leads to no request |
| `Delivery.BadCopyIsRejected` | crates/blockchain/src/lib.rs:326-361 | bad copy, then its parent: the bad copy stands in the tables rejected |
| `Cascade.WalkIsExhaustive` | crates/blockchain/src/lib.rs:329-352 | the cached shortcut skips no ancestor that could be tried |
| `Delivery.DeliveryHappens` | crates/blockchain/src/lib.rs:295-310 | every sequence of blocks has a delivery |
| `Replicas.ReplicasAgree` | crates/blockchain/src/store.rs:547-603 | any two stores reached from one anchor hold the same state under a root they share |
| `Replicas.OutcomesAgree` | crates/blockchain/src/store.rs:547-603 | a block importable in both has the same post-state or the same error in both |
| `Replicas.CascadeIsAStore` | crates/blockchain/src/lib.rs:295-450 | with acceptance by the store, the states a server ends with are those of a store that can be reached |
| `Replicas.StoreDecidesAcceptance` | crates/blockchain/src/lib.rs:379-404 | acceptance as the cascade takes it is the verdict of every reachable store that can import the block |
| `Cascade.ImportedIffAccepted` | crates/blockchain/src/lib.rs:379-404 | between events a stored block whose parent has a state has one itself exactly when it is accepted |
| `Cascade.CollectCounts` | crates/blockchain/src/lib.rs:420-450 | collecting moves registrations to the queue one for one |
| `Cascade.StepToCached` | crates/blockchain/src/lib.rs:329-335 | a cached ancestor is a proper, shallower ancestor that is no anchor |
| `Cascade.AncestorIsShallower` | crates/blockchain/src/lib.rs:348-352 | along stored headers every ancestor is strictly shallower, so both walks end |

## Left out

- XMSS signing, verification and aggregation, SSZ encoding and tree hashing: foreign code, taken as parameters.
- Networking, RPC, metrics, logging, the ASCII tree, command line and configuration.
- `prune_old_data`, `prune_old_states`, `prune_old_blocks`: the runs keep all states and blocks; retention by slot rank is not modelled.
- The table of single gossip signatures is not a field of the store: which signatures an aggregation finds is a parameter, and subnet filtering, pruning and deletion of that table are not modelled.
- `reorg_depth`: feeds a metric only.
- `propose_block`: signs and imports its own block through the plain import path, which does not collect pending children; only the production and the import are modelled.
- Storage backends: tables are maps. The in-memory backend iterates in no order, so the early-stop pruning result is not claimed for it; `LiveChain.EarlyStopExact` says what it would need.
- Conversion of attestation slots to 32 bits before signature verification.
- Server.BlockChainServer.OnBlock: the first pop of the queue is written out before the loop, because only that one can find its parent's state missing.
- FastForward.FastForwardIsReplay: not for aggregators, whose payloads depend on signatures that arrive in between.
- BlockBuilder.BuildBlock: requires at most 4096 available votes with indices below 4096, where the client's list conversions would stop it; `Proposing.PlanIsSound` shows that production meets this.
- Update in place of hash maps inside one handler is modelled by reassigning `map` and `seq` fields; nothing aliases them in the source.
