# A verified model of a replicated, range-partitioned record store

The system keeps secret records in groups of hardware security modules (HSMs). A
group replicates a MAC-chained log through a store it does not trust, and
commits by majority. Groups own ranges of 256-bit record ids and hand parts of
them to each other. Agents sit next to the HSMs: they write log entries and
Merkle tree nodes to Bigtable, compact the log, look records up and limit the
rate of requests.

This project models that behaviour in Dafny and proves what it is for: no two
leaders ever commit different entries at one index, a planned move of ranges can
be executed and never leaves an id without an owner, the protocol that moves a
range keeps every id and its record in exactly one place, a proof about the
Merkle tree is accepted only if it tells the truth, and so on.

`dafny verify dfyconfig.toml` checks everything.

## The modules

| module | what it models |
|---|---|
| `MacChain` | log entries and the chain of their MACs; a MAC is a free term, so it is injective and cannot be forged |
| `Election` | the vote that gives the highest index a majority has reached |
| `GroupMember` | what every request does to one HSM's state for a group, including panics |
| `Hsm` | the HSM's handlers as methods that change fields, proved to do what `GroupMember` says |
| `CaptureVotes` | the abstract protocol of capturing, persisting and stating, and why it cannot fork |
| `Agreement` | all runs of a group with an untrusted log; agreement and integrity |
| `UnsafeJump` | a run that forks the group by one unsafe jump |
| `OwnedRanges`, `RecordIds`, `Bits`, `Orderings` | ids as numbers, bytes and packed bits, and ranges of them |
| `Transfers` | planning and executing moves of ranges |
| `RangeOwners` | checking a reported list of owners, dividing the id space |
| `AppendPipeline`, `Compaction` | the agent's append queue and log compaction, under all interleavings |
| `RateLimits` | the rate limiter with reservations, on a cluster of nodes with unsteady clocks |
| `CellChunks`, `RowReads` | decoding Bigtable's chunks, and reading with retries |
| `MerkleTree`, `MerkleInsert`, `MerkleCanonical`, `MerkleProofs`, `MerkleStore`, `NodeHashes` | the radix tree: lookup, insertion, canonical form, proofs, stored nodes, hash input |
| `MerkleSplit`, `MerkleMerge`, `TreePartitions` | splitting a tree at a key, merging adjacent trees, and both as operations on partitions |
| `OwnershipTransfer`, `TransferRealm` | the handlers with which a leader gives and takes ranges, and a realm of groups, each with any number of leaders that do not all know that they have been replaced |
| `TransferOwners`, `TransferRecords`, `TransferExact` | under which order of steps no two groups own an id and no record is lost, and that no weaker order will do |
| `TransferStatements`, `TransferTrees`, `DisorderlyTransfers` | what nonces and statements ensure by themselves, when a leader panics, and runs that go wrong |
| `StoreDeltas` | squashing changes to the store |

Source code that updates objects step by step is modelled by classes and
methods with loops; each is proved equal to a specification function, and the
properties are proved about those functions. State machines whose steps
interleave (the group, the append queue, compaction, the rate limiters) are
modelled as runs of atomic steps, one for each handler or locked section.

## What comes from outside

- The log, claims of other HSMs, and the store's answers are parameters. In
  `Agreement` the log hands out any entries whatsoever; claims are only those
  that some HSM has made, because their MACs cannot be forged.
- In the ownership transfers a group is its committed log and the logs of its
  leaders. A leader is in office as long as its log could still be committed.
  That committed entries stay is what `Agreement` proves, and that a partition's
  tree is its records what `TreePartitions` does. What the Merkle tree finds
  about a proof is a parameter of the steps; `TreePartitions.SplitAsProved` and
  `TreePartitions.MergeAsProved` derive it from the proof.
- Clocks and the choice of when a task runs are parameters of the steps.
- A failed assertion, `expect` or `unwrap` is an explicit `Panic`, `Panicked` or
  `None`, and the conditions for it are proved.
- `sort`, `retain`, `partition_point`, `binary_search` and hash maps of the
  standard library are functions on sequences and maps. Where an item goes among
  items with an equal time is left open by the library and fixed here; nothing
  depends on it.
- `to_be2`, `to_be4` and `to_be8` are not part of the repository; they are taken
  to write numbers in big-endian order.

## Where code and documentation disagree

- The design relies on captured entries forming one chain. The CaptureJump
  handler (hsm_core/src/hsm/commit.rs:22-74) accepts any genuine statement with a
  higher index and checks no chain, and the agent sends it the statement of
  whichever peer has captured most (agent_core/src/lib.rs:602-609), so agreement
  does not hold for every run. `UnsafeJump.UnsafeJumpForks` is a run with a
  single jump in which two leaders commit diverged entries.
  `Agreement.CommitsAgree` holds for all runs in which every jump goes to an
  entry that follows what the HSM has persisted, or an entry past that which a
  majority has stated. `Agreement.JumpIsExact` proves that exactly such jumps
  keep the invariant from which agreement follows.
- Ownership transfers rely on the coordinator for things that no HSM checks. A
  transfer may be completed at its source before the range has arrived
  (hsm_core/src/hsm/transfer.rs:499-507), and then nobody owns or gives it:
  `DisorderlyTransfers.LostRange`. A source that has not been told of the
  completion makes a statement for any nonce
  (hsm_core/src/hsm/transfer.rs:318-343), so if the receiver gives the range on
  before that and prepares for it again, the range exists twice:
  `DisorderlyTransfers.TwoOwners`. A leader of the source that has been replaced
  and does not know does the same although the transfer has been completed:
  `DisorderlyTransfers.ReplacedLeader`, where everything before that statement
  is in order. `TransferExact.OneOwner` proves that a run keeps every id in one
  place, with its record, exactly if no group gives an id while a transfer of it
  to the group has not been completed at its source, each range is taken while
  it is being given, and each transfer is completed after its range has arrived.
  `TransferStatements.CarefulIsOrderly` proves that the second of these follows
  if statements come from leaders that have not been replaced.
- A leader is documented to have its tree exactly if it owns a partition
  (hsm_core/src/hsm.rs:309). A split or merge takes the tree out before it looks
  at the proofs, and does not put it back when it answers that they are stale or
  invalid (hsm_core/src/hsm/transfer.rs:228-246,
  hsm_core/src/hsm/transfer.rs:421-433). The agent answers a stale proof by
  sending the request again (agent_core/src/transfer.rs:230-234), and that
  panics: `DisorderlyTransfers.RetryPanics` and
  `TransferTrees.RetriedProofPanics`. `TransferTrees.PanicFreeIsExact` proves
  that a run is free of panics exactly if no leader that has refused a proof is
  asked, for as long as it owns anything, for what needs the tree, and no proof
  is malformed or, for a merge, goes along a way that clashes.
- Merging asks for proofs that lean to the other tree
  (hsm_core/src/merkle/merge.rs:18-22), but the HSM accepts any that verify
  (hsm_core/src/hsm/transfer.rs:391-397). `MerkleMerge.MergeWithExact` gives the
  exact condition under which merging does not panic, `MerkleMerge.LeaningMerges`
  shows that leaning proofs meet it, and `MerkleMerge.NotLeaningPanics` is a
  proof that does not lean and panics.
- `squash` is documented to be the same as applying deltas one after the other
  (hsm_api/src/merkle.rs:189-192). `StoreDeltas.SquashExact` gives the exact
  condition for two deltas, and `StoreDeltas.SquashAllExact` for any number of
  deltas that are differences, as those of insertions are. For a batch of
  insertions, `MerkleStore.SquashedBatch` proves squashing right exactly if no
  record of the tree that gets another value in the batch has its first value
  again at the end; `MerkleStore.ValueComesBack` is the shortest batch that
  fails. Records are encrypted with a random nonce
  (hsm_core/src/hsm/app.rs:90-94), so values do not come back.
- A retried forward read asserts that something of the request is left
  (bigtable/src/read.rs:290, bigtable/src/read.rs:299-302), so a read that breaks
  off after its last row has arrived panics instead of ending:
  `RowReads.RetryAfterLastRowPanics`, with the exact condition in
  `RowReads.ClampValid`.
- A reset chunk is treated as the first chunk of the row that is sent again, and
  must carry its key, family and qualifier; a reset without them is not
  understood: `CellChunks.BareResetPanics`.

## Model

| member | source | states |
|---|---|---|
| `Election.OutcomeUnique` | election/src/lib.rs:32-46 | at most one result is the highest index that a strict majority has reached |
| `Election.HsmElection.constructor` | election/src/lib.rs:19-26 | the given voters have not voted |
| `Election.HsmElection.Vote` | election/src/lib.rs:28-30 | a vote replaces the voter's earlier one; votes of others are ignored |
| `Election.HsmElection.Outcome` | election/src/lib.rs:32-46 | sorting and picking gives exactly that highest index, or none if no index has a majority |
| `GroupMember.IndexesContiguous` | hsm_core/src/hsm.rs:357-421 | the indexes of a leader's log are consecutive |
| `GroupMember.LogOnChain` | hsm_core/src/hsm.rs:403-415 | every entry of the log lies on the MAC chain of every later one |
| `GroupMember.GetIndexIsSearch` | hsm_core/src/hsm.rs:383-398 | looking an entry up by offset finds what a search by index finds, and nothing exactly if there is none |
| `GroupMember.UpTo` | hsm_core/src/hsm.rs:1166-1216 | cutting a log at an index inside it keeps exactly the entries up to it, and a valid log |
| `GroupMember.NewGroupInv` | hsm_core/src/hsm.rs:904-1059 | an HSM that creates or joins a group starts in a good state |
| `GroupMember.RestartInv` | hsm_core/src/hsm.rs:591-616 | restarting with what was persisted, persisting, and becoming a witness keep the state good |
| `GroupMember.BecomeLeaderInv` | hsm_core/src/hsm.rs:1062-1124 | taking leadership never panics and starts a good log at the last persisted capture |
| `GroupMember.AppendInv` | hsm_core/src/hsm.rs:1544-1561 | an appended entry continues the log |
| `GroupMember.StepDownInv` | hsm_core/src/hsm.rs:1166-1216 | giving up leadership panics exactly if the log starts past the chosen index, and otherwise keeps the state good |
| `GroupMember.CaptureEntryInv` | hsm_core/src/hsm/commit.rs:125-201 | capturing an entry panics exactly if it contradicts the first entry of the log this HSM leads with; otherwise log and capture stay consistent |
| `GroupMember.CaptureEntriesInv` | hsm_core/src/hsm/commit.rs:77-210 | however far a batch gets, what is captured then is on one chain with what was captured before |
| `GroupMember.OutcomeInLog` | hsm_core/src/hsm/commit.rs:242-289 | the outcome of a vote among claims that match the log is the index of an entry of the log |
| `GroupMember.CommitInv` | hsm_core/src/hsm/commit.rs:213-344 | committing never panics and keeps the state good |
| `GroupMember.StateCapture` | hsm_core/src/hsm.rs:1226-1256 | the claim an HSM makes is about what it has persisted, and verifies |
| `Hsm.GroupHsm.NewGroup` | hsm_core/src/hsm.rs:904-999 | the creator leads a log with the first entry |
| `Hsm.GroupHsm.Boot` | hsm_core/src/hsm.rs:591-616 | an HSM comes up as a witness that has captured what NVRAM holds |
| `Hsm.GroupHsm.PersistCurrentCaptures` | hsm_core/src/hsm.rs:1259-1271 | writes the captures, and nothing else |
| `Hsm.GroupHsm.HandlePersistState` | hsm_core/src/hsm.rs:1219-1257 | persists and then states exactly what is persisted |
| `Hsm.GroupHsm.HandleBecomeLeader` | hsm_core/src/hsm.rs:1062-1124 | does what `BecomeLeader` says, for every answer |
| `Hsm.GroupHsm.Append` | hsm_core/src/hsm.rs:1544-1561 | the next entry chains to the end of the log |
| `Hsm.GroupHsm.StepDown` | hsm_core/src/hsm.rs:1166-1216 | popping entries one by one leaves the log up to the index, and the popped MACs in reverse |
| `Hsm.GroupHsm.HandleStepDown` | hsm_core/src/hsm.rs:1127-1164 | a leader steps down at the end of its log, or is forced to |
| `Hsm.GroupHsm.MeetAsLeader` | hsm_core/src/hsm/commit.rs:127-158 | a leader that captures an unexpected entry steps down before it |
| `Hsm.GroupHsm.MeetSteppingDown` | hsm_core/src/hsm/commit.rs:169-201 | while stepping down the log follows what is captured |
| `Hsm.GroupHsm.HandleCaptureNext` | hsm_core/src/hsm/commit.rs:77-210 | checks each entry against the last capture and takes it over, up to the first problem |
| `Hsm.GroupHsm.HandleCaptureJump` | hsm_core/src/hsm/commit.rs:23-74 | a witness adopts any verified claim with a higher index; its state stays good if the claim is about a well-formed entry |
| `Hsm.GroupHsm.HandleCommit` | hsm_core/src/hsm/commit.rs:213-344 | tallies the claims and commits what they decide |
| `Hsm.GroupHsm.CommitAt` | hsm_core/src/hsm/commit.rs:291-344 | trims the log, releases responses and may end the step-down, never panicking |
| `Hsm.ElectionOutcome` | hsm_core/src/hsm/commit.rs:242-289 | exactly the claims that verify and match the log vote |
| `Hsm.TrimTo` | hsm_core/src/hsm/commit.rs:313-325 | pops up to the commit index and yields the responses of all committed entries in order |
| `Hsm.PopPast` | hsm_core/src/hsm.rs:1197-1202 | keeps exactly the entries up to the index and collects the others' MACs in reverse |
| `CaptureVotes.NextInv` | hsm_core/src/hsm/commit.rs:105-125 | captures along the chain from what is captured or persisted, or after a certified entry past that, persists and restarts never let two diverged entries be certified |
| `Agreement.StepInv` | hsm_core/src/hsm.rs:1062-1271 | every step of every HSM keeps the group in agreement, unless it is an unsafe jump |
| `Agreement.JumpIsExact` | hsm_core/src/hsm/commit.rs:23-74 | a jump keeps that agreement exactly if it is refused, or goes to an entry after what the HSM has persisted or after an entry past that which a majority has stated |
| `Agreement.UsualJumpsSafe` | hsm_core/src/hsm/commit.rs:23-74 | so jumps along the chain, and to an entry that a majority has stated, are safe |
| `Agreement.OutcomeCertified` | hsm_core/src/hsm/commit.rs:242-289 | what a vote decides has been stated by a majority |
| `Agreement.CommitsAgree` | hsm_api/src/lib.rs:1353-1416 | in every run, any two committed entries, of any leaders at any times, lie on one chain |
| `Agreement.StateAgrees` | hsm_api/src/lib.rs:1353-1416 | two committed entries at one index are the same entry |
| `Agreement.ResponsesAgree` | hsm_api/src/lib.rs:1353-1416 | released responses belong to entries on that one chain |
| `Agreement.CommitsGrow` | hsm_core/src/hsm/commit.rs:291-344 | what is committed stays committed |
| `Agreement.CommittedWasBuilt` | hsm_core/src/hsm.rs:1544-1561 | every committed entry, and every entry before it, was built by a leader of the group |
| `UnsafeJump.UnsafeJumpForks` | hsm_core/src/hsm/commit.rs:23-74 | there is a run with one jump in which two diverged entries are committed |
| `OwnedRanges.OverlapsIsSharing` | hsm_api/src/lib.rs:438-445 | ranges overlap exactly if they have an id in common |
| `OwnedRanges.JoinIsExact` | hsm_api/src/lib.rs:456-472 | disjoint ranges join exactly if their ids together are a range, which is the result |
| `Transfers.TransferMoves` | hsm_api/src/lib.rs:456-488 | a legal move changes the owner of the moved ids and of no other |
| `Transfers.TransferConserves` | hsm_api/src/lib.rs:456-488 | a legal move keeps every id with exactly as many owners as before, one or none |
| `Transfers.ExecuteConserves` | cluster_core/src/transfer.rs:429-541 | so does every prefix of an executable plan |
| `Transfers.Find` | cluster_core/src/transfer.rs:445-448 | finds an owner exactly if one matches |
| `Transfers.OwnerPlan` | cluster_core/src/transfer.rs:429-541 | for a destination with a neighbour wherever it gives ids away, the plan is executable and ends with the target |
| `Transfers.NewcomerPlan` | cluster_core/src/transfer.rs:505-540 | for a destination that owns nothing, the plan works unless one owner extends past the target on both sides |
| `Transfers.StuckPanics` | cluster_core/src/transfer.rs:443-475 | giving ids away at the end of the id space trips the `expect` |
| `Transfers.PlanOutcome` | cluster_core/src/transfer.rs:429-541 | exactly when each error is returned and when it panics; otherwise every step is legal, every prefix conserves ownership, and the destination ends owning the target |
| `Transfers.GiveAway` | cluster_core/src/transfer.rs:441-477 | the first stage of planning |
| `Transfers.TakeAllLower` | cluster_core/src/transfer.rs:483-506 | the loop that takes what is missing below |
| `Transfers.TakeAllHigher` | cluster_core/src/transfer.rs:507-540 | the loop that takes everything above; it ends |
| `Transfers.MakePlan` | cluster_core/src/transfer.rs:429-541 | the planner as it runs gives the specified plan |
| `RangeOwners.OwnerCheckExact` | cluster_core/src/lib.rs:301-318 | accepted exactly if every id of the range has one owner among those given; then the overlapping owners are returned in order without gaps |
| `RangeOwners.CheckedPlan` | cluster_core/src/lib.rs:278-318 | true reports that pass the check give the planner all it needs |
| `RangeOwners.PartitionIsEven` | cluster_core/src/lib.rs:320-342 | the parts tile the id space, all but the last have the same size, and the last less than n units more |
| `RecordIds.Next` | hsm_api/src/lib.rs:110-121 | the byte loop adds one, and gives none exactly for the highest id |
| `RecordIds.Prev` | hsm_api/src/lib.rs:123-134 | the byte loop subtracts one, and gives none exactly for zero |
| `RecordIds.ByteOrderIsNumberOrder` | hsm_api/src/lib.rs:86-87 | comparing bytes compares numbers, and equal numbers are equal bytes |
| `RecordIds.PrefixedIds` | hsm_api/src/lib.rs:103-108 | replacing the first four bytes gives the numbers the even partition computes with |
| `RecordIds.IdsAreNumbers` | hsm_api/src/lib.rs:110-134 | stored ids are the numbers that ranges are about |
| `Bits.OrdersCoincide` | bitvec/src/lib.rs:329-341 | for ids, bit order, byte order and number order are the same |
| `Bits.CompareIsEquality` | bitvec/src/lib.rs:269-291 | comparing equal means being the same bits |
| `Bits.BitsAndBytesAgree` | bitvec/src/lib.rs:96-102 | the bits of bytes, read as a binary number, are the number of the bytes |
| `Bits.CmpImpl` | bitvec/src/lib.rs:329-341 | stepping through two iterators gives the lexicographic order, a proper prefix first |
| `Bits.StartsWith` | bitvec/src/lib.rs:49-54 | true exactly for prefixes |
| `Bits.CommonPrefix` | bitvec/src/lib.rs:201-206 | the longest common prefix |
| `Bits.BoundsToStartLen` | bitvec/src/lib.rs:242-265 | selects exactly the positions within the bounds; refused only if they reach past the end or select nothing |
| `Bits.StoredFormIsUnique` | bitvec/src/lib.rs:75-84 | because unused bits are zero, the bits determine the bytes |
| `Bits.BitVec.constructor` | bitvec/src/lib.rs:88-90 | a new vector is empty |
| `Bits.BitVec.FromBytes` | bitvec/src/lib.rs:96-102 | holds the bits of the bytes |
| `Bits.BitVec.AsBytes` | bitvec/src/lib.rs:127-134 | as many bytes as needed, with the same bits and zeros after them |
| `Bits.BitVec.Push` | bitvec/src/lib.rs:138-147 | appends one bit and keeps unused bits zero |
| `Bits.BitVec.Extend` | bitvec/src/lib.rs:158-162 | appends all bits |
| `Bits.BitVec.At` | bitvec/src/lib.rs:170-174 | reads one bit |
| `Bits.BitVec.Equals` | bitvec/src/lib.rs:74-84 | the derived equality is equality of the bits |
| `Bits.IdRoundTrip` | hsm_api/src/lib.rs:136-145 | an id turned into bits and back is the same id |
| `Bits.BitSlice.At` | bitvec/src/lib.rs:214-217 | reads one bit of a slice |
| `Bits.BitSlice.Iter` | bitvec/src/lib.rs:228-238 | yields the bits of the slice in order |
| `Bits.BitSlice.Slice` | bitvec/src/lib.rs:190-197 | a slice of a slice is that part of its bits |
| `Bits.BitSlice.SharedPrefix` | bitvec/src/lib.rs:201-206 | the part shared with other bits, and no shorter than it could be |
| `AppendPipeline.TakeEntries` | agent_core/src/append.rs:72-79 | takes the longest run of consecutive entries, at most a hundred |
| `AppendPipeline.BatchIsMaximal` | agent_core/src/append.rs:72-79 | the batch is consecutive, and stops only at its limit or at a missing entry |
| `AppendPipeline.LeaderQueue.constructor` | agent_core/src/lib.rs:2136-2140 | the queue waits for the leader's first index |
| `AppendPipeline.LeaderQueue.DrainQueue` | agent_core/src/append.rs:64-85 | the task's locked section: gives consecutive entries, and leaves a queue that lacks its next entry if the task stops |
| `AppendPipeline.PipelineSafe` | agent_core/src/append.rs:29-144 | in every interleaving: one task at most, a stopped queue lacks its next entry, the store gets consecutive indexes once each in batches of at most a hundred, and nothing after a refusal |
| `AppendPipeline.DrainPanics` | agent_core/src/append.rs:71-75 | the task panics exactly if it would take the entry at the highest index |
| `AppendPipeline.QuiescentIsComplete` | agent_core/src/append.rs:80-83 | when the task stops, everything that could be written has been |
| `AppendPipeline.RowsFollowOn` | agent_core/src/append.rs:122-131 | each row starts where the one before it ends |
| `Compaction.CompactibleIsExact` | agent_core/src/commit.rs:582-602 | exactly the rows whose entries all may go are taken, and never the last row |
| `Compaction.LeaderRows.Init` | agent_core/src/commit.rs:476-496 | older rows come before this leader's, or the lists do not fit together |
| `Compaction.LeaderRows.SplitOffCompactiblePrefix` | agent_core/src/commit.rs:582-602 | takes exactly the rows, but the last, whose entries all are at or before the index |
| `Compaction.CompactionSafe` | agent_core/src/commit.rs:355-370 | in every run no assertion fails, tombstones and remaining rows are all rows in order, and no tombstone held an entry at or past the commit index or past the leader's capture |
| `Compaction.CompactionComplete` | agent_core/src/commit.rs:503-527 | a compaction takes every row it may take, and no other |
| `RateLimits.ExpireKeeps` | agent_core/src/rate.rs:269-278 | what is left after expiring has not expired, and every reservation still has its expiry |
| `RateLimits.MergeKeeps` | agent_core/src/rate.rs:164-189 | merging peers' states keeps every reservation's expiry in order |
| `RateLimits.UseKeeps` | agent_core/src/rate.rs:209-228 | a reservation is honoured only before it expires and only if it was not used before |
| `RateLimits.HonouredOnce` | agent_core/src/rate.rs:118-135 | in every run of a cluster, a node whose clock never steps back by more than four seconds honours each reservation at most once and in time |
| `RateLimits.FourSecondsIsTight` | agent_core/src/rate.rs:118-129 | with one millisecond more, there is a run of two nodes in which one honours a reservation twice |
| `RateLimits.RateKept` | agent_core/src/rate.rs:82-107 | with a clock that does not step back, the requests admitted without need of a reservation in any second are at most the highest rate the node was set to |
| `RateLimits.RemoveOld` | agent_core/src/rate.rs:331-335 | drops times from the front while they are too old |
| `RateLimits.ExpireOld` | agent_core/src/rate.rs:269-278 | the expiry loop |
| `RateLimits.RateLimiter.constructor` | agent_core/src/rate.rs:73-80 | a new limiter has seen nothing |
| `RateLimits.RateLimiter.Use` | agent_core/src/rate.rs:209-228 | looks at own reservations first, then at those of others; honours one only in time and if unused, and remembers it |
| `RateLimits.RateLimiter.AllowInner` | agent_core/src/rate.rs:90-107 | decides about a request |
| `RateLimits.ReservationIsHonoured` | agent_core/src/rate.rs:90-115 | in every run, a record that comes back within two seconds of its reservation is admitted whatever the rate, exactly unless that reservation is known as used; in between anything may happen but a request for the record or a clock past the two seconds |
| `CellChunks.StreamDecodes` | bigtable/src/read.rs:375-458 | for every way of cutting rows into chunks, with abandoned starts ended by resets, decoding gives exactly the rows sent to their end |
| `CellChunks.CutStreamDecodes` | bigtable/src/read.rs:201-236 | a stream that breaks off anywhere gives a prefix of the rows, without panic |
| `CellChunks.EndsInRow` | bigtable/src/read.rs:231-234 | a row is active at the end of any chunks exactly if the last of them does not end one |
| `CellChunks.BareResetPanics` | bigtable/src/read.rs:379-398 | a reset panics exactly if it is not a full first chunk |
| `RowReads.ClampExact` | bigtable/src/read.rs:250-291 | the narrowed request asks for exactly the requested keys after the last one read |
| `RowReads.ClampValid` | bigtable/src/read.rs:290-343 | narrowing fails exactly if every key and the end of every range have been passed |
| `RowReads.RetainKeys` | bigtable/src/read.rs:263 | keeps the keys after the last one read |
| `RowReads.ClampRanges` | bigtable/src/read.rs:264-287 | drops passed ranges and moves the starts of the others |
| `RowReads.ClampRowset` | bigtable/src/read.rs:250-291 | narrows a request and checks it |
| `RowReads.Attempt` | bigtable/src/read.rs:201-236 | one attempt's loop: decode, drop duplicates, deliver; panics if the stream ends within a row |
| `RowReads.EndedAttempt` | bigtable/src/read.rs:231-234 | an attempt that is answered to its end panics there exactly if it has not succeeded, and one that breaks off does not panic |
| `RowReads.RetriedRead` | bigtable/src/read.rs:147-247 | at every point the first rows of the answer have been delivered, once each and in order; after success all of them, for forward and reversed reads |
| `RowReads.RetryAfterLastRowPanics` | bigtable/src/read.rs:293-302 | a read of one key that breaks off after its row has arrived cannot be retried |
| `MerkleTree.LookupAgrees` | agent_core/src/merkle.rs:31-57 | a lookup finds a record exactly if the tree holds one for the key, and finds that |
| `MerkleTree.PathIsDeepest` | agent_core/src/merkle.rs:31-57 | without a record, the path ends at the deepest node on the key's way |
| `MerkleTree.Read` | agent_core/src/merkle.rs:9-57 | the loop finds what the lookup specifies, and fails only if a node it needs is missing; no bits of the key are left at a leaf |
| `MerkleTree.OutermostIsExtreme` | agent_core/src/merkle.rs:72-134 | walking to one side ends at the smallest or largest key, and nowhere exactly if the tree is empty |
| `MerkleTree.ReadTreeSide` | agent_core/src/merkle.rs:72-134 | the walk gathers the bits of that key, or gives the end of the range for an empty tree, and its path is the way to the key it gives |
| `MerkleInsert.InsertIsUpdate` | hsm_core/src/merkle/insert.rs:18-130 | inserting keeps the tree well-formed and changes what it holds for the key and nothing else |
| `MerkleCanonical.Canonical` | hsm_core/src/merkle/testing.rs:64-105 | well-formed trees that hold the same records are the same, so the root hash depends on the records only |
| `MerkleProofs.ProofExact` | hsm_core/src/merkle/proof.rs:61-180 | a proof is accepted exactly if its path is the way to the key in the tree with that root hash, and then says truly what the tree holds; nodes built anew with a branch on the wrong side panic |
| `MerkleStore.NodesFollow` | hsm_core/src/merkle/insert.rs:27-130 | the nodes an insertion removes and adds turn the old tree's nodes into the new tree's |
| `MerkleStore.InsertRecord` | hsm_core/src/merkle/insert.rs:18-130 | nothing happens if the record has the value; otherwise replacing the last node and rolling up the path gives the new tree and exactly those nodes |
| `MerkleStore.StoreFollows` | hsm_core/src/merkle/insert.rs:126-130 | a store that holds exactly a tree's nodes holds exactly the new tree's after the delta |
| `MerkleStore.DeltaIsDifference` | hsm_core/src/merkle/insert.rs:18-130 | the delta of an insertion is exactly the difference between the nodes before and after |
| `MerkleStore.SquashedNodes` | agent_core/src/append.rs:89-94 | squashing a batch is right if and only if no node that is there before and after it is missing in between |
| `MerkleStore.SameNode` | hsm_core/src/merkle/testing.rs:64-105 | whether a node is in a tree depends on the records below it only |
| `MerkleStore.SquashedBatch` | agent_core/src/append.rs:89-94 | any batch written as one squashed delta leaves exactly the nodes of the tree with all records if and only if no record that changes has its first value again at the end |
| `MerkleStore.OrderDoesNotMatter` | hsm_core/src/merkle/insert.rs:18-130 | batches that leave the same records leave the same tree |
| `MerkleStore.ValueComesBack` | hsm_api/src/merkle.rs:189-200 | for every tree, changing a record and changing it back must not be squashed |
| `MerkleSplit.RangeSplitDivides` | hsm_core/src/merkle/split.rs:16-225 | splitting gives two well-formed trees, with exactly the records before the key and exactly those from it on |
| `MerkleSplit.SplitAlongPath` | hsm_core/src/merkle/split.rs:27-210 | going down, back up to the place to split and rolling both sides up gives the trees of the split |
| `MerkleMerge.CollectBranches` | hsm_core/src/merkle/merge.rs:46-70 | the loop over a path collects the branches off it and both of its last node, with full prefixes |
| `MerkleMerge.CollectSpread` | hsm_core/src/merkle/merge.rs:43-70 | the branches have prefixes of which none begins another, and together hold all records of the tree |
| `MerkleMerge.ApartAcross` | hsm_core/src/merkle/merge.rs:18-22 | with paths that lean to each other, this is so for the branches of both trees together |
| `MerkleMerge.ReduceBuilds` | hsm_core/src/merkle/merge.rs:82-137 | from sorted branches of which none begins another, never reading past a prefix, a well-formed tree with all their records is built |
| `MerkleMerge.ReduceFails` | hsm_core/src/merkle/merge.rs:82-137 | from sorted branches of which one begins another, a bit past the end of a prefix is always read, which panics |
| `MerkleMerge.AssembleExact` | hsm_core/src/merkle/merge.rs:72-151 | any branches in any order can be put together exactly if none begins another |
| `MerkleMerge.MergeAlongExact` | hsm_core/src/merkle/merge.rs:43-151 | with the ways to any two keys, there is a tree exactly if no branch off one way leads towards a record of the other tree, and it is always the same one |
| `MerkleMerge.MergeWithExact` | hsm_core/src/merkle/merge.rs:23-158 | for any two proofs: not adjacent, panic or merged, each by its exact condition |
| `MerkleMerge.LeaningMerges` | hsm_core/src/merkle/merge.rs:18-22 | with proofs that lean to each other, as they are read from the store, merging never panics |
| `MerkleMerge.NotLeaningPanics` | hsm_core/src/merkle/merge.rs:97 | there are trees and a proof that does not lean with which merging panics |
| `MerkleMerge.MergeTreesExact` | hsm_core/src/merkle/merge.rs:23-158 | with proofs that lean, trees merge exactly if their ranges are adjacent, in either order, into the tree for the joined range with the records of both |
| `MerkleMerge.SplitThenMerge` | hsm_core/src/merkle/split.rs:373-476 | merging the trees of a split, in either order, gives back the tree, hash included |
| `MerkleMerge.MergeThenSplit` | hsm_core/src/merkle/merge.rs:23-158 | splitting a merged tree where the right one started gives back both trees |
| `TreePartitions.SplitRepresents` | hsm_core/src/hsm/transfer.rs:214-256 | the trees of a split are the two parts of the partition that is split |
| `TreePartitions.MergeRepresents` | hsm_core/src/hsm/transfer.rs:420-444 | the tree of a merge is the merged partition, and there is one exactly if the partitions can be merged |
| `TreePartitions.SplitAsProved` | hsm_core/src/hsm/transfer.rs:207-256 | a request to give a part is done, or refused as missing, stale or invalid, by what the proof is; if done, the split tree stands for what goes and what is kept |
| `TreePartitions.MergeAsProved` | hsm_core/src/hsm/transfer.rs:383-444 | proofs for a merge are found right exactly if both are the ways to their keys and the ways are clear, and then the merged tree stands for the merged partition |
| `OwnershipTransfer.PrepareOutcome` | hsm_core/src/hsm/transfer.rs:18-116 | exactly when a transfer is prepared; then the group awaits the range under the new nonce, keeps what it owns, and can join both |
| `OwnershipTransfer.DivideIsExact` | hsm_core/src/hsm/transfer.rs:214-256 | one half of a split is always the range that goes, and the halves are the partition |
| `OwnershipTransfer.TransferOutOutcome` | hsm_core/src/hsm/transfer.rs:119-294 | giving takes exactly the ids of the range from the group; it panics exactly if it has to split a tree it does not have or with a malformed proof, and refuses the proof exactly if it is stale or wrong |
| `OwnershipTransfer.StatementOutcome` | hsm_core/src/hsm/transfer.rs:297-345 | a statement is made exactly about what the last entry gives, if the leader knows that to be committed and has changed nothing about it since |
| `OwnershipTransfer.TransferInOutcome` | hsm_core/src/hsm/transfer.rs:348-473 | the ranges can be joined whatever has happened since the transfer was prepared; it panics exactly if it has to merge into a tree it does not have, or with malformed or clashing proofs |
| `OwnershipTransfer.EndOutcome` | hsm_core/src/hsm/transfer.rs:476-582 | exactly when a transfer is completed or cancelled, which changes nothing that is owned |
| `OwnershipTransfer.WriteOutcome` | hsm_core/src/hsm.rs:1494-1561 | an application request changes one record of an id that the group owns; it panics exactly if the group owns the id and the leader lacks its tree |
| `TransferOwners.NextSeparate` | hsm_api/src/lib.rs:1418-1437 | after every orderly step, whichever leaders' entries come to be committed, no two groups own an id, and nobody owns what is being given except its receiver |
| `TransferRecords.NextSafe` | hsm_core/src/hsm/transfer.rs:248-274 | nor does an orderly step lose or change a record, whichever entries come to be committed |
| `TransferRecords.SafeInOnePlace` | hsm_api/src/lib.rs:1418-1437 | and then every id is in exactly one place, owned or being given |
| `TransferExact.OrderlyIsExact` | hsm_core/src/hsm/transfer.rs:118-529 | a step leaves every id in one place with its record, whichever entries come to be committed, exactly if it is orderly |
| `TransferExact.OneOwner` | hsm_api/src/lib.rs:1418-1437 | a run with any requests to any leaders, replaced or not, any commits and changes of leader keeps every id in exactly one place all the time exactly if its steps are orderly |
| `TransferStatements.FreshIsOrderly` | hsm_core/src/hsm/transfer.rs:376-418 | a statement that a leader would accept now is backed by a group that gives exactly that partition, whatever comes to be committed |
| `TransferStatements.CarefulIsOrderly` | hsm_core/src/hsm/transfer.rs:297-473 | so if statements come from leaders that have not been replaced, ranges need not be watched when they are taken |
| `TransferTrees.PanicIsExact` | hsm_core/src/hsm/transfer.rs:214-444 | a request panics exactly if it needs the tree and the leader lacks it or the proofs are malformed or clash |
| `TransferTrees.TreeAfter` | hsm_core/src/hsm.rs:309 | a leader lacks the tree of what it owns exactly if it has refused a proof and has owned something ever since |
| `TransferTrees.PanicFreeIsExact` | hsm_core/src/hsm/transfer.rs:214-444 | a run is free of panics exactly if no leader is asked for what needs the tree after it has refused a proof, for as long as it owns anything, and no proofs are malformed or clash |
| `TransferTrees.RetriedProofPanics` | hsm_core/src/hsm/transfer.rs:228-246 | wherever a split is refused because of a stale proof, asking again with any proof panics |
| `DisorderlyTransfers.RetryPanics` | agent_core/src/transfer.rs:230-234 | there is an orderly run, of no more than preparing, after which that happens |
| `DisorderlyTransfers.TransferMoves` | cluster_core/src/transfer.rs:63-143 | asked in order, the groups move a range |
| `DisorderlyTransfers.TwoOwners` | hsm_core/src/hsm/transfer.rs:318-343 | a group that gives a range on too early can get it again: two groups own all ids |
| `DisorderlyTransfers.LostRange` | hsm_core/src/hsm/transfer.rs:497-518 | a transfer completed before the range has arrived leads to where nobody owns or gives any id |
| `DisorderlyTransfers.ReplacedLeader` | hsm_core/src/hsm/transfer.rs:318-343 | a replaced leader that does not know makes a statement after its transfer was completed, and two groups own all ids though all before was in order |
| `StoreDeltas.SquashExact` | hsm_api/src/merkle.rs:189-200 | squashing two deltas is applying both if and only if no key is added after being removed, or removed after being added although stored |
| `StoreDeltas.SquashValid` | hsm_api/src/merkle.rs:158-169 | adds and removes stay disjoint if and only if the second delta adds nothing the first removes |
| `StoreDeltas.SquashAllIsSequence` | hsm_api/src/merkle.rs:189-200 | for any number of deltas that add fresh keys, squashing and applying once is applying each |
| `StoreDeltas.SquashAllTracks` | hsm_api/src/merkle.rs:193-200 | for deltas that are differences, the squashed delta adds the keys that are there in the end and removes those there in the beginning, of those that were missing at some time |
| `StoreDeltas.SquashAllExact` | hsm_api/src/merkle.rs:189-200 | for any number of such deltas, squashing is applying each if and only if no key that is there in the beginning and the end was missing in between |
| `StoreDeltas.SquashInto` | hsm_api/src/merkle.rs:193-200 | the squashing loop |
| `StoreDeltas.Build` | hsm_api/src/merkle.rs:229-237 | a built delta has adds and removes apart |
| `StoreDeltas.BuildApplies` | hsm_api/src/merkle.rs:229-237 | applying it removes first and adds then |
| `NodeHashes.PackHolds` | bitvec/src/lib.rs:138-147 | the packed bits of a prefix can be read back |
| `NodeHashes.BranchInjective` | hsm_core/src/merkle.rs:300-306 | branches are hashed from the same bytes only if prefix and hash are the same |
| `NodeHashes.HashInputInjective` | hsm_core/src/merkle.rs:261-306 | nodes are hashed from the same bytes only if kind, key or range, value and branches are the same, a missing branch being different from any other |

## Left out

- Agreement.CommitsAgree: requires that jumps are safe; that is necessary for the invariant (JumpIsExact) and a run without it forks, but it is not shown which unsafe jumps can be continued to a fork.
- RateLimits.HonouredOnce: is about one node; a reservation may be honoured on two nodes before they have told each other.
- AppendPipeline.PipelineSafe: covers one term of leadership; tasks that outlive it are not modelled.
- Cryptography: MACs and hashes are free terms, and sessions, encryption and statements of other kinds are not modelled.
- Several groups and realms on one HSM, membership checks and configuration errors: they select which group's state a request is about.
- TransferStatements.CarefulIsOrderly: its condition is sufficient only; the exact one is that of TransferExact.OneOwner.
- The nodes that splits and merges add to and remove from the store.
- The tree overlay that brings slightly old proofs up to date.
- The application requests (register, recover, delete) and their records: a log entry's payload is a number.
- Overflow of log indexes past 2^64 in the HSM, where the source panics.
- Row limits of Bigtable reads, and the I/O, RPC, retry timing, discovery, leases, metrics and command-line code.
