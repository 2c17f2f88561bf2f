# Nori bridge head, in Dafny

A model of the parts of the Nori bridge head that decide what is proven and in which order, with proofs
about every input and every interleaving. The story joins up: a queue entry on Ethereum becomes exactly one
leaf of exactly one committed root; the host prepares only windows the guest accepts, and misses none that
makes validated progress over a ready queue; and the pipeline proves one window at a time, each starting at a
state it was given or one proven before, with a single exception, which is described below and exhibited.

| module | models |
|---|---|
| `ByteCodec`, `ProofOutputsCodec` | big- and little-endian encodings; the 220-byte public output |
| `RequestLeaf` | packing a request into four field elements and hashing it |
| `MerkleTree`, `MerkleAlgorithms`, `MerkleBinding` | the padded tree: reference, in-place fold, layered build, paths, and what a root binds |
| `ChainState`, `QueueVerifier` | storage layout, chain state, and the guest's queue verifier |
| `WitnessAssembler`, `PublishedRequests` | the host's witness assembler and the published request list |
| `QueueRuns` | chained updates over an append-only queue |
| `Consensus` | guest program, dry run, store hashing, chains of proofs |
| `Transitions` | what those programs mean: chains of verified updates, stated in terms of the light client alone |
| `WindowPreparation` | the host's preparation of a window, from dry run to prepared inputs, and a worker's proof of it |
| `Windows`, `Detector`, `DetectorHistory`, `BridgeHead`, `Pipeline` | the actors as state machines over their channels, apart and joined |
| `HeadMotion` | how proofs move the bridge head, over every run of the joined actors |
| `Histories`, `StagingRun` | runs written down; runs of the joined actors that show the exception and a head moving backward |
| `EndToEnd` | staged windows as chains of proofs; the components joined through the public outputs |
| `ToyWorld` | a world in which all hypotheses hold together |

## Hypotheses

Library code is a parameter, and what is assumed of it is a named predicate in the theorem that needs it.

- Poseidon, keccak and SHA-256 are arbitrary functions. None is assumed injective: binding results say "equal,
  or here is a collision" and compute the collision.
- `ChainState.AcceptanceIsTrueLookup`: a claim `verify_proof` accepts, of presence or of absence, is true. The
  comment at the head of `nori-program/src/mpt.rs` lists defects of the trie library against this; the
  theorems are about the code above the library.
- `ChainState.EncodingsAreInjective`: RLP encodings of words and of accounts are injective.
- `ChainState.Commits`: the state root's tries hold the chain's accounts and non-zero words (Appendix D of the
  Ethereum Yellow Paper); mapping locations follow "Mappings and Dynamic Arrays" in the Solidity documentation
  of the storage layout.
- `WitnessAssembler.Honest`: the RPC provider answers EIP-1186 requests within the retries, truthfully and with
  proofs that verify. What it reports for an absent account is left open.
- `Consensus.SelfDelimiting` and `Consensus.OnlyNewerHeaders`: each encoded part of the store tells where it
  ends; applying an update keeps the finalized header or replaces it by a newer one.
- `Detector.Prepares`: a prepared window starts where it was asked to and ends strictly later. The contract of
  `WindowPreparation.PrepareWindow` gives it for what the host prepares, as it gives the soundness
  `EndToEnd.StagedWindowEndsProofChain` asks of the actor's replies.
- `Pipeline.CommitsItsWindow`: a worker's proof commits the output its job was staged with.
  `WindowPreparation.ProveWindow` gives it for every window the host prepares, provided the proof's public values
  are those of the guest run on the job's own inputs.

`ToyWorld` exhibits a library, a chain with an entry waiting in its queue, a provider and a light client for which
these hypotheses hold together, a window that can be prepared there and a settled chain of one proof.

A zero table passed to the tree algorithms holds the zero hashes of each height, as its generator computes them.
A channel's queue holds what was sent and not received, including what a blocked sender waits to send, so the
bounded channels of the program are a special case; where a bound matters it is proved.

## Where the code falls short of what one would expect

Each item names the exact condition, proved for every run or input, and a case in which it fails.

- The in-place fold returns zero for an empty vector at any depth. That is the reference root exactly when the zero
  table's entry for the depth is zero (`MerkleAlgorithms.FoldMerkleLeft`, `MerkleTree.EmptyTreeIsZeroHash`), as it
  is at the computed depth; `MerkleTree.EmptyTreeNeedNotBeZero` gives a hash and a depth where it is not.
- The observer stages its cached next window on a proof when the slots agree; store hash and cursor may differ. The
  staged window is contiguous exactly when the cached window's start equals the proven output
  (`Pipeline.ProofStagesByTheSlot`). While no job has failed it at least starts at a root or a proven end
  (`Pipeline.NoFailureNoGap`); `StagingRun.UnprovenStartIsStaged` is a run, real when a batch is full, in which a
  job failed and it starts at neither.
- A proof sets the head whether or not it is ahead. It raises the head exactly when its output slot exceeds the
  observer's current slot (`HeadMotion.ProofMovesHead`), which it must when its window was staged from a start at or
  beyond the head (`HeadMotion.StagedProofRaisesHead`). `StagingRun.HeadMovesBack` is a run in which the head goes
  from slot 128 to slot 96.
- A fresh result that shows progress is accepted exactly when no stale mark stands (`Detector.RunsAcceptExactly`).
  An error result leaves the mark standing, so the next result can be fresh and dropped
  (`Detector.FreshResultDropped`).
- Accepted progress is emitted exactly when a next window, if there is one, ends beyond the slot accepted before
  (`Detector.RunsAcceptExactly`); `Detector.ProgressWithheld` is a run in which it is not.
- The job-created notice carries the output slot of the last finality change: the staged window's own exactly when
  the two are equal (`BridgeHead.JobNoticeSlot`). The observer's handling of the started notice copies slot and store
  hash but not the cursor, so until the first proof its head is right exactly when the starting cursor is zero
  (`BridgeHead.StartedCursor`). `BridgeHead.NoticesDisagree` is a run in which both are wrong.
- The list published beside a proof takes the first match for a slot, the guest the last. For an accepted witness they
  agree exactly when every first match is the chain's value (`PublishedRequests.PublishedExactly`), as in every
  witness the host builds (`PublishedRequests.PublishedListIsCommitted`); `ToyWorld.AcceptedButPublishedWrongly` has
  accepted witnesses, not built by the host, for which they do not.

## Model

| member | source | states |
|---|---|---|
| RequestLeaf.PackingIsTotalAndInvertible | nori-hash/src/merkle_poseidon_fixed.rs:465-499 | for every request the four little-endian values are below 2^248, hence below the field order, so packing never fails, and the 117 bytes are recovered from the four fields |
| RequestLeaf.PackedValues | nori-hash/src/merkle_poseidon_fixed.rs:465-499 | the four fields as numbers: the target's bytes, then key count and leading bytes at weight 256^20, and the rest of each word, with nothing from padding |
| RequestLeaf.UnpackingIsInvertible | nori-hash/src/merkle_poseidon_fixed.rs:465-499 | every four fields, the first below 2^192 and the others below 2^248, are the packing of the request they unpack to |
| RequestLeaf.PackedInRange | nori-hash/src/merkle_poseidon_fixed.rs:465-499 | the packed fields meet those bounds |
| RequestLeaf.HashRequestLeaf | nori-hash/src/merkle_poseidon_fixed.rs:515-530 | hashing a request leaf never fails |
| RequestLeaf.LeafIsHashOfFields | nori-hash/src/merkle_poseidon_fixed.rs:515-530 | the leaf is the hash of the one list of fields in range that spells the request |
| MerkleTree.DepthAndSizeAreLeast | nori-hash/src/merkle_poseidon_fixed.rs:75-84 | the padded size is the least power of two that holds the leaves, the depth its exact logarithm, and the depth is within the maximum exactly for batches within the maximum |
| MerkleTree.SubtreeIsNode | nori-hash/src/merkle_poseidon_fixed.rs:933-948 | the recursive offset-and-size reference equals the node-by-height form for every height and position |
| MerkleTree.SmallestTrees | nori-hash/src/merkle_poseidon_fixed.rs:933-948 | the reference on no, one, two and three leaves: zero, the leaf, left before right, and a zero for the missing fourth |
| MerkleTree.DummyNode | nori-hash/src/merkle_poseidon_fixed.rs:144-162 | every node at or beyond the count of live nodes, halved rounding up per level, is the zero hash of its height |
| MerkleTree.FastParentIsNode | nori-hash/src/merkle_poseidon_fixed.rs:152-168 | the zero-table shortcut at index depth + 1 - level is exact |
| MerkleTree.PathClimbsToRoot | nori-hash/src/merkle_poseidon_fixed.rs:397-447 | every position below the padded size, dummies included, climbs to the root along its sibling path |
| MerkleAlgorithms.FoldLevel | nori-hash/src/merkle_poseidon_fixed.rs:152-168 | one level folded in place: each parent is computed from the layer as it was, although parents overwrite its left half |
| MerkleTree.EmptyTreeIsZeroHash | nori-hash/src/merkle_poseidon_fixed.rs:131-134 | the reference tree over no leaves at any depth is the zero hash of that depth, not zero |
| MerkleAlgorithms.FoldMerkleLeft | nori-hash/src/merkle_poseidon_fixed.rs:125-172 | the in-place fold returns the recursive reference root and leaves it in the first cell; an empty vector gives zero, which is the reference exactly when the table's entry for the depth is zero |
| MerkleAlgorithms.BuildMerkleTree | nori-hash/src/merkle_poseidon_fixed.rs:229-280 | every layer is the true one: padded leaves last, reference root first |
| MerkleAlgorithms.GetMerklePathFromLeaves | nori-hash/src/merkle_poseidon_fixed.rs:326-381 | the path collected while the vector is overwritten is the sibling path of the original leaves, except for an empty vector at a depth above zero |
| MerkleAlgorithms.GetMerklePathFromTree | nori-hash/src/merkle_poseidon_fixed.rs:383-395 | entry k is the sibling, in the layer k above the leaves, of the ancestor of the index |
| MerkleAlgorithms.TreePathIsSiblingPath | nori-hash/src/merkle_poseidon_fixed.rs:383-395 | the path read from a built tree is the sibling path of its leaves |
| MerkleAlgorithms.ComputeMerkleRootFromPath | nori-hash/src/merkle_poseidon_fixed.rs:430-447 | walking index bits by shifting computes the recursive climb |
| MerkleAlgorithms.FoldAndBuild | nori-hash/src/merkle_poseidon_fixed.rs:830-916 | for every leaf count, fold and build give the reference root |
| MerkleAlgorithms.MerkleLifecycle | nori-hash/src/merkle_poseidon_fixed.rs:722-755 | for every leaf vector and every index below the padded size, the path from folding equals the path from the tree and climbs to the root of both |
| MerkleBinding.FindTreeCollision | nori-hash/src/merkle_poseidon_fixed.rs:125-172 | two trees with an equal node agree on every leaf below it, or two different hash inputs with one hash are returned |
| MerkleBinding.FindLeafCollision | nori-hash/src/merkle_poseidon_fixed.rs:125-172 | leaf vectors of one length with one root are equal, or a collision is returned |
| MerkleBinding.FindPackingCollision | nori-hash/src/merkle_poseidon_fixed.rs:465-530 | request lists with equal leaves are equal, or two packed inputs collide |
| MerkleBinding.FindRequestCollision | nori-hash/src/merkle_poseidon_fixed.rs:430-530 | request lists of one length with one root are equal, or a collision is returned, through both tree levels and packing |
| MerkleBinding.FindPathCollision | nori-hash/src/merkle_poseidon_fixed.rs:430-447 | whatever leaf and path climb to a tree's root at an index are the tree's own, or a collision is returned |
| ProofOutputsCodec.ToBytes | nori-primitives/src/types.rs:146-162 | the buffer written in place holds each of the eleven named fields in its own byte range |
| ProofOutputsCodec.DecodedIsLaidOut | nori-primitives/src/types.rs:164-220 | decoding takes each named field from its own byte range |
| ProofOutputsCodec.DecodeEncoded | nori-primitives/src/types.rs:164-220 | decoding a buffer that holds a record's fields returns the record, for all field values |
| ProofOutputsCodec.EncodeDecoded | nori-primitives/src/types.rs:146-220 | every 220-byte buffer is the one encoding of the record it decodes to |
| ProofOutputsCodec.FromBytes | nori-primitives/src/types.rs:164-171 | decoding succeeds exactly on 220 bytes |
| ProofOutputsCodec.RoundTrip | nori-primitives/src/types.rs:313-323 | encoding in place and decoding gives the record back |
| ChainState.AddressWordRoundTrip | nori-primitives/src/storage_layout.rs:63-67 | an address survives its right-aligned storage word |
| ChainState.WordAddressRoundTrip | nori/src/rpcs/execution/http.rs:348-348 | reading a word's last 20 bytes as an address loses nothing exactly for words below 2^160 |
| ChainState.StructWordSlotsDiffer | nori-primitives/src/storage_layout.rs:47-61 | the words of one struct are at different locations, even where the addition wraps at 2^256 |
| ChainState.SlotOfIndex | nori-primitives/src/storage_layout.rs:31-33 | a slot index names the slot of that number, for every byte |
| ChainState.HeadIsSlotZero | nori-program/src/mpt.rs:318-323 | the queue's head is the word at the all-zero key |
| ChainState.EntryIsInSlotOne | nori-primitives/src/storage_layout.rs:35-61 | an entry is based at keccak of its index and slot 1, and word j follows at base plus j modulo 2^256 |
| ChainState.RequestIsSpelled | nori/src/rpcs/execution/http.rs:348-365 | target, slot key, key count and the two keys are the five words from the base on, in this order, and the value is what the target holds in that slot |
| ChainState.EntryWordsMeet | nori-primitives/src/storage_layout.rs:35-61 | word j of one entry and word m of another share a location exactly when the keccak hashes of two different 64-byte strings are m - j apart modulo 2^256 |
| QueueVerifier.WhatWordsProve | nori-program/src/mpt.rs:206-238 | zero is proven by absence of the hashed key, any other word by presence of its encoding |
| QueueVerifier.WhatAccountsProve | nori-program/src/mpt.rs:240-284 | a present account is proven by its encoding and gives its storage root; an absent one by absence, and gives the empty root |
| QueueVerifier.WordClaimIsPinned | nori-program/src/mpt.rs:206-238 | a word claim that verifies, zero or not, is the word the chain holds |
| QueueVerifier.AccountClaimIsPinned | nori-program/src/mpt.rs:240-284 | an account claim that verifies is the chain's, and yields the chain's storage root, the empty root for an absent account |
| QueueVerifier.CheckEntry | nori-program/src/mpt.rs:344-372 | an entry passes exactly when its five words verify at locations computed from its index; otherwise a failing location is named |
| QueueVerifier.CheckEntries | nori-program/src/mpt.rs:343-373 | all entries pass exactly when each verifies at the index it is offset to |
| QueueVerifier.InsertSlots | nori-program/src/mpt.rs:389-391 | inserting slots in order is the last-insert-wins lookup over targets and slots |
| QueueVerifier.IndexTargets | nori-program/src/mpt.rs:375-392 | all targets pass exactly when each account verifies, and the two maps are the last-insert-wins lookups |
| QueueVerifier.ResolveLeaf | nori-program/src/mpt.rs:396-426 | an entry resolves exactly when its target and slot are present and the slot verifies under the target's root; then the leaf is its request's |
| QueueVerifier.CollectLeaves | nori-program/src/mpt.rs:394-427 | one leaf per entry, in order, or a failing entry |
| QueueVerifier.FoldLeaves | nori-program/src/mpt.rs:429-446 | the depth error occurs exactly beyond the maximum batch; otherwise the reference root is committed |
| QueueVerifier.VerifyQueue | nori-program/src/mpt.rs:303-447 | success exactly on accepted witnesses, then the cursor past the batch and the reference root of one leaf per entry; every error names a check that fails, and the leaf-hash and depth errors never occur; cursor sums fit 64 bits |
| QueueVerifier.AcceptedWitnessIsChainState | nori-program/src/mpt.rs:286-302 | an accepted witness has the chain's head and exactly the requests read from chain state alone, from the cursor to the lesser of the head and a full batch on |
| QueueVerifier.AcceptedBatchSize | nori-program/src/mpt.rs:325-335 | an accepted batch is everything between cursor and head up to 65536 entries |
| QueueVerifier.EmptyBatchMeansCaughtUp | nori-program/src/mpt.rs:300-302 | an accepted batch is empty exactly when the cursor is at the chain's head, and then commits the zero root |
| QueueVerifier.LastRootAt | nori-program/src/mpt.rs:386-388 | the last record of a target is the one whose root counts |
| QueueVerifier.LastSlotOfAt | nori-program/src/mpt.rs:389-391 | the last slot listed for a target and key is the one that counts |
| QueueVerifier.AcceptedWitnessesAgree | nori-program/src/mpt.rs:289-293 | any two accepted witnesses for one state root, queue and cursor commit the same range and root |
| WitnessAssembler.FourAttempts | nori/src/rpcs/execution/http.rs:148-169 | a request is answered exactly when one of attempts 0 to 3 is |
| WitnessAssembler.RequestChunk | nori/src/rpcs/execution/http.rs:148-169 | one request fails exactly when its first attempt and all three retries fail, and otherwise gives the first answer |
| WitnessAssembler.GetProof | nori/src/rpcs/execution/http.rs:126-177 | for any key list and any chunk limit, zero included: it fails exactly when some chunk's request does, and the merged answer of an honest provider is a true answer for all keys in order |
| WitnessAssembler.AccountWitnessIsTrue | nori/src/rpcs/execution/http.rs:224-270 | the two-way account check finds the chain's own account, present or absent, whatever an absent account was reported as |
| WitnessAssembler.WordsAreValid | nori/src/rpcs/execution/http.rs:328-332 | collecting a true answer into a map proves every requested key, duplicates included |
| WitnessAssembler.EntryWordKeys | nori/src/rpcs/execution/http.rs:304-315 | key k is word k mod 5 of the entry at the cursor plus k div 5 |
| WitnessAssembler.ReadEntryExactly | nori/src/rpcs/execution/http.rs:343-365 | an entry is read exactly when its five words are there and its key count fits a byte |
| WitnessAssembler.HonestEntryVerifies | nori/src/rpcs/execution/http.rs:343-365 | on true words of a well-formed entry, the entry read passes the guest's entry check |
| WitnessAssembler.ReadEntries | nori/src/rpcs/execution/http.rs:340-371 | every entry's target and slot is listed, no slot key twice, and on true well-formed words all entries verify |
| WitnessAssembler.ReadTarget | nori/src/rpcs/execution/http.rs:376-407 | the record lists exactly the requested keys; from an honest provider its account and every slot verify |
| WitnessAssembler.ReadTargets | nori/src/rpcs/execution/http.rs:373-408 | in any iteration order: distinct target addresses, distinct slot keys, every listed target covered |
| WitnessAssembler.ReadQueue | nori/src/rpcs/execution/http.rs:279-425 | with an honest provider, a ready queue and any chunk limit the witness is accepted by the guest; a cursor ahead of the head is refused; targets and slot keys are distinct whatever the provider answers |
| WitnessAssembler.AcceptedQueueIsReady | nori-program/src/mpt.rs:295-298 | an accepted witness shows a ready queue: it exists, its head is not behind the cursor, every entry of the batch is well formed |
| WitnessAssembler.AssembleWitness | nori/src/rpcs/execution/http.rs:279-425 | host completeness, exactly: with an honest provider the assembled witness is accepted if and only if the queue is ready, and so if and only if any witness at all is |
| WitnessAssembler.AssembledWitnessAccepted | nori-program/src/mpt.rs:394-410 | verified entries whose slots are covered by proven targets resolve through the guest's maps |
| PublishedRequests.FirstTargetAt | nori/src/bridge_head/api.rs:356-360 | the search for a target stops at its first record |
| PublishedRequests.FirstSlotAt | nori/src/bridge_head/api.rs:361-367 | the search for a slot stops at the first with its key |
| PublishedRequests.UnlistedIsZero | nori/src/bridge_head/api.rs:356-369 | what no record lists is published as zero |
| PublishedRequests.PublishedListIsCommitted | nori/src/bridge_head/api.rs:347-370 | with distinct targets and slot keys the first-match list is the list the guest committed and folds to the same root |
| PublishedRequests.PublishedExactly | nori/src/bridge_head/api.rs:347-370 | the published list of an accepted witness is the committed one exactly when every first-match search finds the value the chain holds |
| ToyWorld.AcceptedButPublishedWrongly | nori/src/bridge_head/api.rs:347-370 | on accepted witnesses that list one slot several times, the published list is the committed one exactly when the first listed value is the true one |
| PublishedRequests.PublishedListIsChainState | nori/src/bridge_head/api.rs:347-370 | the published list of an accepted host-built witness is the chain's own |
| PublishedRequests.ProveBatch | nori/src/rpcs/execution/http.rs:279-454 | assembling and verifying together: the cursor moves to the lesser of the head and a full batch on, and the published list is the chain's and folds to the committed root |
| QueueRuns.UpdateBounds | nori-program/src/mpt.rs:325-335 | one update moves the cursor to the lesser of the head and a full batch on |
| QueueRuns.SettledAtMostOnce | nori-program/src/mpt.rs:325-346 | over every run of chained updates no entry is settled twice |
| QueueRuns.SettledAtLeastOnce | nori-program/src/mpt.rs:325-346 | the ranges of a run leave no gap |
| QueueRuns.SettledByDeadline | nori-program/src/mpt.rs:332-346 | an entry i below the head proven at cursor c is settled within floor((i - c) / MAX_BATCH) + 1 updates |
| QueueRuns.SettledPath | nori-program/src/mpt.rs:394-446 | a settled entry's leaf is at its index less the update's input cursor and climbs to the committed root along a path of the tree's depth |
| QueueRuns.EntryBecomesOneLeaf | nori-program/src/mpt.rs:286-302 | over every run an entry enqueued before it becomes exactly one leaf of exactly one root, in time, with the words it was enqueued with |
| Consensus.SerializeStore | nori-hash/src/helios.rs:4-33 | the buffer grown part by part is the concatenation of the hashed fields with an optional tail, failing if a part fails |
| Consensus.StoreBytesDetermineStore | nori-hash/src/helios.rs:4-33 | equal serializations come from equal header, current committee and next committee, although the tail is optional |
| Consensus.ProcessUpdates | nori-program/src/consensus.rs:414-491 | hash check, update loop and finality update give the final store or the first failure |
| Transitions.StoreBytesMeaning | nori-hash/src/helios.rs:4-33 | the serialization is the header's encoding, then the current committee's, then the next one's if there is one; it fails exactly when a part cannot be encoded |
| Transitions.SucceedsExactly | nori-program/src/consensus.rs:414-491 | processing gives a store exactly when the input store hashes as given, every update verifies against the store the ones before it lead to, and the finality update verifies against the last and gives that store |
| Transitions.FailsAtExactly | nori-program/src/consensus.rs:454-463 | processing fails at update i exactly when that is the first that does not verify |
| Transitions.FailsFinallyExactly | nori-program/src/consensus.rs:465-491 | processing fails at the finality update exactly when all updates verify and it does not |
| Transitions.HashChainExactly | nori-program/src/consensus.rs:414-440 | a store that cannot be encoded and a store of another hash are refused, the latter with the hash it has |
| Transitions.DryRunMeaning | nori-program/src/consensus.rs:161-273 | the dry run reports values exactly when verified updates reach a store that has them, named in terms of the light client alone |
| Transitions.GuestMeaning | nori-program/src/consensus.rs:388-567 | the guest commits eleven values exactly when verified updates reach a store at a multiple of 32 under whose state root the queue witness is accepted, and the values are theirs |
| Transitions.NextCommitteeDecides | nori-program/src/consensus.rs:521-524 | the committed committee hash depends on the final store's next committee alone |
| Transitions.CommitteeHashBinds | nori-program/src/consensus.rs:521-524 | equal committee hashes come from equal next committees, two committees with one root, or a root of zero |
| Consensus.ConsensusProgram | nori-program/src/consensus.rs:161-273 | the dry run succeeds exactly when the final store exists, has an execution header and hashes, and reports its slots, hashes, state root and block number |
| Consensus.ConsensusMptProgram | nori-program/src/consensus.rs:388-567 | the guest succeeds exactly when the dry run does, the queue witness is accepted under the dry run's state root and the output slot is a multiple of 32; it commits the dry run's values; otherwise-good inputs at another slot give the checkpoint error; without an execution header or an accepted witness it names that, with the failing queue check |
| WindowPreparation.ValidateProgress | nori/src/rpcs/consensus/mod.rs:555-588 | validation passes exactly on a later output slot, a multiple of 32, with a next sync committee |
| WindowPreparation.DryRun | nori/src/rpcs/consensus/mod.rs:549-606 | a dry run is kept exactly when the consensus program succeeds and, under validation, progresses to a slot that bootstraps |
| WindowPreparation.AssembleInputs | nori/src/rpcs/execution/http.rs:279-454 | inputs come out only if the guest accepts them, with the cursor and consensus inputs asked for; with a trusted block exactly when the output slot is a checkpoint and the queue is ready |
| WindowPreparation.PrepareWindow | nori/src/rpcs/consensus/mod.rs:514-646 | a prepared window starts at the slot, store hash and cursor asked for, the guest accepts it, and the slot, store hash, cursor and block number it expects are those the guest commits; it proves exactly what was fetched and names the fetched store's block; under validation its proof commits a strictly later checkpoint slot and a non-zero next committee hash; with a trusted block it is prepared exactly when the dry run progresses, its slot bootstraps, the input has an execution header and the queue is ready |
| WindowPreparation.ProveWindow | nori/src/bridge_head/api.rs:229-395 | running the guest on a prepared window's inputs, encoding its outputs and handling them never fails, and the proof message carries the output registered when the job was staged |
| Consensus.LinkCollision | nori-program/src/consensus.rs:414-440 | across a link of store hashes the input slot is the previous output slot, or a SHA-256 collision is returned |
| Consensus.ChainCollision | nori-program/src/consensus.rs:414-567 | along a chain every proof starts at its predecessor's output slot, or a SHA-256 collision is returned |
| Consensus.SlotsNeverDecrease | CHANGELOG.md:276-300 | a proof's output slot is not below its input slot |
| Consensus.ChainSlots | nori-program/src/consensus.rs:529-532 | along every chain every output slot is a multiple of 32 and, absent a collision, slots never decrease |
| Detector.FinalityDetector.OnStage | nori/src/bridge_head/finality_change_detector.rs:443-459 | a staging message replaces the next window and marks a job in flight stale |
| Detector.FinalityDetector.OnAdvance | nori/src/bridge_head/finality_change_detector.rs:467-497 | an advance replaces the inputs, resets the accepted slot, marks a job in flight stale and drops a next window that starts there |
| Detector.FinalityDetector.TryStart | nori/src/bridge_head/finality_change_detector.rs:272-315 | a job is built from the inputs in force and the filtered next window |
| Detector.FinalityDetector.OnResult | nori/src/bridge_head/finality_change_detector.rs:506-585 | errors are dropped, stale results restart a job, and progress is accepted and emitted as specified |
| Detector.FinalityDetector.OnTick | nori/src/bridge_head/finality_change_detector.rs:594-599 | a tick starts a job only when none is in flight |
| Detector.ProcessJob | nori/src/bridge_head/finality_change_detector.rs:138-244 | exactly one result is sent on the solo, dual and every error path, a success exactly when every window asked for was prepared |
| Detector.MismatchIsUnreachable | nori/src/bridge_head/finality_change_detector.rs:542-550 | a result that is not stale has the slot, store hash and cursor in force |
| Detector.ChannelsHaveRoom | nori/src/bridge_head/finality_change_detector.rs:132-134 | jobs and results are only sent into empty channels of capacity one |
| Detector.StepKeepsInvariant | nori/src/bridge_head/finality_change_detector.rs:440-600 | every step of detector, actor and environment keeps the invariant |
| Detector.RunsKeepInvariant | nori/src/bridge_head/finality_change_detector.rs:440-600 | in every state of every run: one job or result outstanding exactly when in flight, fresh jobs match the inputs in force, the accepted slot is at least the input slot |
| Detector.RunsEmitSoundly | nori/src/bridge_head/finality_change_detector.rs:534-584 | every emission was computed from the inputs in force, ends beyond its input slot and the slot accepted before, next window included; between advances output slots strictly increase |
| Detector.RunsAcceptExactly | nori/src/bridge_head/finality_change_detector.rs:506-585 | in every run a prepared result is accepted exactly when no stale mark stands and it ends beyond the slot accepted before; it is emitted exactly when its next window, if any, does so too; a stale one starts a new job from the inputs in force |
| Detector.FreshResultDropped | nori/src/bridge_head/finality_change_detector.rs:515-533 | a run in which a result that answers the current job and shows progress is dropped because an error left the stale mark standing |
| Detector.ProgressWithheld | nori/src/bridge_head/finality_change_detector.rs:566-584 | a run in which accepted progress is not emitted |
| DetectorHistory.StaleExactly | nori/src/bridge_head/finality_change_detector.rs:443-533 | at every step of every run the stale mark is raised by a message received with a job in flight, lowered by any successful result, and otherwise kept |
| DetectorHistory.FreshAfterSuccess | nori/src/bridge_head/finality_change_detector.rs:523-585 | in every run, after a successful result, stale or not, with no message received since, the next success answers the inputs in force and is accepted exactly when it shows progress |
| DetectorHistory.InForceIsLastAdvance | nori/src/bridge_head/finality_change_detector.rs:467-497 | in every run slot, store hash and cursor in force are those of the last advance |
| DetectorHistory.NextIsLastStaged | nori/src/bridge_head/finality_change_detector.rs:443-497 | in every run the next window is expected where the last staging message said, until an advance reaches that slot |
| DetectorHistory.AcceptedSlotExactly | nori/src/bridge_head/finality_change_detector.rs:467-585 | in every run an advance resets the accepted slot, and nothing but an accepted result changes it otherwise |
| DetectorHistory.JobsAskForInputsInForce | nori/src/bridge_head/finality_change_detector.rs:272-315 | in every run a job is sent exactly by a tick with none in flight or a stale success, and asks for the inputs in force and for the expected next window unless it starts at their slot |
| BridgeHead.BridgeHead.StageTransitionProof | nori/src/bridge_head/api.rs:202-298 | a job is registered under the next id, its expected output goes to the detector, one notice is emitted |
| BridgeHead.BridgeHead.HandleProverSuccess | nori/src/bridge_head/api.rs:301-415 | the job is removed; public values of any length but 220 are an error with nothing emitted; otherwise a success notice and then the proof message with the decoded output state are emitted |
| BridgeHead.BridgeHead.HandleProverFailure | nori/src/bridge_head/api.rs:418-457 | the job is removed and the notice counts the jobs left |
| BridgeHead.BridgeHead.AdvanceHead | nori/src/bridge_head/api.rs:464-486 | the head moves and the detector and the observer are told |
| BridgeHead.BridgeHead.OnBeaconFinalityChange | nori/src/bridge_head/api.rs:489-521 | both windows are passed on and the next slot recorded |
| BridgeHead.Observer.OnTransitionProofSucceeded | nori/src/bridge_head/observer.rs:119-178 | advance, then stage a contiguous cached next window or raise the staging flag |
| BridgeHead.Observer.OnNotice | nori/src/bridge_head/observer.rs:180-275 | each notice updates caches and flag and sends as specified; the retry abort needs an empty cache |
| BridgeHead.StagedWindowFits | nori/src/bridge_head/observer.rs:145-271 | a window staged on a proof is the cached next window, starts at the proof's output slot and follows the advance; on a finality change it is the announced current window and lowers the flag; on a failure it is the cached current window; nothing else stages |
| BridgeHead.StepKeepsInvariant | nori/src/bridge_head/api.rs:584-658 | every step of bridge head, worker, observer and environment keeps the one-token invariant |
| BridgeHead.RunsKeepInvariant | nori/src/bridge_head/observer.rs:119-275 | in every state of every run exactly one token exists among started notice, staging flag, stage command, registered job, proof message and failure notice |
| BridgeHead.RunsProveOneAtATime | nori/src/bridge_head/api.rs:418-457 | at most one prover job is live, results find their job, failure notices say zero jobs are buffered and find a window to retry, nothing aborts, the command channel never exceeds its capacity of two |
| BridgeHead.CachesHoldLastAnnounced | nori/src/bridge_head/observer.rs:180-275 | in every run the observer's caches hold the windows of the last finality change received; a next window announced before is forgotten |
| BridgeHead.NextSlotIsLastFinality | nori/src/bridge_head/api.rs:513-517 | in every state of every run the bridge head's next slot is the output slot of the last finality change |
| BridgeHead.JobNoticeSlot | nori/src/bridge_head/api.rs:281-295 | in every run the job-created notice carries that slot, whatever window is staged |
| BridgeHead.StartedCursor | nori/src/bridge_head/observer.rs:186-197 | in every run, from the started notice to the first proof, the observer's head is the one started with exactly when that one's cursor is zero |
| BridgeHead.NoticesDisagree | nori/src/bridge_head/api.rs:281-295 | a run in which the notice's slot is not the staged window's and the observer's cursor is not the head's |
| Pipeline.StepKeepsInvariant | nori/src/bridge_head/api.rs:584-658 | every step of the joined system keeps both component invariants and the provenance of every window and head |
| Pipeline.RunsProveGroundedWindows | nori/src/bridge_head/api.rs:527-663 | over every interleaving of all actors: at most one live job, whose window is the one staged under its id; every emission is sound; every staged window starts at a root or where an earlier proven window ends, or else is a next window whose slot is one where an earlier proven window ends |
| Pipeline.ProofStagesByTheSlot | nori/src/bridge_head/observer.rs:140-178 | in every run a proof message carries a proven window's end; the observer advances there and stages the cached next window exactly when the slots agree, contiguous in store hash and cursor exactly when that window's start is the proven output |
| Pipeline.NoFailureNoGap | nori/src/bridge_head/observer.rs:145-152 | in every run, when all windows staged before it were proven, a staged window starts exactly at a root or at a proven end |
| StagingRun.UnprovenStartIsStaged | nori/src/bridge_head/observer.rs:145-152 | a run in which the window staged on a proof starts at the slot proven but at no root and no state ever proven |
| HeadMotion.ProofMovesHead | nori/src/bridge_head/observer.rs:133-143 | in every run the first command executed after a proof is received sets the head to the proof's output, and raises it exactly when that output's slot exceeds the slot the observer had |
| HeadMotion.StagedProofRaisesHead | nori/src/bridge_head/observer.rs:133-143 | in every run the proof of a staged window has that window's output and finds the head where it was at staging; it raises the head whenever the window was staged from a start at or beyond it |
| StagingRun.HeadMovesBack | nori/src/bridge_head/observer.rs:133-143 | a run in which a proof takes the head from slot 128 back to slot 96 |
| Pipeline.StagedWindowHasChain | nori/src/bridge_head/finality_change_detector.rs:368-370 | every staged window ends a chain of staged windows, proven or not, from a root, contiguous in slot, store hash and cursor |
| Pipeline.StagedWindowHasProvenChain | nori/src/bridge_head/observer.rs:119-178 | every staged window ends a chain from a root through proven windows, contiguous in slot, and in store hash and cursor except into a next window |
| Pipeline.RunsHaveProvenChains | nori/src/bridge_head/observer.rs:119-178 | in every state of every run each staged window has such a chain |
| Pipeline.StagedWerePrepared | nori/src/bridge_head/finality_change_detector.rs:138-244 | whatever holds of every window the validation actor's replies carry holds of every window staged in the run |
| EndToEnd.StagedWindowEndsProofChain | nori/src/bridge_head/api.rs:527-663 | in every run whose actor answers with soundly prepared windows, each staged window ends a chain of accepted guest proofs from a root, linked by store hash and by queue cursor |
| EndToEnd.FollowingSlotIsAsked | nori-program/src/consensus.rs:407-440 | a window that follows another is proven from the slot it was prepared for, although the guest reads its input slot from the store, or a SHA-256 collision is returned |
| EndToEnd.SettledChainIsRun | nori-program/src/consensus.rs:500-514 | accepted guest proofs linked by cursor are a run of chained updates |
| EndToEnd.QueuedEntryIsCommittedOnce | nori-program/src/consensus.rs:388-567 | on public outputs alone: an entry below the first proven head is covered by exactly one proof of a settled chain, in time, and its request is a leaf of the root that proof commits |
| EndToEnd.FindOutputCollision | nori-program/src/consensus.rs:549-561 | two accepted proofs with equal counts and roots commit the same requests, or a Poseidon collision is returned, with no hypothesis on tries |

## Left out

- Poseidon, SHA-256, keccak, RLP, trie proof and Helios internals: library code, taken as parameters with the hypotheses above.
- RPC plumbing: provider fallback, multiplexing, timeouts and delays between retries; the model has the one provider whose answers are used.
- Vector capacity: growing a vector is a move to a new buffer; a conversion that panics in the host (a key count above 255) is an error value.
- Error texts: reasons inside errors are dropped; which error, and the values it names, are kept.
- MerkleAlgorithms.FoldMerkleLeft: takes a zero table of any length above the depth rather than exactly seventeen entries; with fewer the program would index out of bounds.
- `usize` overflow of the next power of two, beyond 2^63 leaves, and `u64` overflow of the job counter: unreachable in practice.
- Bootstrapping a store and fetching updates (`nori/src/rpcs/consensus/mod.rs`, lines 339 to 430): network reads; what they return, the store brought up to the input slot included, is a parameter of the preparation.
- Fields of notices and proof messages that nothing in the model reads (timestamps, elapsed seconds, block numbers, roots), saved files, logging, prover configuration and SP1 proving.
- Channel closure and loop exit, that of a failed decoding included: a run may stop in any state, and every state of every run is covered. Job results in the state machine carry the decoded output.
- Deadlock freedom of the joined actors.
