# Gleipnir in Dafny

A model of Gleipnir, a two-phase (PREPARE/COMMIT) quorum chain whose state is a compressed sparse Merkle
tree, whose validators rotate keys, and whose blocks a light client re-verifies; with proofs of what the
parts promise and of what they promise together.

`dafny verify dfyconfig.toml` checks everything. The modules, from the ground up:

| file | models |
|---|---|
| `Smt.dfy`, `SmtTree.dfy` | the sparse Merkle tree: symbolic digests and their meaning; the mutable tree over its node store |
| `Chain.dfy`, `Batch.dfy` | entries, blocks, block hashes; batches of entries inserted into a tree |
| `Codec.dfy` | the signer bitmap with its compacted signatures, and the decoders of the pair |
| `Degraded.dfy` | degraded mode: the hysteresis and the trimmed block |
| `KeyRotation.dfy`, `Epochs.dfy` | rotation histories, active keys, and what a rotation can still change |
| `LightClient.dfy` | block verification against a trust anchor, rotation replay, forks |
| `Bus.dfy`, `Protocol.dfy`, `ProtocolSafety.dfy` | N engines on one in-memory bus as a transition system; safety of every run |
| `ProtocolSteps.dfy` | what each step of a cycle does to the entries, the chain and the tree of an engine |
| `ProtocolElection.dfy` | whom the engines of a run elect, and what follows from it |
| `ProtocolClients.dfy`, `ProtocolAnchors.dfy`, `ProtocolRuns.dfy` | which of the chains so produced a light client follows; which of the stored anchor proofs verify; runs for both sides of either |
| `ProtocolFinality.dfy` | how many validators may be silent for a block to be committed |
| `ProtocolKeys.dfy` | the same runs with rotations in them: every engine checks by the keys it holds at that moment |
| `Engine.dfy` | the single-node engine as a mutable object |
| `RateLimit.dfy`, `Quorum.dfy`, `Compliance.dfy` | the sliding-window limiter, the unordered quorum count, mandate compliance |

Cryptography is symbolic. A tree digest is a term (`Zero`, a leaf, a parent), a block hash is an injective
function of the hashed fields, a VRF proof is a term over its prover and input, and "this signature verifies" is a
parameter. Time, VRF outputs, liveness of peers and the outcome of `state.Apply` come in as parameters or as free
choices of a run.

In `Protocol.dfy` an event is one bus operation or one local computation of one engine, so a run is any
interleaving, with any wait timing out and any attempt abandoned. The theorems quantify over all event lists. Those of
`ProtocolSafety.dfy` hold whomever each engine takes for the leader. `ProtocolElection.dfy` adds the election: an
engine takes the validator with the lowest VRF output over its next index and root, given everyone's proof over these.
Each engine checks signatures by its own table of active keys, except in degraded mode, which looks at registered keys.
`ProtocolKeys.dfy` derives the tables from the rotations the engines record on the way, from which the theorems follow
for runs with rotations.

A light client follows every chain the engines produce, the exact condition being that the holder's signatures over
the blocks it led itself pass by its own keys (`LightClientFollowsElected`, `LiveFollows`). The client's rule for small
networks would refuse two or three validators under a MinValidators that small, and four or more below theirs
(`LightClientFollows`, `UnlabelledRun`). The engine takes 4 and cannot be configured otherwise, and then no network is
refused for its size (`ShippedCompatible`).

Where the code falls short of what one would expect of it, the model keeps the code, a lemma shows the
failing case, and another says exactly when the expectation holds:

- `Get` does not look at a leaf on the bottom level, while `Prove` does; it is wrong exactly for keys with a
  stored twin that differs in bit 0 alone (`GetIffNoTwin`), and every 32-byte key has such a twin (`TwinHidesKey`,
  `EveryKeyHasTwin`). Keys that share a path overwrite each other
  (`InsertExact`, `CollisionOrderMatters`); keys of one fixed length never do (`FixedLengthSeparated`).
- A leader that retries a cycle can end with a tree that is not the one its last block names, and with anchor proofs
  that do not verify against it (`StaleLeaderRun`, `RootMatchesLastBlock`, `AnchorVerifiesIff`). With two or more
  validators no engine can then be elected for the next index, and the chain has ended (`StaleHalts`, `HaltedRun`);
  as long as no engine is stale all stand at one root (`RootsAgreeIff`).
- Successive cycles share a key exactly when expiries increase (`ContinuityIff`), which `Validate` does not
  ask for: under any lead time and overlap it accepts a pair of rotations that leaves a gap (`AcceptedGap`,
  `GapReachable`). The documented old / both / new table holds exactly for disjoint windows (`TableIffDisjoint`).
- The rotations of a batch reach the block in flight exactly if the first of a validator is effective at once, which
  takes a lead time of zero, and all earlier windows are closed (`InFlightChangesIff`); synchronising a changed
  registered key reaches back until the first rotation expires (`CycleKeepsIff`).
- A light client replays a node's rotations exactly if each is as wide as its own fixed overlap, which the node's
  configuration may undercut (`ReplayAgrees`, `NarrowRotationLost`); otherwise it resolves other keys than the node in
  some cycle, unless earlier windows outlast each rotation it lost and the one after it (`ReplayKeysIff`).
- A well-formed block that marks a position past the validator set, its marks inside the set being good, makes
  `VerifyBlock` index out of range (`VerifyBlock`); if all its marks are past the set no signature is looked at first,
  and there is such a block for any validators and any signatures (`MarksPastTheSet`, `UnboundedMarksPanic`).
- The rule documentation in `pkg/chain/block.go:170-171` speaks of every window of MaxDeferralSec; a gap-free
  report only covers stretches of twice that less a nanosecond, and no shorter ones (`GapFreeBound`,
  `BoundTight`). Near the end of int64 the bucket loop wraps: then a bucket ends before it starts, or the loop does
  not end (`FitsIff`, `WrappedBucket`, `LoopEndsClosed`, `NeverEnds`).
- The limiter forgets an acceptance when `Cleanup` deletes a window another goroutine has just fetched, and
  only then (`UnsafeCleanForgets`, `LimitHolds`).
- The quorum count is exact for all lists iff no signature verifies under two keys (`ExactIffUnambiguous`).

## Model

| member | source | states |
|---|---|---|
| `ProtocolSafety.Agreement` | pkg/consensus/gossip.go:91-104 | In every interleaving, whoever each engine elects, two engines with a block at index i hold the same, correctly computed, block hash there. |
| `ProtocolSafety.Linkage` | pkg/consensus/prepare.go:101-148 | In every reachable state of every engine blocks are numbered from 0 and each names the previous block's hash, although no validator checks either field. |
| `ProtocolSafety.EveryBlockCertified` | pkg/consensus/commit.go:88-177 | Every committed block passes `verifyPrepareQuorum` on the engine that holds it, by the keys that engine holds for the cycle; in a network below MinValidators it is labelled and keeps one signature, otherwise it is labelled only if there is one validator. |
| `ProtocolSafety.RootMatchesLastBlock` | pkg/consensus/prepare.go:112-183 | Between attempts an engine's tree root is its last StateRoot iff it did not lead that commit in place of an own candidate with another root. |
| `ProtocolSafety.NoEntryLost` | pkg/consensus/engine.go:814-821 | On a bus, every hash `Enqueue` accepted is at all times in the pool or in a block some engine committed. |
| `ProtocolSafety.RunOk` | pkg/consensus/engine.go:620-825 | The protocol invariant (write-once linked candidates, certified finals, phases consistent with the bus) holds after every run. |
| `ProtocolSafety.LocalKeeps` | pkg/consensus/prepare.go:30-346 | Every step of PREPARE, COMMIT, commit and abort keeps the acting engine's and the bus's invariant and replaces no stored candidate. |
| `ProtocolSafety.FollowedHasSigned` | pkg/consensus/prepare.go:240-243 | In every run, an engine that votes for, checks or commits a candidate under another leader holds the stored candidate, and its first signature verifies for that leader by the keys the engine holds for the cycle. |
| `ProtocolSafety.UnsignedIsDropped` | pkg/consensus/prepare.go:206-248 | A follower goes on exactly if that signature verifies, the hash is right and the entries give the root; otherwise its tree is back at the snapshot, its batch retained, and nothing is published. |
| `ProtocolSafety.ProposeKeepsBus` | pkg/consensus/prepare.go:112-122 | Whichever candidate reaches a slot first, the stored candidates stay one linked chain. |
| `ProtocolSafety.FinaliseKeeps` | pkg/consensus/commit.go:33-77 | The B_final a leader publishes has the stored candidate's hashed fields, an exact certificate and the leader's signature. |
| `ProtocolSafety.FinaliseKeepsBus` | pkg/consensus/gossip.go:100-104 | Replacing the final of an index by one for the stored candidate keeps every candidate and every final as the invariant wants them. |
| `ProtocolSafety.CommitKeeps` | pkg/consensus/engine.go:738-765 | Committing appends a certified copy of the stored candidate of that index, or rolls back. |
| `ProtocolClients.LightClientFollows` | pkg/lightclient/service.go:246-378 | For any number of validators and any MinValidators: a client that resolves an engine's keys accepts the engine's chain iff it is empty, or size and MinValidators are compatible and every COMMIT signature verifies for the proposer. |
| `ProtocolClients.LightClientFollowsRun` | pkg/lightclient/service.go:362-376 | If no signature over a held block passes for another validator, the last condition is one on the run: the engine whose B_final was committed is the proposer of the stored candidate, and where that is the holder its signature passes by its own keys. `LightClientFollowsElected` discharges the first half. |
| `ProtocolClients.HeaderIff` | pkg/lightclient/service.go:300-313 | Label and signature count of committed blocks satisfy the client exactly in a compatible network. |
| `ProtocolClients.ShippedCompatible` | pkg/state/config.go:42 | Under the MinValidators of the default configuration every network is compatible. |
| `ProtocolClients.StateProposerIff` | pkg/consensus/commit.go:60-76 | The COMMIT signature of a held block is that of the engine recorded as its leader, and passes for the proposer under exactly that condition. |
| `ProtocolSteps.BeginTakesAll` | pkg/consensus/engine.go:586-686 | An attempt's batch has every hash the engine held and every hash of the pool; its quorum is that of the mode; an empty one may be counted and skipped. |
| `ProtocolSteps.BuildTakesPool` | pkg/consensus/prepare.go:108-202 | A candidate holds every hash of the pool once and only pool entries, names its place and its proposer, carries the proposer's signature, is labelled iff one signature is required, and its root becomes the tree's; an empty pool ends the attempt. |
| `ProtocolSteps.CollectCounts` | pkg/consensus/prepare.go:256-324 | An engine counts exactly the signatures that verify by its keys, its own from the candidate if it leads and the others from the bus, and goes on iff they are enough. |
| `ProtocolSteps.AdoptOutcome` | pkg/consensus/commit.go:88-126 | Whatever the bus holds, a follower takes up a final iff its hash is its own, the leader's COMMIT signature verifies and its certificate holds; otherwise the attempt is rolled back. |
| `ProtocolSteps.CommitOutcome` | pkg/consensus/engine.go:738-800 | Without `state.Apply` or a signature to keep, all but the mode is rolled back; otherwise the block is appended, its hashes are recorded and no longer retained, and nothing is pending. |
| `ProtocolSteps.DegradedCommit` | pkg/consensus/degraded.go:68-125 | Below the minimum a committed block keeps the first signature that verifies under a registered key, and without one there is no commit. |
| `ProtocolSteps.AbortRestores` | pkg/consensus/engine.go:690-732 | An abandoned attempt leaves tree, chain and records as before, retains the batch and counts. |
| `ProtocolSteps.EnqueueHolds` | pkg/consensus/engine.go:339-371 | Between cycles an accepted entry is pending and in the pool; within one nothing changes. |
| `ProtocolSteps.VoteIsSigned` | pkg/consensus/prepare.go:199-248 | Who built or follows a candidate publishes its signature over it, unless it has published one in the cycle. |
| `ProtocolSteps.RunOnce` | pkg/consensus/gossip.go:128-156 | In every run no signer has two signatures or two VRF proofs in a cycle. |
| `ProtocolElection.SelectProposerVRF` | pkg/consensus/triad.go:43-80 | Selects iff there is a proof of every validator over this very input; and then the first validator of lowest output. |
| `ProtocolElection.CollectedFrom` | pkg/consensus/prepare.go:55-69 | A collected proof is the engine's own or one its signer published. |
| `ProtocolElection.ElectsJoint` | pkg/consensus/triad.go:35-42 | In a reachable state an engine can elect only if all engines have reached its index, with the tree root it has there. |
| `ProtocolElection.StepElection` | pkg/consensus/prepare.go:36-100 | Every step by the election rule keeps: published proofs name the root their engine stood at, stored candidates are the leader's, and attempts and commits are under the leader of the index. |
| `ProtocolElection.RunElection` | pkg/consensus/engine.go:687-705 | So does every run. |
| `ProtocolElection.OneLeader` | pkg/consensus/triad.go:35-42 | In every run, whatever fails and is retried, all engines commit an index under one leader, and that is the proposer its block names. |
| `ProtocolElection.LightClientFollowsElected` | pkg/lightclient/service.go:246-378 | A client that resolves an engine's keys accepts its chain iff the chain is empty, or size and MinValidators are compatible and the engine's signature over the blocks it led itself passes by its own keys. |
| `ProtocolElection.RootsAgreeIff` | pkg/consensus/engine.go:642-650 | Two or more engines that have all reached an index stand there at one root iff none of them holds another tree than its last block names. |
| `ProtocolElection.StaleHalts` | pkg/consensus/engine.go:642-650 | If one of them does, no engine ever commits another block, however the run goes on. |
| `ProtocolRuns.StaleLeaderRun` | pkg/consensus/prepare.go:112-122 | In any network not below its minimum, whomever its VRF keys elect, and for any two distinct 32-byte hashes: an elected run after which the leader's tree root is not the StateRoot of the block it committed and its stored proof does not verify against it. |
| `ProtocolRuns.HaltedRun` | pkg/consensus/triad.go:35-42 | And with two or more validators no continuation of it commits a second block, on any engine. |
| `ProtocolRuns.FollowedRun` | pkg/lightclient/service.go:246-378 | In any such compatible network: an elected run with a non-empty chain clients accept. |
| `ProtocolRuns.UnlabelledRun` | pkg/lightclient/service.go:306-309 | What fixing the minimum at 4 prevents: with two or three validators and a minimum not above them, an elected run commits a block clients refuse. |
| `ProtocolRuns.SamplePlain` | pkg/state/config.go:42 | There are such networks of 4 to 16 validators under the shipped minimum. |
| `ProtocolRuns.AllVote` | pkg/consensus/prepare.go:206-248 | By induction on their number: all validators begin, prove, elect the same leader, and sign what it proposes. |
| `ProtocolFinality.SilentThirdRun` | pkg/consensus/commit.go:134-177 | In any network not below its minimum, for any m up to a third of the n validators, rounded down: a run in which exactly n - m sign, and exactly these commit, all the same block. |
| `ProtocolFinality.SilentMoreRun` | pkg/consensus/prepare.go:313-332 | With more than a third silent the leader gives up: no block anywhere, its tree and entries restored. |
| `ProtocolFinality.AllCommit` | pkg/consensus/commit.go:88-125 | By induction on their number: every voter checks the candidate again, adopts the leader's final and commits it. |
| `ProtocolKeys.LiveIsRun` | pkg/consensus/engine.go:655-675 | With a lead time of at least 1 and synchronisations that leave settled keys alone, a run in which every engine folds the rotations it knows into its keys as attempts begin is a run under one table, that of the keys held at the end. |
| `ProtocolKeys.FixedSteady` | pkg/consensus/key_rotation.go:52-55 | Synchronisations do so in every run if the set they take over is the one the engine was built with, as in the engine it always is (pkg/consensus/engine.go:106-118, pkg/state/apply.go:83). |
| `ProtocolKeys.LiveSettled` | pkg/consensus/key_rotation.go:161-181 | In such a run the keys of all cycles up to an engine's attempt counter never change again. |
| `ProtocolKeys.LocalAlike` | pkg/consensus/key_rotation.go:192-203 | A step of an engine depends on no keys but those of its next block index. |
| `ProtocolKeys.LiveAgreement` | pkg/consensus/gossip.go:91-104 | Agreement and linkage hold of these runs, whatever each engine knows and records. |
| `ProtocolKeys.LiveCertified` | pkg/consensus/commit.go:134-177 | Every held block passes `verifyPrepareQuorum` by the key state the holder has now, whatever was rotated since. |
| `ProtocolKeys.LiveStateIsLog` | pkg/consensus/key_rotation.go:161-181 | An engine's key state is the one its log of judged rotations gives. |
| `ProtocolKeys.LiveTrusted` | pkg/consensus/key_rotation.go:161-181 | In every run every rotation an engine has recorded was authorised by a key its recorded predecessors make active. |
| `ProtocolKeys.LiveRecords` | pkg/consensus/key_rotation.go:161-181 | A known rotation in the batch of a beginning attempt that is due when its turn comes is recorded, by the validator set synchronised then. |
| `ProtocolKeys.LiveFollows` | pkg/lightclient/service.go:246-503 | A client that replays the rotations an engine accepted, each as wide as its own overlap, accepts the engine's chain iff it is empty, or the network is compatible and the engine led no block with a key no longer active. |
| `ProtocolAnchors.RunSound` | pkg/consensus/engine.go:767-794 | After every run every tree is canonical over hashes, every candidate's root holds its entries, and every record has the proof of the tree the engine had built: the block's, or the own candidate's it led it in place of. |
| `ProtocolAnchors.StoredProofIff` | pkg/smt/smt.go:243-305 | A proof one tree gives verifies against another root iff the roots are equal, or the hash was missing and the other root is its lone leaf. |
| `ProtocolAnchors.AnchorVerifiesIff` | pkg/consensus/engine.go:767-794 | In every run every committed hash has a record, and it verifies against the block it names iff the engine had led no other candidate of its own there, or one of the same root, or the hash was not in that one and is alone in the block's tree. |
| `ProtocolAnchors.FollowerProofsVerify` | pkg/consensus/engine.go:767-794 | What an engine committed as a follower its record proves. |
| `GossipBus.MemoryBus.Publish` | pkg/consensus/gossip.go:61-65 | The pool holds the entry's hash besides those it held, and none is lost. |
| `GossipBus.MemoryBus.RemoveEntries` | pkg/consensus/gossip.go:75-85 | The pool loses exactly the entries with the given hashes. |
| `GossipBus.MemoryBus.Propose` | pkg/consensus/gossip.go:91-97 | The first proposal of a cycle is kept for good. |
| `GossipBus.MemoryBus.PublishFinal` | pkg/consensus/gossip.go:100-104 | The last final of a cycle is kept, and no other cycle is touched. |
| `GossipBus.MemoryBus.PublishSig` | pkg/consensus/gossip.go:128-137 | A signer's first signature of a cycle is appended, later ones are dropped. |
| `GossipBus.MemoryBus.PublishVRFProof` | pkg/consensus/gossip.go:147-156 | A signer's first proof of a cycle is appended, later ones are dropped, and none is lost. |
| `SoloEngine.Engine.RunCycle` | pkg/consensus/engine.go:620-825 | Commits iff the batch is not empty, both elections succeed, this node is alone or in degraded mode, its signature over the candidate hash verifies under an active key (and, where degraded mode must keep it, is not empty and verifies under the registered one), and `state.Apply` succeeds. Committed: one more block with exactly the batch's hashes, nothing pending; the block declares the peers and this node as proposer, carries the label, this node's signatures over its hash in both phases and, for distinct identities, a certificate of it alone. Aborted: tree, chain and anchor proofs as before, batch retained. Always: counter up by one, and the object invariant (tree holds exactly the anchored hashes, root is the last StateRoot, chain linked, stored proofs verify, no accepted hash lost). |
| `SoloEngine.Engine.SealedIsCertified` | pkg/consensus/commit.go:134-177 | For distinct identities `verifyPrepareQuorum` accepts such a block under the active keys. |
| `SoloEngine.Engine.Enqueue` | pkg/consensus/engine.go:339-371 | The answer is the first of the listed checks that fails; if none does the hash is pending. |
| `SoloEngine.Engine.Submit` | pkg/consensus/engine.go:884-917 | Accepts under the checks of `Enqueue` without the mandate; the ticket names the next block index and the entry is pending. |
| `SoloEngine.Engine.RunPreparePhase` | pkg/consensus/prepare.go:124-202 | Runs iff elected with a batch; the candidate holds the deduplicated batch, names the tree after inserting it and the previous block, and has the hash of exactly those fields. |
| `SoloEngine.Engine.SignCandidate` | pkg/consensus/prepare.go:184-332 | The hash is the candidate's, the only signature is this node's, kept iff it verifies, the bitmap marks its signer, and quorum is reached iff enough are kept. |
| `SoloEngine.Engine.RunCommitPhase` | pkg/consensus/commit.go:22-77 | A final exists iff quorum was reached; its hash is the candidate's, its COMMIT signature is over that hash, and its bitmap and payload encode the collected signatures. |
| `SoloEngine.Engine.Certify` | pkg/consensus/engine.go:690-735 | PREPARE twice and COMMIT give a final iff the batch, both elections, the own signature and a quorum of one allow it. |
| `SoloEngine.Engine.Attempt` | pkg/consensus/engine.go:668-748 | Succeeds iff the conditions above hold, and then the block, degraded rules applied, is ready to append: linked, hashed, and over a tree that holds exactly the chain plus the batch. |
| `SoloEngine.Engine.StoreProofs` | pkg/consensus/engine.go:767-794 | Every hash of the appended block gets a proof that verifies against the block's StateRoot. |
| `SoloEngine.Engine.Rollback` | pkg/consensus/engine.go:690-711 | The abort path restores the snapshot, retains the batch and keeps the invariant. |
| `Batch.DedupHashes` | pkg/consensus/prepare.go:133-142 | Deduplication keeps every hash exactly once, and only given entries. |
| `Batch.DedupFirst` | pkg/consensus/prepare.go:133-142 | Of each hash the first entry is kept. |
| `Batch.InsertAllContents` | pkg/consensus/prepare.go:176-183 | Inserting a batch adds exactly its hashes to what the tree holds and keeps it canonical. |
| `Batch.InsertAllTwice` | pkg/consensus/engine.go:690-735 | The second PREPARE run of a cycle leaves the root as the first did. |
| `Batch.WithoutHashes` | pkg/consensus/engine.go:750-762 | Filtering out committed entries removes exactly their hashes. |
| `Smt.HistoryRefinesMap` | pkg/smt/smt.go:96-174 | After any insertion history over separated keys the tree holds the final key-to-value map and is canonical. |
| `Smt.CanonicalRoot` | pkg/smt/smt.go:96-174 | Two histories give one root iff they give one map, whatever their order, repetition or overwriting. |
| `Smt.CanonicalRootIffMap` | pkg/smt/smt.go:101-174 | Canonical trees have equal roots iff they hold equal maps. |
| `Smt.FixedLengthSeparated` | pkg/smt/smt.go:85-94 | Distinct keys of exactly depth/8 bytes have distinct paths. |
| `Smt.InsertExact` | pkg/smt/smt.go:101-141 | Insertion is the map update iff no other stored key shares the new key's path. |
| `Smt.InsertCompact` | pkg/smt/smt.go:101-174 | Insertion keeps the compressed form: no chain above a lone leaf, empty sides are the zero digests. |
| `Smt.SplitContents` | pkg/smt/smt.go:143-174 | Splitting a leaf keeps both pairs, or the new one alone if the paths coincide. |
| `Smt.ZeroAtNotLive` | pkg/smt/smt.go:31-45 | No empty-subtree hash holds anything or is a stored node. |
| `Smt.ZeroAtComplete` | pkg/smt/smt.go:31-45 | zeroes[n] is the complete tree of height n over zero hashes, and nothing else is: every way down meets n parents and then the zero hash. |
| `Smt.EmptySidesComplete` | pkg/smt/smt.go:143-174 | Wherever nothing is stored below a canonical root stands the complete empty tree of the height left. |
| `Smt.CollisionOrderMatters` | pkg/smt/smt.go:143-174 | For keys sharing a path the root depends on the order of insertion. |
| `Smt.InsertCollides` | pkg/smt/smt.go:101-174 | Inserting a key whose path is taken changes nothing if the older leaf is on the bottom level, and otherwise replaces it; nothing else is touched. |
| `Smt.ProofExact` | pkg/smt/smt.go:285-305 | A proof verifies iff the map sends the key to the value and the proof is the one `Prove` returns. |
| `Smt.ProveComplete` | pkg/smt/smt.go:243-276 | `Prove` succeeds iff the key is present, bottom level included. |
| `Smt.GetExact` | pkg/smt/smt.go:209-234 | `Get` is map lookup except that it misses leaves on the bottom level. |
| `Smt.GetIffNoTwin` | pkg/smt/smt.go:209-234 | `Get` answers as the map does iff the key has no stored twin differing in bit 0 alone. |
| `Smt.TwinHidesKey` | pkg/smt/smt.go:209-234 | For any 32-byte twins: after inserting both, the map holds the first and `Get` does not find it. |
| `Smt.EveryKeyHasTwin` | pkg/smt/smt.go:85-94 | Every 32-byte key has a 32-byte twin. |
| `SmtTree.SparseMerkleTree.constructor` | pkg/smt/smt.go:31-45 | The empty tree, with the complete empty tree of every height below its depth. |
| `SmtTree.SparseMerkleTree.Insert` | pkg/smt/smt.go:96-99 | The new root is the digest of the insertion; the store stays closed under children and only grows. |
| `SmtTree.SparseMerkleTree.InsertAt` | pkg/smt/smt.go:101-141 | The recursive store update computes the insertion into the subtree and stores every live node of it. |
| `SmtTree.SparseMerkleTree.SplitAndInsert` | pkg/smt/smt.go:143-174 | The recursive split computes the two-leaf subtree and stores its nodes. |
| `SmtTree.SparseMerkleTree.Clone` | pkg/smt/smt.go:188-203 | A fresh tree with the same root, store and depth. |
| `SmtTree.SparseMerkleTree.Get` | pkg/smt/smt.go:209-234 | The lookup loop over the store agrees with the lookup `GetExact` characterises. |
| `SmtTree.SparseMerkleTree.Prove` | pkg/smt/smt.go:243-276 | The path loop collects the siblings bottom up, and succeeds iff the key is held. |
| `SmtTree.SparseMerkleTree.Verify` | pkg/smt/smt.go:285-305 | Against the current root: true iff the tree maps key to value and the proof is the one it gives. |
| `Codec.BuildBitmap` | pkg/consensus/prepare.go:326-332 | Bit i is set iff peer i has a valid signature; the length is ceil(N/8). |
| `Codec.CompactPayload` | pkg/consensus/commit.go:48-59 | The payload holds the marked peers' signatures at their ranks. |
| `Codec.CountBitsBefore` | pkg/consensus/commit.go:180-188 | The number of set bits before a position. |
| `Codec.BitmapSigners` | pkg/lightclient/service.go:549-566 | The set positions in order iff their number is the number of signatures. |
| `Codec.DecodersAgree` | pkg/consensus/commit.go:134-188 | Rank, running index and position list decode an encoded pair to the same validator-to-signature map, the one encoded. |
| `Codec.VerifyPrepareQuorum` | pkg/consensus/commit.go:134-177 | Accepts iff both fields are present, every marked peer has a good signature at its rank, and at least one is marked on a labelled block, at least two thirds of all on any other. |
| `Codec.QuorumIffFewSilent` | pkg/consensus/commit.go:134-177 | An unlabelled block with the good signatures of some validators passes iff no more than a third, rounded down, is missing. |
| `Chain.QuorumLeast` | pkg/consensus/prepare.go:510-512 | The required number is the least that is two thirds of the validators. |
| `Chain.QuorumIffThird` | pkg/consensus/prepare.go:510-512 | It is reached iff at most a third, rounded down, is missing. |
| `Codec.EncodedIsCertified` | pkg/consensus/prepare.go:313-332 | Enough valid signatures, encoded, pass `verifyPrepareQuorum`. |
| `Codec.SingleIsCertified` | pkg/consensus/degraded.go:79-122 | One marked peer with its good signature passes at quorum one. |
| `Degraded.HysteresisExact` | pkg/consensus/degraded.go:32-64 | Over any trace: degraded iff some observation was below the minimum and no run of max(1, grace) normal observations has completed since the latest one. |
| `Degraded.DipThenRecovery` | pkg/consensus/degraded.go:32-59 | After a dip below the minimum, whatever came before, exactly max(1, grace) observations of just the minimum with quorum end degraded mode. |
| `Degraded.LostQuorumRestarts` | pkg/consensus/degraded.go:45-57 | One observation without quorum on the way starts that count anew. |
| `Degraded.DegradedMode.CheckDegradedTransition` | pkg/consensus/degraded.go:32-59 | The mode is that of the trace extended by the observation; a transition is reported iff the mode changed. |
| `Degraded.DegradedMode.ApplyDegradedBlock` | pkg/consensus/degraded.go:68-125 | In degraded mode the block keeps the first verifying signature only, is labelled, and still passes the quorum check; otherwise it is untouched. |
| `Degraded.KeptIsCertified` | pkg/consensus/degraded.go:79-122 | The trimmed block is labelled, certified at quorum one and has the original hash. |
| `KeyRotation.ActiveShape` | pkg/validation/key_rotation.go:258-280 | The active set is [K_j] or [K_j, K_j+1], j the first rotation that has not expired. |
| `KeyRotation.ContinuousStep` | pkg/validation/key_rotation.go:249-280 | With increasing expiries the sets of successive cycles share a key. |
| `KeyRotation.ContinuityIff` | pkg/validation/key_rotation.go:249-280 | For distinct keys that sharing holds at every cycle iff expiries strictly increase. |
| `KeyRotation.GapWhere` | pkg/validation/key_rotation.go:258-280 | Where an expiry first fails to increase, two adjacent cycles share no key. |
| `KeyRotation.AcceptedGap` | pkg/validation/key_rotation.go:111-196 | Two accepted first rotations to new keys, the second not expiring later, leave two adjacent cycles without a common key. |
| `KeyRotation.GapReachable` | pkg/validation/key_rotation.go:111-196 | For any lead time, overlap and cycle there are two such rotations that `Validate` accepts. |
| `KeyRotation.TableIffDisjoint` | pkg/validation/key_rotation.go:249-280 | All three lines of the old / both / new table hold for every rotation and cycle iff the windows are disjoint. |
| `KeyRotation.OutsideWindows` | pkg/validation/key_rotation.go:258-280 | Between windows exactly one key is active. |
| `KeyRotation.LaterRotationInvisible` | pkg/validation/key_rotation.go:258-280 | A rotation changes no cycle before its effective one. |
| `KeyRotation.AppendVisibleIff` | pkg/validation/key_rotation.go:258-312 | A recorded rotation to a new key changes exactly the cycles from its effective one on at which all earlier windows have closed. |
| `KeyRotation.RecordVisibleIff` | pkg/validation/key_rotation.go:285-312 | The same of an accepted rotation and the submitter's active keys. |
| `KeyRotation.TailChangesIff` | pkg/validation/key_rotation.go:258-312 | Of several recorded rotations effective from a cycle on, only the first can change that cycle: iff it is effective in it and all earlier windows have closed. |
| `KeyRotation.KeptAgreesIff` | pkg/validation/key_rotation.go:258-280 | For distinct keys, leaving rotations out of a history changes no cycle iff each of them has a successor and earlier windows outlast both. |
| `KeyRotation.ResetVisibleIff` | pkg/validation/key_rotation.go:61-69 | A changed registered key changes exactly the cycles up to the expiry of the first recorded rotation. |
| `KeyRotation.AcceptKeepsWellTimed` | pkg/validation/key_rotation.go:165-196 | Accepted rotations keep every history ordered by effective cycle with no window ending before it begins. |
| `KeyRotation.AcceptsIff` | pkg/validation/key_rotation.go:111-196 | A node accepts exactly the rotations of registered validators that a key active in the cycle before they take effect and the incoming key have signed in full, that are labelled, sized, hashed, wide and early enough, and newer than all before. |
| `KeyRotation.RecordTrusted` | pkg/validation/key_rotation.go:285-312 | Recording such a rotation keeps every history a chain of trust from the registered key, and histories to registered validators. |
| `KeyRotation.KeyRotationValidator.constructor` | pkg/validation/key_rotation.go:48-57 | The registered keys and an empty history. |
| `KeyRotation.KeyRotationValidator.GetActivePublicKey` | pkg/validation/key_rotation.go:258-280 | The loop returns the active keys `ActiveShape` describes, none for a stranger. |
| `KeyRotation.KeyRotationValidator.VerifySignatureWithOverlap` | pkg/consensus/key_rotation.go:192-203 | True iff the signature verifies under some active key of the cycle. |
| `KeyRotation.KeyRotationValidator.Validate` | pkg/validation/key_rotation.go:111-196 | No error iff all five rules hold, and each error means its rule is broken. |
| `KeyRotation.KeyRotationValidator.VerifyAgainst` | pkg/validation/key_rotation.go:200-218 | True iff some given key verifies the old-key signature. |
| `KeyRotation.KeyRotationValidator.RecordRotation` | pkg/validation/key_rotation.go:285-312 | Records at the end iff newer than all before; otherwise nothing changes. |
| `KeyRotation.KeyRotationValidator.ValidateAndRecord` | pkg/validation/key_rotation.go:317-322 | Records exactly the rotations that validate. |
| `Epochs.ProcessKeyRotationEntries` | pkg/consensus/key_rotation.go:161-181 | Of the pending batch, those known rotation bodies that validate at the current cycle are recorded, in order, whether or not the attempt commits. |
| `Epochs.BodiesExact` | pkg/consensus/key_rotation.go:161-171 | Judged are, in batch order, the known bodies of the entries with the rotation label, and no others. |
| `Epochs.BodiesIff` | pkg/consensus/key_rotation.go:161-171 | A rotation is judged iff some labelled entry of the batch has its body. |
| `Epochs.FoldNext` | pkg/consensus/key_rotation.go:173-176 | A judged rotation joins its submitter's history iff it is due when its turn comes; other histories stay. |
| `Epochs.BatchRecords` | pkg/consensus/key_rotation.go:161-181 | One that is due is in the history once the batch is done, whatever stands after it. |
| `Epochs.BatchTrusted` | pkg/consensus/key_rotation.go:161-181 | A batch, whatever it holds, keeps all histories chains of trust. |
| `Epochs.ChainBehindCounter` | pkg/consensus/engine.go:655-670 | Over any run the chain is never longer than the attempt counter and only grows. |
| `Epochs.BatchKeepsPast` | pkg/validation/key_rotation.go:173-178 | With lead time at least 1, a batch changes no active key of the current or an earlier cycle. |
| `Epochs.CycleKeepsIff` | pkg/consensus/key_rotation.go:52-55 | With lead time at least 1, an attempt keeps the active keys of a committed or in-flight index iff its synchronisation of the validator set does: rotations never touch them. |
| `Epochs.KeysSettled` | pkg/consensus/engine.go:655-670 | Hence over any run whose synchronisations leave a validator's registered key alone (or come after its first rotation expired) those keys never change. |
| `Epochs.SameKeyUndisturbed` | pkg/consensus/key_rotation.go:52-55 | Registered keys that stay are never disturbed. |
| `Epochs.ReverifiesForever` | pkg/consensus/commit.go:134-177 | Hence the `verifyPrepareQuorum` answer for any such index never changes. |
| `Epochs.InFlightChangesIff` | pkg/validation/key_rotation.go:173-178 | A batch changes a validator's keys for the block in flight iff the first rotation it records for the validator is effective at that index and all earlier windows have closed; that takes lead time 0 and a chain as long as the counter. |
| `LightClient.AdmitRotation` | pkg/lightclient/service.go:467-503 | Records a rotation iff all rules but the lead time hold. |
| `LightClient.NewKeyResolver` | pkg/lightclient/service.go:423-446 | The resolver's state is the anchor's rotations admitted in order. |
| `LightClient.AdmitsIff` | pkg/lightclient/service.go:467-503 | A client admits exactly the rotations of trusted validators that a key active before they take effect and the incoming key have signed in full, hashed, wide enough and newer. |
| `LightClient.AdmitNext` | pkg/lightclient/service.go:423-446 | Of a list, each such rotation joins its submitter's history when its turn comes, and nothing else does. |
| `LightClient.ResolvedTrusted` | pkg/lightclient/service.go:423-503 | Whatever rotations an anchor carries, those a client uses are chains of trust from the trusted keys, and nobody outside the trusted set has any. |
| `LightClient.NodeTrusted` | pkg/validation/key_rotation.go:317-322 | A node's histories after any log of submissions are chains of trust. |
| `LightClient.AcceptedIsAdmitted` | pkg/lightclient/service.go:467-503 | What a node accepts the light client admits iff it is as wide as the client's overlap. |
| `LightClient.ReplayAgrees` | pkg/lightclient/service.go:423-516 | Replaying a node's accepted rotations gives the node's key state, so the same active keys for every validator and cycle, iff each of them is as wide as the client's overlap. |
| `LightClient.SmallerOverlapReplays` | pkg/lightclient/config.go:16-24 | Which holds whenever the client's overlap is not larger than the node's. |
| `LightClient.ReplayKeysIff` | pkg/lightclient/service.go:423-516 | Over any log, for distinct keys: client and node resolve a validator's keys alike in every cycle iff each rotation the client lost has a successor and earlier windows outlast both. |
| `LightClient.NarrowRotationLost` | pkg/lightclient/service.go:498-500 | For a single submission: after a narrower rotation client and node resolve different keys in some cycle. |
| `LightClient.CheckValidatorSet` | pkg/lightclient/service.go:524-540 | True iff lengths agree and every trusted identity is declared, whatever its key. |
| `LightClient.SameSetIsPermutation` | pkg/lightclient/service.go:524-540 | Then the declared identities are a permutation of the trusted ones. |
| `LightClient.CheckHeader` | pkg/lightclient/service.go:246-313 | No error iff all nine checks pass; otherwise the error names the first that fails, in the order of the code. |
| `LightClient.CheckSignatures` | pkg/lightclient/service.go:325-359 | Accepts iff every marked position carries a good signature of the trusted validator there; indexes out of range iff some marked position is past the set and all inside it are good. |
| `LightClient.VerifyBlock` | pkg/lightclient/service.go:246-378 | Accepts iff the block is acceptable, and then, for distinct trusted identities, it declares a permutation of them, version 2, a trusted proposer, the next place and its own hash; otherwise names the first check that fails or a bad signature; never "credited twice"; indexes out of range iff the block is well formed and its marks overrun the set, those inside being good. |
| `LightClient.MarksPastTheSet` | pkg/lightclient/service.go:334-339 | A well-formed block all of whose marks are past the set makes it index out of range, whatever the signatures. |
| `LightClient.UnboundedMarksPanic` | pkg/lightclient/service.go:334-339 | For any non-empty validator set, any keys and any eight signatures per validator there is such a first block. |
| `LightClient.WalkIndex` | pkg/lightclient/service.go:257-287 | On a chain walked from block 0 indices count up and hashes link. |
| `LightClient.WalkedEndorsed` | pkg/lightclient/service.go:278-293 | Every block of a walked chain is of version 2, declares a permutation of the trusted identities and names one of them as proposer. |
| `LightClient.SameHashSamePrefix` | pkg/lightclient/service.go:257-287 | Walked chains that agree at an index agree at every earlier one. |
| `LightClient.AcceptedHasQuorum` | pkg/lightclient/service.go:295-359 | An accepted block carries, each at its signer's mark, signatures over its hash by at least the required number of distinct validators. |
| `LightClient.ForkAccountability` | pkg/lightclient/service.go:246-378 | With N >= 4 distinct validators, where two walked chains differ the two blocks themselves carry signatures of at least ceil(N/3) common validators, each over either hash. |
| `RateLimit.SubmitterLimiter.constructor` | pkg/consensus/ratelimit.go:22-28 | No windows, no acceptances. |
| `RateLimit.SubmitterLimiter.Allow` | pkg/consensus/ratelimit.go:30-60 | Accepts iff fewer than the limit were accepted in (now - W, now] of the full log, and keeps every span of length W within the limit. |
| `RateLimit.SubmitterLimiter.Cleanup` | pkg/consensus/ratelimit.go:62-82 | Drops expired times and empty windows and keeps what every later decision needs. |
| `RateLimit.Prune` | pkg/consensus/ratelimit.go:46-52 | Keeps exactly the times after the cutoff, in order. |
| `RateLimit.AcceptKeepsLimit` | pkg/consensus/ratelimit.go:54-59 | Accepting below the limit keeps every span of the window's length within it. |
| `LimiterSteps.LimitHolds` | pkg/consensus/ratelimit.go:30-82 | Any threads, Cleanup at any time, the two locks of `Allow` taken apart: unless `Cleanup` deletes a window that is fetched but undecided, the log is remembered and no span exceeds the limit. |
| `LimiterSteps.AttachedDecideExact` | pkg/consensus/ratelimit.go:40-59 | A decision on the current window is the one the full log calls for, and is remembered. |
| `LimiterSteps.DetachedDecideForgets` | pkg/consensus/ratelimit.go:40-59 | A decision on a deleted window is forgotten iff it grants and the window length is positive. |
| `LimiterSteps.StepAttached` | pkg/consensus/ratelimit.go:78-80 | Fetched windows stay current iff the step is not such a deletion. |
| `LimiterSteps.UnsafeCleanForgets` | pkg/consensus/ratelimit.go:69-82 | After such a deletion the pending request is granted and forgotten. |
| `LimiterSteps.TwoGrants` | pkg/consensus/ratelimit.go:30-82 | A concrete run: limit one per ten, two grants one tick apart. |
| `Quorum.VerifyQuorum` | pkg/consensus/quorum.go:20-47 | Success always means enough distinct signers; if no signature is ambiguous, success iff the config is valid and enough distinct non-empty keys signed. |
| `Quorum.GreedySound` | pkg/consensus/quorum.go:25-41 | The greedy pass uses only keys that signed. |
| `Quorum.GreedyExact` | pkg/consensus/quorum.go:25-41 | Without ambiguous signatures it uses all of them. |
| `Quorum.ExactIffUnambiguous` | pkg/consensus/quorum.go:25-41 | It is exact on every input iff no signature verifies under two keys. |
| `Quorum.OrderIrrelevant` | pkg/consensus/quorum.go:14-19 | Order and duplication of signatures and keys do not matter. |
| `Compliance.BucketCount` | pkg/validation/compliance_checker.go:212-220 | Exactly ceil((end - start) / step) buckets. |
| `Compliance.BucketAt` | pkg/validation/compliance_checker.go:212-220 | Bucket i starts i steps in, before the end, and lasts a step or up to the end. |
| `Compliance.BucketsPartition` | pkg/validation/compliance_checker.go:212-220 | Every instant of the window lies in exactly one bucket. |
| `Compliance.ExpectedEvents` | pkg/validation/compliance_checker.go:190-221 | The expectations of a rule as int64 arithmetic gives them; the exact buckets whenever these fit. |
| `Compliance.CutBuckets` | pkg/validation/compliance_checker.go:212-220 | The bucket loop, wrapping additions included, yields the buckets of its rounds. |
| `Compliance.LoopEndsIff` | pkg/validation/compliance_checker.go:213-219 | The loop ends iff some start + n * step, wrapped to int64, reaches the window's end. |
| `Compliance.LoopEndsClosed` | pkg/validation/compliance_checker.go:213-219 | In closed form: iff the end is at most the last int64 that lies a multiple of the largest power of two dividing the deferral after the start. |
| `Compliance.NeverEnds` | pkg/validation/compliance_checker.go:213-219 | It does not for an even start and a window up to the last int64, whatever the deferral. |
| `Compliance.FitsExact` | pkg/validation/compliance_checker.go:212-220 | Where the last bucket end is an int64 the loop ends with exactly the exact buckets. |
| `Compliance.FitsIff` | pkg/validation/compliance_checker.go:207-214 | When that is, in closed form from window and deferral. |
| `Compliance.WrappedBucket` | pkg/validation/compliance_checker.go:213-214 | Otherwise, if the loop ends, one of its buckets ends before it starts. |
| `Compliance.MissingFieldsOf` | pkg/validation/compliance_checker.go:259-270 | The required fields the entry lacks, in order; none iff it carries all. |
| `Compliance.FindMatchingEntry` | pkg/validation/compliance_checker.go:228-256 | A complete in-bucket entry is found iff there is one; failing that the first in-bucket entry and what it lacks. |
| `Compliance.FieldsExact` | pkg/validation/mandate_validator.go:94-113 | Of an entry with all fields, leaving one out makes it incomplete iff the rule requires a field of that name and the schema knows it. |
| `Compliance.ClassDecides` | pkg/validation/compliance_checker.go:228-256 | Entries of other classes leave a bucket of a rule with a class missing, whatever they carry; a gap is one of missing fields iff an entry of the class lies from its start to before its end; it names its rule and bucket. |
| `Compliance.AssessOne` | pkg/validation/compliance_checker.go:121-145 | One expectation adds one anchored event or the gap with its status and missing fields. |
| `Compliance.CheckComplianceMandate` | pkg/validation/compliance_checker.go:94-152 | The error cases exactly; otherwise, where the bucket loops end, the tally of all obligations of the mandatory rules, and the anchored share of them as rate, 0 if there are none. |
| `Compliance.Accounting` | pkg/validation/compliance_checker.go:121-146 | TotalExpected = TotalAnchored + gaps, and no gap iff every expectation is anchored. |
| `Compliance.OrderIrrelevant` | pkg/validation/compliance_checker.go:228-256 | Totals, gaps and statuses depend only on which entries there are. |
| `Compliance.EntriesOnlyHelp` | pkg/validation/compliance_checker.go:228-256 | More entries never lower TotalAnchored. |
| `Compliance.MandateRefIrrelevant` | pkg/validation/compliance_checker.go:7-11 | Changing or omitting MandateRef changes no total, gap or status when no mandatory rule requires the field. |
| `Compliance.RefMattersIffRequired` | pkg/validation/mandate_validator.go:94-113 | A rule's verdict ignores MandateRef iff it does not require it. |
| `Compliance.GapFreeFits` | pkg/validation/compliance_checker.go:213-242 | A gap-free report means that no bucket wrapped. |
| `Compliance.GapFreeBound` | pkg/validation/compliance_checker.go:182-221 | A gap-free report leaves no stretch of 2 * deferral - 1 ns in the window without a complete matching entry. |
| `Compliance.BoundTight` | pkg/chain/block.go:170-172 | A stretch one nanosecond shorter can be empty under a gap-free report. |

## Left out

- Cryptographic primitives: symbolic digests and VRF proofs, VRF outputs and verification predicates stand for them.
- Faulty validators: every engine of a protocol run follows the code; what a fork proves about signers is in `LightClient.dfy`.
- `pkg/transport/p2p`: its receive handler replaces proposals and fills no finals, so the theorems are stated over `MemoryBus` only.
- Copies on the bus: blocks are values, so that a copied block shares its metadata map with the stored one is not visible.
- Rotations during a protocol run are modelled for a lead time of at least 1; that two engines come to hold the same keys is not.
- Validator identities are assumed distinct (`NoDuplicates`) in the protocol, quorum and fork theorems.
- `Engine.Submit` with a bus: it does not publish to the pool, so the multi-node conservation theorem is about `Enqueue`.
- `state.Apply`, the Laplacian and EWMA code: reduced to "applies or does not" and the attempt counter.
- Timers, polling waits, panic recovery, persistence and restart, anchor publishing: I/O; a wait is a read that may find nothing.
- Block fields Lambda1, KeyRotationEpoch, ExternalAnchors and LegacyAnchor: no property here depends on them.
- 64-bit wrap-around of cycle numbers and of twice the limiter window: only the light client's effective cycle minus one and the compliance buckets model theirs.
- `CheckAllMandates`, the mandate resolver, submission-time mandate checks, sub-chains, identity derivation: they would add only easy members.
- gRPC, REST, CLI, genesis, generated code, CBOR and JSON encodings.
