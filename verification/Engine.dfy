/**
 The consensus engine without a gossip bus (pkg/consensus/engine.go with gossip == nil): submission,
 and RunCycle with its snapshot, double PREPARE, commit and rollback.  The tree is the mutable object of
 SmtTree; the object invariant ties it, the chain and the stored anchor proofs together after any
 sequence of calls.
*/
module SoloEngine {
  import opened Common
  import opened Smt
  import opened SmtTree
  import opened Chain
  import opened Codec
  import opened Degraded
  import opened Batch

  datatype SubmitError = Stopped | InvalidHash | InvalidSubmitter | LabelTooLong | MandateRefused | RateLimited

  /** What one PREPARE run hands on. */
  datatype Prepared = Prepared(block: Block, sigs: map<Id, Sig>, bitmap: Bytes, quorumReached: bool)

  /** What a cycle takes from outside: clocks, VRF and liveness, signatures, state.Apply.  PREPARE verifies under
      the keys active in the cycle (`active`), degraded mode under the registered one. */
  datatype Environment = Environment(
    firstElection: bool, firstTime: int,
    secondElection: bool, secondTime: int,
    sign: BlockHash -> Sig,
    active: (nat, BlockHash, Sig) -> bool,
    registered: (nat, BlockHash, Sig) -> bool,
    stateApplied: bool)
  {
    function Registered(h: BlockHash): (nat, Sig) -> bool
    {
      (j: nat, s: Sig) => registered(j, h, s)
    }
  }

  const ZERO_HASH: Bytes := seq(32, _ => 0)
  const ZERO_ID: Id := seq(16, _ => 0)

  // ---- what the invariant says --------------------------------------------------------------

  /** Numbered from 0, linked, and each block's own hash in place. */
  ghost predicate Linked(blocks: seq<Block>)
  {
    forall i :: 0 <= i < |blocks| ==> LinkedAt(blocks, i)
  }

  ghost predicate LinkedAt(blocks: seq<Block>, i: nat)
    requires i < |blocks|
  {
    && blocks[i].index == i && blocks[i].blockHash == ComputeBlockHash(blocks[i])
    && blocks[i].prevHash == PrevHash(blocks[..i])
  }

  function LastRoot(blocks: seq<Block>): Digest
  {
    if blocks == [] then Zero else blocks[|blocks| - 1].stateRoot
  }

  /** A stored anchor proof verifies against the StateRoot of the block it names, and that block holds the hash, in an
      entry with the submitter and the label of the record. */
  ghost predicate AnchorOk(blocks: seq<Block>, h: Bytes, p: AnchorProof)
  {
    && p.blockIndex < |blocks|
    && Describes(blocks[p.blockIndex], h, p)
    && p.stateRoot == blocks[p.blockIndex].stateRoot
    && VerifyD(h, h, p.stateRoot, p.proof, SMT_DEPTH)
  }

  ghost predicate AnchorsOk(blocks: seq<Block>, anchored: map<Bytes, AnchorProof>)
  {
    forall h {:trigger AnchorOk(blocks, h, anchored[h])} :: h in anchored ==> AnchorOk(blocks, h, anchored[h])
  }

  /** The tree holds exactly the anchored hashes, and its root is the last block's. */
  ghost predicate TreeOk(root: Digest, blocks: seq<Block>)
  {
    && root == LastRoot(blocks)
    && Canonical(root, SMT_DEPTH)
    && Contents(root) == SelfMap(AnchoredBy(blocks))
  }

  /** The chain is linked and no longer than the attempt counter, stored proofs are good, hashes have 32 bytes, and
      every accepted hash is pending, retained or anchored. */
  ghost predicate BooksOk(blocks: seq<Block>, anchored: map<Bytes, AnchorProof>, cycle: nat,
                          pending: seq<Entry>, retained: seq<Entry>, accepted: set<Bytes>)
  {
    && Linked(blocks) && AnchorsOk(blocks, anchored) && |blocks| <= cycle
    && HashSized(Hashes(pending)) && HashSized(Hashes(retained)) && HashSized(AnchoredBy(blocks))
    && accepted <= Hashes(pending) + Hashes(retained) + AnchoredBy(blocks)
  }

  /** Retaining the pending entries as well, and counting the attempt, keeps the books. */
  lemma RetainAll(blocks: seq<Block>, anchored: map<Bytes, AnchorProof>, cycle: nat,
                  pending: seq<Entry>, retained: seq<Entry>, accepted: set<Bytes>)
    requires BooksOk(blocks, anchored, cycle, pending, retained, accepted)
    ensures BooksOk(blocks, anchored, cycle + 1, pending, retained + pending, accepted)
  {
    HashesConcat(retained, pending);
  }

  lemma LinkedAppend(blocks: seq<Block>, b: Block)
    requires Linked(blocks)
    requires b.index == |blocks| && b.blockHash == ComputeBlockHash(b) && b.prevHash == PrevHash(blocks)
    ensures Linked(blocks + [b])
  {
    var bs := blocks + [b];
    forall i | 0 <= i < |bs| ensures LinkedAt(bs, i) {
      assert bs[..i] == blocks[..i];
      if i < |blocks| { assert LinkedAt(blocks, i); } else { assert blocks[..i] == blocks; }
    }
  }

  lemma AnchorsOkAppend(blocks: seq<Block>, b: Block, anchored: map<Bytes, AnchorProof>)
    requires AnchorsOk(blocks, anchored)
    ensures AnchorsOk(blocks + [b], anchored)
  {
    forall h | h in anchored ensures AnchorOk(blocks + [b], h, anchored[h]) {
      assert AnchorOk(blocks, h, anchored[h]);
    }
  }

  /** Appending the block the tree was built for. */
  lemma ChainExtended(blocks: seq<Block>, b: Block, root: Digest, anchored: map<Bytes, AnchorProof>)
    requires Linked(blocks) && AnchorsOk(blocks, anchored)
    requires HashSized(AnchoredBy(blocks)) && HashSized(Hashes(b.anchored))
    requires b.index == |blocks| && b.blockHash == ComputeBlockHash(b) && b.prevHash == PrevHash(blocks)
    requires root == b.stateRoot && Canonical(root, SMT_DEPTH)
    requires Contents(root) == SelfMap(AnchoredBy(blocks) + Hashes(b.anchored))
    ensures Linked(blocks + [b]) && AnchorsOk(blocks + [b], anchored) && TreeOk(root, blocks + [b])
    ensures AnchoredBy(blocks + [b]) == AnchoredBy(blocks) + Hashes(b.anchored) && HashSized(AnchoredBy(blocks + [b]))
  {
    LinkedAppend(blocks, b);
    AnchoredByAppend(blocks, b);
    AnchorsOkAppend(blocks, b, anchored);
  }

  /** What inserting everything retained and pending makes of the tree. */
  lemma BatchReady(root: Digest, blocks: seq<Block>, retained: seq<Entry>, pending: seq<Entry>)
    requires TreeOk(root, blocks) && HashSized(AnchoredBy(blocks))
    requires HashSized(Hashes(retained)) && HashSized(Hashes(pending))
    ensures var batch := retained + pending;
      && Hashes(batch) == Hashes(Dedup(batch)) == Hashes(retained) + Hashes(pending) && HashSized(Hashes(batch))
      && Canonical(InsertAll(root, Dedup(batch)), SMT_DEPTH)
      && Contents(InsertAll(root, Dedup(batch))) == SelfMap(AnchoredBy(blocks) + Hashes(batch))
  {
    HashesConcat(retained, pending);
    BatchContents(root, AnchoredBy(blocks), retained + pending);
  }

  /** What a block needs to be appended: its place in the chain, and a tree that holds exactly chain and block. */
  ghost predicate BlockReady(b: Block, root: Digest, blocks: seq<Block>, anchored: map<Bytes, AnchorProof>, cycle: nat,
                             pending: seq<Entry>, retained: seq<Entry>, accepted: set<Bytes>)
  {
    && Linked(blocks) && AnchorsOk(blocks, anchored) && |blocks| <= cycle
    && HashSized(AnchoredBy(blocks)) && HashSized(Hashes(b.anchored))
    && b.index == |blocks| && b.blockHash == ComputeBlockHash(b) && b.prevHash == PrevHash(blocks)
    && root == b.stateRoot && Canonical(root, SMT_DEPTH)
    && Contents(root) == SelfMap(AnchoredBy(blocks) + Hashes(b.anchored))
    && Hashes(b.anchored) == Hashes(retained) + Hashes(pending)
    && accepted <= Hashes(b.anchored) + AnchoredBy(blocks)
  }

  /** The candidate for everything retained and pending is such a block. */
  lemma CandidateReady(b: Block, before: Digest, blocks: seq<Block>, anchored: map<Bytes, AnchorProof>, cycle: nat,
                       pending: seq<Entry>, retained: seq<Entry>, accepted: set<Bytes>)
    requires BooksOk(blocks, anchored, cycle, pending, retained, accepted) && TreeOk(before, blocks)
    requires b.index == |blocks| && b.blockHash == ComputeBlockHash(b) && b.prevHash == PrevHash(blocks)
    requires b.anchored == Dedup(retained + pending) && b.stateRoot == InsertAll(before, b.anchored)
    ensures BlockReady(b, b.stateRoot, blocks, anchored, cycle, pending, retained, accepted)
  {
    BatchReady(before, blocks, retained, pending);
  }

  /** A proof the tree gives for a hash of the last block is good for that block. */
  lemma ProvenAnchor(blocks: seq<Block>, h: Bytes, p: AnchorProof)
    requires blocks != [] && p.blockIndex == |blocks| - 1 && p.stateRoot == LastRoot(blocks)
    requires Describes(blocks[|blocks| - 1], h, p)
    requires Placed(p.stateRoot, SMT_DEPTH) && h in Contents(p.stateRoot) && Contents(p.stateRoot)[h] == h
    requires ProveD(p.stateRoot, h, SMT_DEPTH) == Some(p.proof)
    ensures AnchorOk(blocks, h, p)
  {
    ProofExact(p.stateRoot, h, h, p.proof, SMT_DEPTH);
  }

  lemma AnchorsOkUpdate(blocks: seq<Block>, anchored: map<Bytes, AnchorProof>, h: Bytes, p: AnchorProof)
    requires AnchorsOk(blocks, anchored) && AnchorOk(blocks, h, p)
    ensures AnchorsOk(blocks, anchored[h := p]) && anchored[h := p].Keys == anchored.Keys + {h}
  {
    var updated := anchored[h := p];
    forall k | k in updated ensures AnchorOk(blocks, k, updated[k]) {
      if k != h { assert AnchorOk(blocks, k, anchored[k]); }
    }
  }

  class Engine {
    var st: SparseMerkleTree
    var blocks: seq<Block>
    var pending: seq<Entry>
    var pendingEntries: seq<Entry>
    var anchored: map<Bytes, AnchorProof>
    var cycle: nat                       // attempt counter
    const degraded: DegradedMode
    var stopped: bool
    const peers: seq<ValidatorInfo>
    const self: nat
    const quorum: QuorumConfig
    const maxLabelLen: nat
    const maxTotalPending: nat
    const skipEmptyCycles: bool
    ghost var accepted: set<Bytes>       // every hash Enqueue or Submit has accepted
    ghost var trace: seq<Observation>

    ghost predicate Valid()
      reads this, st, degraded
    {
      Core() && anchored.Keys == AnchoredBy(blocks)
    }

    /** All of it but the keys of the proof map, which lag while a new block's proofs are stored. */
    ghost predicate Core()
      reads this, st, degraded
    {
      && st.Valid() && st.depth == SMT_DEPTH
      && self < |peers|
      && degraded.State() == RunMode(trace, degraded.minValidators, degraded.graceCycles)
      && TreeOk(st.root, blocks)
      && BooksOk(blocks, anchored, cycle, pending, pendingEntries, accepted)
    }

    constructor (peers: seq<ValidatorInfo>, self: nat, quorum: QuorumConfig, minValidators: nat, graceCycles: nat,
                 maxLabelLen: nat, maxTotalPending: nat, skipEmptyCycles: bool)
      requires self < |peers|
      ensures Valid() && fresh(st) && fresh(degraded)
      ensures blocks == [] && pending == [] && pendingEntries == [] && accepted == {} && cycle == 0 && !stopped
    {
      this.peers, this.self, this.quorum := peers, self, quorum;
      this.maxLabelLen, this.maxTotalPending, this.skipEmptyCycles := maxLabelLen, maxTotalPending, skipEmptyCycles;
      st := new SparseMerkleTree(SMT_DEPTH);
      degraded := new DegradedMode(minValidators, graceCycles);
      blocks, pending, pendingEntries, anchored, cycle, stopped := [], [], [], map[], 0, false;
      accepted, trace := {}, [];
    }

    /** The checks of Enqueue; the mandate and the rate limiter answer from outside. */
    predicate Admissible(e: Entry, mandateOk: bool, limiterOk: bool)
      reads this
    {
      && !stopped && e.hash != ZERO_HASH && e.submitter != ZERO_ID && |e.lbl| <= maxLabelLen
      && mandateOk && |pending| < maxTotalPending && limiterOk
    }

    method Enqueue(e: Entry, mandateOk: bool, limiterOk: bool) returns (err: Option<SubmitError>)
      requires Valid() && |e.hash| == 32
      modifies this`pending, this`accepted
      ensures Valid()
      ensures err.None? <==> old(Admissible(e, mandateOk, limiterOk))
      ensures err ==
        if stopped then Some(Stopped)
        else if e.hash == seq(32, _ => 0) then Some(InvalidHash)
        else if e.submitter == seq(16, _ => 0) then Some(InvalidSubmitter)
        else if |e.lbl| > maxLabelLen then Some(LabelTooLong)
        else if !mandateOk then Some(MandateRefused)
        else if |old(pending)| >= maxTotalPending || !limiterOk then Some(RateLimited)
        else None
      ensures err.None? ==> pending == old(pending) + [e] && accepted == old(accepted) + {e.hash}
      ensures err.Some? ==> pending == old(pending) && accepted == old(accepted)
    {
      if stopped { return Some(Stopped); }
      if e.hash == ZERO_HASH { return Some(InvalidHash); }
      if e.submitter == ZERO_ID { return Some(InvalidSubmitter); }
      if |e.lbl| > maxLabelLen { return Some(LabelTooLong); }
      if !mandateOk { return Some(MandateRefused); }
      if |pending| >= maxTotalPending { return Some(RateLimited); }
      if !limiterOk { return Some(RateLimited); }
      HashesAppend(pending, e);
      pending := pending + [e];
      accepted := accepted + {e.hash};
      return None;
    }

    /** Submit builds the entry itself, makes no mandate claim, and tells the caller the index it expects. */
    method Submit(hash: Bytes, submitter: Id, lbl: string, now: int, limiterOk: bool)
      returns (ticket: Option<nat>)
      requires Valid() && |hash| == 32
      modifies this`pending, this`accepted
      ensures Valid()
      ensures ticket.Some? <==> old(Admissible(Entry(hash, submitter, now, lbl, None, None, [], None), true, limiterOk))
      ensures ticket.Some? ==> ticket.value == |blocks| && accepted == old(accepted) + {hash}
      ensures ticket.Some? ==> pending == old(pending) + [Entry(hash, submitter, now, lbl, None, None, [], None)]
      ensures ticket.None? ==> pending == old(pending) && accepted == old(accepted)
    {
      var e := Entry(hash, submitter, now, lbl, None, None, [], None);
      var err := Enqueue(e, true, limiterOk);
      if err.Some? { return None; }
      return Some(|blocks|);
    }

    method InsertEntries(es: seq<Entry>)
      requires st.Valid() && st.depth == SMT_DEPTH
      modifies st`root, st`store
      ensures st.Valid() && st.root == InsertAll(old(st.root), es)
    {
      for i := 0 to |es|
        invariant st.Valid() && st.root == InsertAll(old(st.root), es[..i])
      {
        assert es[..i + 1][..i] == es[..i];
        st.Insert(es[i].hash, es[i].hash);
      }
      assert es[..|es|] == es;
    }

    method Deduplicate(es: seq<Entry>) returns (unique: seq<Entry>)
      ensures unique == Dedup(es)
    {
      unique := [];
      var seen: set<Bytes> := {};
      for i := 0 to |es|
        invariant unique == Dedup(es[..i]) && seen == Hashes(es[..i])
      {
        assert es[..i + 1] == es[..i] + [es[i]];
        HashesAppend(es[..i], es[i]);
        if es[i].hash !in seen { unique := unique + [es[i]]; }
        seen := seen + {es[i].hash};
      }
      assert es[..|es|] == es;
    }

    /** The hash of the candidate for a batch, once the batch is in the tree. */
    ghost function CandidateHash(batch: seq<Entry>, root: Digest, now: int): BlockHash
      requires self < |peers|
      reads this
    {
      Sha(|blocks|, PrevHash(blocks), root, peers[self].id, Dedup(batch), now, quorum)
    }

    /** With no bus the only PREPARE signature is this node's own, if it verifies. */
    ghost function OwnSigs(h: BlockHash, env: Environment): map<Id, Sig>
      requires self < |peers|
    {
      if env.active(self, h, env.sign(h)) then map[peers[self].id := env.sign(h)] else map[]
    }

    /** PREPARE without a bus: this node proposes, signs, and counts its own signature. */
    method RunPreparePhase(batch: seq<Entry>, required: nat, elected: bool, now: int, env: Environment)
      returns (r: Option<Prepared>)
      requires st.Valid() && st.depth == SMT_DEPTH && self < |peers|
      modifies st`root, st`store
      ensures st.Valid()
      ensures r.Some? <==> elected && batch != []
      ensures r.None? ==> st.root == old(st.root)
      ensures r.Some? ==>
        && st.root == InsertAll(old(st.root), Dedup(batch))
        && CandidateOk(r.value.block, batch, st.root) && Declares(r.value.block, required, now)
        && SignedOk(r.value, CandidateHash(batch, st.root, now), required, env)
    {
      if !elected || batch == [] { return None; }
      var unique := Deduplicate(batch);
      InsertEntries(unique);
      var b := Block(|blocks|, PrevHash(blocks), st.root, peers[self].id, unique, now, quorum, peers, ZeroHash, 2,
                     None, Some([]), [], if required == 1 then map[DEGRADED_LABEL := "true"] else map[]);
      var p := SignCandidate(b, required, env);
      return Some(p);
    }

    /** Hashed to h, signed by this node alone, signers marked, and quorum counted. */
    ghost predicate SignedOk(p: Prepared, h: BlockHash, required: nat, env: Environment)
      requires self < |peers|
    {
      && p.block.blockHash == h && p.sigs == OwnSigs(h, env)
      && (forall i: nat :: BitSet(p.bitmap, i) <==> i < |peers| && peers[i].id in p.sigs)
      && (p.quorumReached <==> |p.sigs| >= required)
    }

    method SignCandidate(b: Block, required: nat, env: Environment) returns (p: Prepared)
      requires self < |peers|
      ensures ComputeBlockHash(p.block) == ComputeBlockHash(b) && SignedOk(p, ComputeBlockHash(b), required, env)
      ensures SameDeclared(b, p.block)
    {
      var h := ComputeBlockHash(b);
      var sig := env.sign(h);
      var valid: map<Id, Sig> := if env.active(self, h, sig) then map[peers[self].id := sig] else map[];
      var ids := Ids(peers);
      var bitmap := BuildBitmap(ids, valid);
      return Prepared(b.(blockHash := h, prepareSigs := Some([sig])), valid, bitmap, |valid| >= required);
    }

    /** The candidate a PREPARE run builds from a batch. */
    ghost predicate CandidateOk(b: Block, batch: seq<Entry>, root: Digest)
      reads this
    {
      && b.index == |blocks| && b.blockHash == ComputeBlockHash(b) && b.prevHash == PrevHash(blocks)
      && b.anchored == Dedup(batch) && b.stateRoot == root
    }

    /** Nothing outside the certificate and the hash differs. */
    ghost predicate SameDeclared(b: Block, c: Block)
    {
      && b.proposer == c.proposer && b.validators == c.validators && b.version == c.version && b.quorum == c.quorum
      && b.timestamp == c.timestamp && b.metadata == c.metadata
    }

    /** What a block says of its network: this node as proposer, the peers as validators, the label where one
        signature is enough. */
    ghost predicate Declares(b: Block, required: nat, now: int)
      requires self < |peers|
    {
      && b.proposer == peers[self].id && b.validators == peers && b.version == 2 && b.quorum == quorum
      && b.timestamp == now
      && (required == 1 <==> DEGRADED_LABEL in b.metadata && b.metadata[DEGRADED_LABEL] == "true")
    }

    method RunCommitPhase(p: Prepared, env: Environment) returns (r: Option<Block>)
      requires self < |peers|
      ensures r.Some? <==> p.quorumReached
      ensures r.Some? ==>
        && ComputeBlockHash(r.value) == ComputeBlockHash(p.block) == r.value.blockHash
        && r.value.commitSig == env.sign(r.value.blockHash)
        && (p.block.version == 2 ==> SameDeclared(p.block, r.value))
        && r.value.bitmap == Some(p.bitmap) && r.value.prepareSigs.Some?
        && ((forall i: nat :: BitSet(p.bitmap, i) <==> i < |peers| && peers[i].id in p.sigs) ==>
              Encodes(p.bitmap, r.value.prepareSigs.value, Ids(peers), p.sigs))
    {
      if !p.quorumReached { return None; }
      var sigs := CompactPayload(Ids(peers), p.sigs, p.bitmap);
      var f := p.block.(bitmap := Some(p.bitmap), prepareSigs := Some(sigs), version := 2);
      var h := ComputeBlockHash(f);
      return Some(f.(commitSig := env.sign(h), blockHash := h));
    }

    /** RunCycle runs PREPARE twice; the second insertion of the batch changes nothing. */
    method PrepareTwice(batch: seq<Entry>, required: nat, env: Environment) returns (second: Option<Prepared>)
      requires Valid() && HashSized(Hashes(batch))
      modifies st`root, st`store
      ensures st.Valid()
      ensures second.Some? <==> batch != [] && env.firstElection && env.secondElection
      ensures second.Some? ==>
        && st.root == InsertAll(old(st.root), Dedup(batch))
        && CandidateOk(second.value.block, batch, st.root) && Declares(second.value.block, required, env.secondTime)
        && SignedOk(second.value, CandidateHash(batch, st.root, env.secondTime), required, env)
    {
      DedupHashes(batch);
      InsertAllTwice(st.root, AnchoredBy(blocks), Dedup(batch));
      second := RunPreparePhase(batch, required, env.firstElection, env.firstTime, env);
      if second.None? { return None; }
      second := RunPreparePhase(batch, required, env.secondElection, env.secondTime, env);
    }

    /** A batch, two elections, and an own signature that verifies. */
    ghost predicate Certifies(batch: seq<Entry>, env: Environment)
      requires self < |peers|
      reads this, st
    {
      var h := CandidateHash(batch, InsertAll(st.root, Dedup(batch)), env.secondTime);
      batch != [] && env.firstElection && env.secondElection && env.active(self, h, env.sign(h))
    }

    /** PREPARE, quorum check and COMMIT.  A final carries this node's signature, found by rank. */
    method Certify(batch: seq<Entry>, required: nat, env: Environment) returns (b: Option<Block>)
      requires Valid() && HashSized(Hashes(batch)) && required >= 1
      modifies st`root, st`store
      ensures st.Valid()
      ensures b.Some? <==> required == 1 && old(Certifies(batch, env))
      ensures b.Some? ==>
        && st.root == InsertAll(old(st.root), Dedup(batch))
        && CandidateOk(b.value, batch, st.root) && Sealed(b.value, env)
        && b.value.blockHash == CandidateHash(batch, st.root, env.secondTime)
        && (HasUsable(b.value, |peers|, env.Registered(b.value.blockHash)) <==> Keepable(b.value.blockHash, env))
    {
      var second := PrepareTwice(batch, required, env);
      if second.None? { return None; }
      b := CommitOwn(second.value, required, env);
    }

    /** COMMIT on a candidate only this node can have signed. */
    method CommitOwn(p: Prepared, required: nat, env: Environment) returns (b: Option<Block>)
      requires self < |peers| && required >= 1 && p.block.blockHash == ComputeBlockHash(p.block)
      requires SignedOk(p, p.block.blockHash, required, env) && Declares(p.block, required, env.secondTime)
      ensures b.Some? <==> required == 1 && env.active(self, p.block.blockHash, env.sign(p.block.blockHash))
      ensures b.Some? ==>
        && ComputeBlockHash(b.value) == ComputeBlockHash(p.block) == b.value.blockHash && Sealed(b.value, env)
        && (HasUsable(b.value, |peers|, env.Registered(b.value.blockHash)) <==> Keepable(b.value.blockHash, env))
    {
      b := RunCommitPhase(p, env);
      if b.None? { return None; }
      OwnIsUsable(b.value, Ids(peers), self, p.sigs, env);
      SealsCandidate(p, b.value, env);
    }

    lemma SealsCandidate(p: Prepared, b: Block, env: Environment)
      requires self < |peers| && Declares(p.block, 1, env.secondTime) && SameDeclared(p.block, b)
      requires b.commitSig == env.sign(b.blockHash) && p.sigs == OwnSigs(b.blockHash, env) && p.sigs != map[]
      requires b.bitmap.Some? && b.prepareSigs.Some?
      requires Encodes(b.bitmap.value, b.prepareSigs.value, Ids(peers), p.sigs)
      ensures Sealed(b, env)
    {
      OwnIsAlone(b, Ids(peers), self, p.sigs, env.sign(b.blockHash));
    }

    /** A finished block: declared as its candidate, signed by this node in both phases, and, where identities are
        distinct, with a certificate of this node alone that passes the quorum check under the active keys. */
    ghost predicate Sealed(b: Block, env: Environment)
      requires self < |peers|
    {
      && Declares(b, 1, env.secondTime) && b.commitSig == env.sign(b.blockHash)
      && env.active(self, b.blockHash, env.sign(b.blockHash))
      && (NoDuplicates(Ids(peers)) ==> SignedAlone(b, self, env.sign(b.blockHash)))
    }

    /** Hence verifyPrepareQuorum accepts it. */
    lemma SealedIsCertified(b: Block, env: Environment)
      requires self < |peers| && Sealed(b, env) && NoDuplicates(Ids(peers))
      ensures Certified(b.bitmap, b.prepareSigs, |peers|, RequiredFor(IsDegradedBlock(b), |peers|),
                        (j: nat, s: Sig) => env.active(j, b.blockHash, s))
    {
      SingleIsCertified(b.bitmap.value, env.sign(b.blockHash), self, |peers|,
                        (j: nat, s: Sig) => env.active(j, b.blockHash, s));
    }

    /** What makes an attempt on a batch succeed: a certificate at quorum one, state.Apply, and in degraded
        mode a signature to keep. */
    ghost predicate Succeeds(batch: seq<Entry>, env: Environment)
      requires self < |peers|
      reads this, st, degraded
    {
      Finalises(batch, env) && env.stateApplied
    }

    ghost predicate Finalises(batch: seq<Entry>, env: Environment)
      requires self < |peers|
      reads this, st, degraded
    {
      && Certifies(batch, env) && (degraded.inDegraded || |peers| == 1)
      && (ModeAfter().inDegraded ==>
            Keepable(CandidateHash(batch, InsertAll(st.root, Dedup(batch)), env.secondTime), env))
    }

    /** The own signature is there and verifies under the registered key of a peer entry with the own identity. */
    ghost predicate Keepable(h: BlockHash, env: Environment)
      requires self < |peers|
    {
      env.sign(h) != [] &&
      exists i :: 0 <= i < |peers| && peers[i].id == peers[self].id && env.registered(i, h, env.sign(h))
    }

    ghost function ModeAfter(): Mode
      reads this, degraded
    {
      RunMode(trace + [Observation(|peers|, true)], degraded.minValidators, degraded.graceCycles)
    }

    /** PREPARE, quorum check, COMMIT, degraded mode and state.Apply; None wherever the source aborts. */
    method Attempt(batch: seq<Entry>, env: Environment) returns (final: Option<Block>)
      requires Valid() && batch == pendingEntries + pending
      modifies st`root, st`store, degraded, this`trace
      ensures st.Valid() && degraded.State() == RunMode(trace, degraded.minValidators, degraded.graceCycles)
      ensures final.Some? <==> old(Succeeds(batch, env))
      ensures final.Some? ==>
        CommitReady(final.value) && final.value.anchored == Dedup(batch) && Sealed(final.value, env)
    {
      ghost var before := st.root;
      HashesConcat(pendingEntries, pending);
      final := Finalise(batch, env);
      if final.None? || !env.stateApplied { return None; }
      CandidateReady(final.value, before, blocks, anchored, cycle, pending, pendingEntries, accepted);
    }

    /** The attempt up to state.Apply. */
    method Finalise(batch: seq<Entry>, env: Environment) returns (final: Option<Block>)
      requires Valid() && HashSized(Hashes(batch))
      modifies st`root, st`store, degraded, this`trace
      ensures st.Valid() && degraded.State() == RunMode(trace, degraded.minValidators, degraded.graceCycles)
      ensures final.Some? <==> old(Finalises(batch, env))
      ensures final.Some? ==>
        st.root == InsertAll(old(st.root), Dedup(batch)) && CandidateOk(final.value, batch, st.root)
        && Sealed(final.value, env)
    {
      ghost var h, mode := CandidateHash(batch, InsertAll(st.root, Dedup(batch)), env.secondTime), ModeAfter();
      var required := RequiredSignatures();
      var result := Certify(batch, required, env);
      if result.None? { return None; }
      assert result.value.blockHash == h && ModeAfter() == mode;
      final := ApplyMode(result.value, env);
      assert final.Some? <==> (mode.inDegraded ==> Keepable(h, env));
      if final.Some? { CandidateKept(result.value, final.value, batch, st.root); }
    }

    method RequiredSignatures() returns (required: nat)
      requires self < |peers|
      ensures required >= 1 && (required == 1 <==> degraded.inDegraded || |peers| == 1)
      ensures !degraded.inDegraded ==> required == QuorumRequired(|peers|)
    {
      required := QuorumRequired(|peers|);
      if degraded.inDegraded { required := 1; }
    }

    lemma CandidateKept(b: Block, r: Block, batch: seq<Entry>, root: Digest)
      requires CandidateOk(b, batch, root) && ComputeBlockHash(r) == ComputeBlockHash(b) && r.blockHash == b.blockHash
      ensures CandidateOk(r, batch, root)
    {
    }

    /** The transition, then the block rules of the mode arrived at. */
    method ApplyMode(b: Block, env: Environment) returns (final: Option<Block>)
      requires degraded.State() == RunMode(trace, degraded.minValidators, degraded.graceCycles)
      modifies degraded, this`trace
      ensures degraded.State() == RunMode(trace, degraded.minValidators, degraded.graceCycles) == old(ModeAfter())
      ensures final.Some? <==> (degraded.inDegraded ==> HasUsable(b, |peers|, env.Registered(b.blockHash)))
      ensures final.Some? ==>
        ComputeBlockHash(final.value) == ComputeBlockHash(b) && final.value.blockHash == b.blockHash
      ensures final.Some? && self < |peers| && Sealed(b, env) ==> Sealed(final.value, env)
    {
      var _, _ := degraded.CheckDegradedTransition(|peers|, true, trace);
      trace := trace + [Observation(|peers|, true)];
      final := degraded.ApplyDegradedBlock(b, |peers|, env.Registered(b.blockHash));
      DegradedOutcome(degraded.inDegraded, b, |peers|, env.Registered(b.blockHash), final);
      if final.Some? && self < |peers| && Sealed(b, env) { SealedStays(b, final.value, env, degraded.inDegraded); }
    }

    /** Degraded mode keeps the one signature there is. */
    lemma SealedStays(b: Block, r: Block, env: Environment, inDegraded: bool)
      requires self < |peers| && Sealed(b, env)
      requires DegradedResult(inDegraded, b, |peers|, env.Registered(b.blockHash), Some(r))
      ensures Sealed(r, env)
    {
      if inDegraded {
        var i :| KeepsOnly(b, |peers|, env.Registered(b.blockHash), i, r);
        if NoDuplicates(Ids(peers)) {
          assert i == self;
          SignedFirst(b, self, env.sign(b.blockHash));
        }
      }
    }

    method ProveEntry(b: Block, e: Entry, ghost held: set<Bytes>) returns (p: AnchorProof)
      requires st.Valid() && st.depth == SMT_DEPTH && blocks != [] && blocks[|blocks| - 1] == b
      requires st.root == b.stateRoot && Contents(st.root) == SelfMap(held) && Hashes(b.anchored) <= held
      requires e in b.anchored
      ensures AnchorOk(blocks, e.hash, p)
    {
      assert e.hash in Hashes(b.anchored);
      var proof := st.Prove(e.hash);
      p := AnchorProof(|blocks| - 1, b.timestamp, st.root, proof.value, e.submitter, e.lbl);
      ProvenAnchor(blocks, e.hash, p);
    }

    /** Prove every entry of the appended block against the tree. */
    method StoreProofs(b: Block)
      requires Core() && blocks != [] && blocks[|blocks| - 1] == b && Hashes(b.anchored) <= AnchoredBy(blocks)
      modifies this`anchored
      ensures Core() && anchored.Keys == old(anchored).Keys + Hashes(b.anchored)
    {
      for i := 0 to |b.anchored|
        invariant anchored.Keys == old(anchored).Keys + Hashes(b.anchored[..i])
        invariant AnchorsOk(blocks, anchored)
      {
        var e := b.anchored[i];
        HashesPrefix(b.anchored, i);
        var p := ProveEntry(b, e, AnchoredBy(blocks));
        AnchorsOkUpdate(blocks, anchored, e.hash, p);
        anchored := anchored[e.hash := p];
      }
      assert b.anchored[..|b.anchored|] == b.anchored;
    }

    /** Drop what was committed from the retained entries. */
    method Uncommitted(es: seq<Entry>, committed: set<Bytes>) returns (kept: seq<Entry>)
      ensures kept == Without(es, committed)
    {
      kept := [];
      for i := 0 to |es|
        invariant kept == Without(es[..i], committed)
      {
        assert es[..i + 1][..i] == es[..i];
        if es[i].hash !in committed { kept := kept + [es[i]]; }
      }
      assert es[..|es|] == es;
    }

    /** Nothing is left to retain once every retained hash is committed. */
    method ClearCommitted(committed: set<Bytes>)
      requires Hashes(pendingEntries) <= committed
      modifies this`pending, this`pendingEntries
      ensures pending == [] && pendingEntries == []
    {
      WithoutHashes(pendingEntries, committed);
      pendingEntries := Uncommitted(pendingEntries, committed);
      NoHashesNoEntries(pendingEntries);
      pending := [];
    }

    /** The tree already holds the block, the chain does not. */
    ghost predicate CommitReady(b: Block)
      reads this, st, degraded
    {
      && st.Valid() && st.depth == SMT_DEPTH && self < |peers|
      && degraded.State() == RunMode(trace, degraded.minValidators, degraded.graceCycles)
      && BlockReady(b, st.root, blocks, anchored, cycle, pending, pendingEntries, accepted)
    }

    /** The commit: clear what was committed, append, store proofs. */
    method AppendBlock(b: Block)
      requires CommitReady(b) && anchored.Keys == AnchoredBy(blocks)
      modifies this`blocks, this`pending, this`pendingEntries, this`anchored, this`cycle
      ensures Valid()
      ensures cycle == old(cycle) + 1 && blocks == old(blocks) + [b] && pending == [] && pendingEntries == []
    {
      ExtendChain(b);
      StoreProofs(b);
    }

    method ExtendChain(b: Block)
      requires CommitReady(b)
      modifies this`blocks, this`pending, this`pendingEntries, this`cycle
      ensures Core() && AnchoredBy(blocks) == AnchoredBy(old(blocks)) + Hashes(b.anchored)
      ensures cycle == old(cycle) + 1 && blocks == old(blocks) + [b] && pending == [] && pendingEntries == []
    {
      ChainExtended(blocks, b, st.root, anchored);
      ClearCommitted(Hashes(b.anchored));
      cycle := cycle + 1;
      blocks := blocks + [b];
    }

    /** The snapshot still is the tree of the chain, and the entries to retain cover what was accepted. */
    ghost predicate AbortReady(retained: seq<Entry>, snapshot: SparseMerkleTree)
      reads this, snapshot, degraded
    {
      && snapshot.Valid() && snapshot.depth == SMT_DEPTH && self < |peers| && TreeOk(snapshot.root, blocks)
      && degraded.State() == RunMode(trace, degraded.minValidators, degraded.graceCycles)
      && anchored.Keys == AnchoredBy(blocks)
      && BooksOk(blocks, anchored, cycle + 1, pending, retained, accepted)
    }

    /** The abort: back to the snapshot, keep the entries, count the attempt. */
    method Rollback(retained: seq<Entry>, snapshot: SparseMerkleTree)
      requires AbortReady(retained, snapshot)
      modifies this`st, this`pendingEntries, this`cycle
      ensures Valid() && st == snapshot && pendingEntries == retained && cycle == old(cycle) + 1
    {
      pendingEntries := retained;
      st := snapshot;
      cycle := cycle + 1;
    }

    /** Commit the block there is, or roll back. */
    method Conclude(final: Option<Block>, batch: seq<Entry>, snapshot: SparseMerkleTree)
      requires final.Some? ==> CommitReady(final.value) && anchored.Keys == AnchoredBy(blocks)
      requires final.None? ==> AbortReady(batch, snapshot)
      modifies this`st, this`blocks, this`pending, this`pendingEntries, this`anchored, this`cycle
      ensures Valid() && cycle == old(cycle) + 1
      ensures final.None? ==>
        && st == snapshot && blocks == old(blocks) && anchored == old(anchored)
        && pending == old(pending) && pendingEntries == batch
      ensures final.Some? ==>
        st == old(st) && blocks == old(blocks) + [final.value] && pending == [] && pendingEntries == []
    {
      if final.None? {
        Rollback(batch, snapshot);
      } else {
        AppendBlock(final.value);
      }
    }

    /** One attempt.  Committed: one block with exactly the batch's hashes, proofs for all of them, nothing
        left pending.  Not committed: tree, chain and proofs as before, and the batch retained.  Either way
        the attempt counter rises by one and no accepted hash is lost. */
    method RunCycle(env: Environment) returns (committed: bool)
      requires Valid()
      modifies this`st, this`blocks, this`pending, this`pendingEntries, this`anchored, this`cycle, this`trace
      modifies st, degraded
      ensures Valid() && (st == old(st) || fresh(st))
      ensures cycle == old(cycle) + 1 && accepted == old(accepted)
      ensures committed <==> old(Succeeds(pendingEntries + pending, env))
      ensures !committed ==>
        && st.root == old(st.root) && blocks == old(blocks) && anchored == old(anchored) && pending == old(pending)
        && pendingEntries == old(pendingEntries) + old(pending)
      ensures committed ==>
        && |blocks| == |old(blocks)| + 1 && old(blocks) <= blocks
        && blocks[|old(blocks)|].anchored == Dedup(old(pendingEntries) + old(pending))
        && pending == [] && pendingEntries == [] && Sealed(blocks[|old(blocks)|], env)
    {
      var snapshot := st.Clone();
      var batch := pendingEntries + pending;
      RetainAll(blocks, anchored, cycle, pending, pendingEntries, accepted);
      if batch == [] && skipEmptyCycles {
        Conclude(None, batch, snapshot);
        return false;
      }
      committed := RunAttempt(batch, snapshot, env);
    }

    method RunAttempt(batch: seq<Entry>, snapshot: SparseMerkleTree, env: Environment) returns (committed: bool)
      requires Valid() && batch == pendingEntries + pending && AbortReady(batch, snapshot) && snapshot != st
      modifies this`st, this`blocks, this`pending, this`pendingEntries, this`anchored, this`cycle, this`trace
      modifies st`root, st`store, degraded
      ensures Valid() && cycle == old(cycle) + 1 && st == (if committed then old(st) else snapshot)
      ensures committed <==> old(Succeeds(batch, env))
      ensures !committed ==>
        blocks == old(blocks) && anchored == old(anchored) && pending == old(pending) && pendingEntries == batch
      ensures committed ==>
        && |blocks| == |old(blocks)| + 1 && old(blocks) <= blocks && Sealed(blocks[|old(blocks)|], env)
        && blocks[|old(blocks)|].anchored == Dedup(batch) && pending == [] && pendingEntries == []
    {
      var final := Attempt(batch, env);
      Conclude(final, batch, snapshot);
      return final.Some?;
    }
  }

  lemma NoHashesNoEntries(es: seq<Entry>)
    requires Hashes(es) == {}
    ensures es == []
  {
    assert es != [] ==> es[0].hash in Hashes(es);
  }

  ghost predicate HasUsable(b: Block, n: nat, good: (nat, Sig) -> bool)
  {
    exists i :: 0 <= i < n && Usable(b, i, good)
  }

  /** Degraded mode fails iff there is nothing to keep; it changes the certificate and the label only. */
  lemma DegradedOutcome(inDegraded: bool, b: Block, n: nat, good: (nat, Sig) -> bool, r: Option<Block>)
    requires DegradedResult(inDegraded, b, n, good, r)
    ensures r.Some? <==> (inDegraded ==> HasUsable(b, n, good))
    ensures r.Some? ==> ComputeBlockHash(r.value) == ComputeBlockHash(b) && r.value.blockHash == b.blockHash
  {
    if inDegraded && r.Some? {
      var i :| KeepsOnly(b, n, good, i, r.value);
    }
  }

  /** The certificate marks validator i only and holds its signature only. */
  ghost predicate SignedAlone(b: Block, i: nat, sig: Sig)
  {
    b.bitmap.Some? && OnlyBit(b.bitmap.value, i) && b.prepareSigs == Some([sig])
  }

  lemma SignedFirst(b: Block, i: nat, sig: Sig)
    requires SignedAlone(b, i, sig)
    ensures Rank(b.bitmap.value, i) == 0
  {
    NoneBelow(b.bitmap.value, i);
  }

  lemma OwnIsAlone(b: Block, ids: seq<Id>, self: nat, sigs: map<Id, Sig>, sig: Sig)
    requires self < |ids| && b.bitmap.Some? && b.prepareSigs.Some?
    requires Encodes(b.bitmap.value, b.prepareSigs.value, ids, sigs) && sigs == map[ids[self] := sig]
    ensures NoDuplicates(ids) ==> SignedAlone(b, self, sig)
  {
    if NoDuplicates(ids) {
      forall i: nat ensures BitSet(b.bitmap.value, i) <==> i == self {
        assert i < |ids| && i != self ==> ids[i] != ids[self];
      }
      SingleRank(b.bitmap.value, self, |ids|);
      NoneBelow(b.bitmap.value, self);
      assert b.prepareSigs.value == [sig];
    }
  }

  /** A certificate of this node alone holds something to keep iff its signature is not empty and verifies under
      the registered key of an entry with its identity. */
  lemma OwnIsUsable(b: Block, ids: seq<Id>, self: nat, sigs: map<Id, Sig>, env: Environment)
    requires self < |ids| && b.bitmap.Some? && b.prepareSigs.Some?
    requires Encodes(b.bitmap.value, b.prepareSigs.value, ids, sigs) && sigs == map[ids[self] := env.sign(b.blockHash)]
    ensures HasUsable(b, |ids|, env.Registered(b.blockHash)) <==>
            env.sign(b.blockHash) != [] &&
            exists i :: 0 <= i < |ids| && ids[i] == ids[self] && env.registered(i, b.blockHash, env.sign(b.blockHash))
  {
    forall i | 0 <= i < |ids|
      ensures Usable(b, i, env.Registered(b.blockHash)) <==>
              && env.sign(b.blockHash) != [] && ids[i] == ids[self]
              && env.registered(i, b.blockHash, env.sign(b.blockHash))
    {
      assert BitSet(b.bitmap.value, i) <==> ids[i] in sigs;
    }
  }
}
