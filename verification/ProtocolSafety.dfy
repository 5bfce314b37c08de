/** Safety of the cycle protocol over every run: the invariant and the theorems drawn from it. */
module ProtocolSafety {
  import opened Common
  import opened Smt
  import opened Chain
  import opened Codec
  import opened Degraded
  import opened Batch
  import opened GossipBus
  import opened KeyRotation
  import opened Protocol

  // ---- invariant ------------------------------------------------------------------

  /** Same hashed fields, same hash, same declared validators. */
  ghost predicate SameCore(b: Block, p: Block)
  {
    && ComputeBlockHash(b) == ComputeBlockHash(p) && b.blockHash == p.blockHash
    && b.version == p.version && b.validators == p.validators
  }

  /** A network that never degrades labels its blocks only if it has a single validator. */
  ghost predicate FairlyLabelled(net: Net, b: Block)
  {
    |net.validators| >= net.minValidators ==> (IsDegradedBlock(b) <==> |net.validators| == 1)
  }

  /** The COMMIT signature is some engine's over the block hash. */
  ghost predicate Sealed(net: Net, b: Block)
  {
    exists p :: 0 <= p < |net.validators| && b.commitSig == net.sign(p, b.blockHash)
  }

  /** By engine e's own hand, or verified for the validator it takes for the leader. */
  ghost predicate SealedBy(net: Net, e: nat, c: nat, b: Block, leader: nat)
  {
    if leader == e then b.commitSig == net.sign(e, b.blockHash)
    else net.Good(e, c, b.blockHash)(leader, b.commitSig)
  }

  /** Every marked validator has a signature engine e verifies. */
  ghost predicate AllGood(net: Net, e: nat, c: nat, b: Block)
  {
    Certified(b.bitmap, b.prepareSigs, |net.validators|, 0, net.Good(e, c, b.blockHash))
  }

  /** In a network below its minimum, every committed block is labelled and keeps one signature. */
  ghost predicate LoneSigner(net: Net, b: Block)
  {
    |net.validators| < net.minValidators ==>
      IsDegradedBlock(b) && b.prepareSigs.Some? && |b.prepareSigs.value| == 1
  }

  /** The certificate marks validators only, and holds one signature per mark. */
  ghost predicate ExactShape(net: Net, b: Block)
  {
    var n := |net.validators|;
    && b.bitmap.Some? && b.prepareSigs.Some?
    && (forall i :: n <= i ==> !BitSet(b.bitmap.value, i))
    && |b.prepareSigs.value| == Rank(b.bitmap.value, n)
    && FairlyLabelled(net, b)
  }

  /** A candidate as its proposer makes it: what it declares, every hash once, and the proposer's own signature. */
  ghost predicate CandidateForm(net: Net, p: Block)
  {
    && p.blockHash == ComputeBlockHash(p) && p.version == 2 && p.validators == net.validators && p.quorum == net.quorum
    && FairlyLabelled(net, p) && HashesOnce(p.anchored) && ProposerSigned(net, p)
  }

  ghost predicate HashesOnce(es: seq<Entry>)
  {
    forall i, j :: 0 <= i < j < |es| ==> es[i].hash != es[j].hash
  }

  ghost predicate ProposerSigned(net: Net, p: Block)
  {
    exists j :: 0 <= j < |net.validators| && p.proposer == net.validators[j].id
                && p.prepareSigs == Some([net.sign(j, p.blockHash)])
  }

  lemma ProposerKnown(net: Net, p: Block)
    requires ProposerSigned(net, p)
    ensures p.proposer in net.Ids()
  {
    var j :| 0 <= j < |net.validators| && p.proposer == net.validators[j].id
             && p.prepareSigs == Some([net.sign(j, p.blockHash)]);
    assert net.Ids()[j] == p.proposer;
  }

  ghost predicate ProposalOk(net: Net, bus: Bus, c: nat)
    requires c in bus.proposals
  {
    var p := bus.proposals[c];
    && p.index == c && CandidateForm(net, p)
    && (if c == 0 then p.prevHash == ZeroHash
        else c - 1 in bus.proposals && p.prevHash == bus.proposals[c - 1].blockHash)
  }

  ghost predicate FinalOk(net: Net, bus: Bus, c: nat)
    requires c in bus.finals
  {
    && c in bus.proposals && SameCore(bus.finals[c], bus.proposals[c])
    && ExactShape(net, bus.finals[c]) && Sealed(net, bus.finals[c])
  }

  ghost predicate BusOk(net: Net, bus: Bus)
  {
    && (forall c {:trigger ProposalOk(net, bus, c)} :: c in bus.proposals ==> ProposalOk(net, bus, c))
    && (forall c {:trigger FinalOk(net, bus, c)} :: c in bus.finals ==> FinalOk(net, bus, c))
  }

  /** Each committed block is the stored candidate of its index, with a full certificate. */
  ghost predicate BlockOk(net: Net, e: nat, bus: Bus, b: Block, i: nat, leader: nat)
  {
    && i in bus.proposals && SameCore(b, bus.proposals[i])
    && CertifiedAt(net, e, i, b) && ExactShape(net, b) && LoneSigner(net, b)
    && Sealed(net, b) && SealedBy(net, e, i, b, leader)
  }

  /** The root of the tree the engine goes back to when its attempt fails. */
  ghost function SettledRoot(eng: Engine): Digest
  {
    if InAttempt(eng.phase) then eng.phase.a.snapshot else eng.tree
  }

  /** The root the engine's history accounts for. */
  ghost function ExpectedRoot(eng: Engine): Digest
  {
    if eng.blocks == [] || |eng.owns| != |eng.blocks| then Zero else BuiltRoot(eng.blocks, eng.owns, |eng.blocks| - 1)
  }

  /** The root of the tree block i was committed with: the block's own, unless it was led in place of a candidate. */
  ghost function BuiltRoot(blocks: seq<Block>, owns: seq<Option<Digest>>, i: nat): Digest
    requires i < |blocks| == |owns|
  {
    if owns[i].Some? then owns[i].value else blocks[i].stateRoot
  }

  /** After PREPARE: the root of the own candidate, or of the stored one it followed. */
  ghost predicate PreparedTree(eng: Engine, bus: Bus, a: Attempt)
  {
    |eng.blocks| in bus.proposals &&
    eng.tree == if a.own.Some? then a.own.value.stateRoot else bus.proposals[|eng.blocks|].stateRoot
  }

  ghost predicate QuorumCheckOk(eng: Engine, bus: Bus, e: nat, a: Attempt, blk: Block, leader: nat)
  {
    && |eng.blocks| in bus.proposals && blk == bus.proposals[|eng.blocks|]
    && (if leader == e then PreparedTree(eng, bus, a) else eng.tree == blk.stateRoot)
  }

  /** The first signature on the candidate is good for the validator, by the keys engine e holds in cycle c. */
  ghost predicate SignedForLeader(net: Net, e: nat, c: nat, blk: Block, leader: nat)
  {
    && leader < |net.validators| && blk.prepareSigs.Some? && blk.prepareSigs.value != []
    && VerifiesUnder(net.ver, net.keys(e, leader, c), blk.blockHash, blk.prepareSigs.value[0])
  }

  /** A phase under a leader, and that leader. */
  predicate UnderLeader(p: Phase)
  {
    p.Voting? || p.Revoting? || p.Collecting? || p.Checked? || p.Ready?
  }

  /** A final for the stored candidate that engine e can commit. */
  ghost predicate FinalFor(net: Net, e: nat, c: nat, blk: Block, f: Block, leader: nat)
  {
    && SameCore(f, blk) && ExactShape(net, f) && AllGood(net, e, c, f)
    && Sealed(net, f) && SealedBy(net, e, c, f, leader)
  }

  ghost predicate PhaseOk(net: Net, e: nat, eng: Engine, bus: Bus)
  {
    StageOk(net, e, eng, bus) && (UnderLeader(eng.phase) ==> FollowsSigned(net, e, eng))
  }

  /** Whom an engine follows has signed the candidate. */
  ghost predicate FollowsSigned(net: Net, e: nat, eng: Engine)
    requires UnderLeader(eng.phase)
  {
    eng.phase.leader != e ==> SignedForLeader(net, e, |eng.blocks|, eng.phase.blk, eng.phase.leader)
  }

  ghost predicate StageOk(net: Net, e: nat, eng: Engine, bus: Bus)
  {
    var c := |eng.blocks|;
    match eng.phase
    case Idle => true
    case Begun(a) => a.own.None? && eng.tree == a.snapshot
    case Built(a, blk) =>
      && a.own == Some(blk) && eng.tree == blk.stateRoot
      && blk.index == c && blk.prevHash == PrevHash(eng.blocks) && CandidateForm(net, blk)
    case Announced(a, blk) => a.own == Some(blk) && PreparedTree(eng, bus, a)
    case Voting(a, blk, leader) =>
      leader != e && a.own.None? && PreparedTree(eng, bus, a) && blk == bus.proposals[c]
    case Prepared(a) => PreparedTree(eng, bus, a)
    case Revoting(a, blk, leader) => leader != e && QuorumCheckOk(eng, bus, e, a, blk, leader)
    case Collecting(a, blk, leader) => QuorumCheckOk(eng, bus, e, a, blk, leader)
    case Checked(a, blk, leader, valid) =>
      && QuorumCheckOk(eng, bus, e, a, blk, leader)
      && |valid| >= a.required
      && (forall id :: id in valid ==>
            id in net.Ids() && net.Good(e, c, blk.blockHash)(IndexOf(net.Ids(), id), valid[id]))
    case Ready(a, blk, leader, f) =>
      && QuorumCheckOk(eng, bus, e, a, blk, leader)
      && FinalFor(net, e, c, blk, f, leader)
      && (!eng.mode.inDegraded ==> CertifiedAt(net, e, c, f))
    case Cleanup(hashes) => eng.blocks != [] && hashes == Hashes(eng.blocks[c - 1].anchored)
  }

  ghost predicate ChainOk(net: Net, e: nat, blocks: seq<Block>, leaders: seq<nat>, bus: Bus)
  {
    && |leaders| == |blocks|
    && forall i {:trigger BlockOk(net, e, bus, blocks[i], i, leaders[i])} ::
         0 <= i < |blocks| ==> BlockOk(net, e, bus, blocks[i], i, leaders[i])
  }

  ghost predicate EngineOk(net: Net, e: nat, eng: Engine, bus: Bus)
  {
    && ChainOk(net, e, eng.blocks, eng.leaders, bus) && |eng.owns| == |eng.blocks|
    && (eng.mode.inDegraded ==> |net.validators| < net.minValidators)
    && SettledRoot(eng) == ExpectedRoot(eng)
    && (InAttempt(eng.phase) ==>
          eng.phase.a.required == if eng.mode.inDegraded then 1 else QuorumRequired(|net.validators|))
    && PhaseOk(net, e, eng, bus)
  }

  /** Bus changes an engine cannot notice: stored candidates stay. */
  ghost predicate Extends(bus: Bus, bus': Bus)
  {
    forall c :: c in bus.proposals ==> c in bus'.proposals && bus'.proposals[c] == bus.proposals[c]
  }

  lemma ChainOkExtends(net: Net, e: nat, blocks: seq<Block>, leaders: seq<nat>, bus: Bus, bus': Bus)
    requires ChainOk(net, e, blocks, leaders, bus) && Extends(bus, bus')
    ensures ChainOk(net, e, blocks, leaders, bus')
  {
    forall i | 0 <= i < |blocks| ensures BlockOk(net, e, bus', blocks[i], i, leaders[i]) {
      assert BlockOk(net, e, bus, blocks[i], i, leaders[i]);
    }
  }

  lemma PhaseOkExtends(net: Net, e: nat, eng: Engine, bus: Bus, bus': Bus)
    requires PhaseOk(net, e, eng, bus) && Extends(bus, bus')
    ensures PhaseOk(net, e, eng, bus')
  {
  }

  lemma EngineOkExtends(net: Net, e: nat, eng: Engine, bus: Bus, bus': Bus)
    requires EngineOk(net, e, eng, bus) && Extends(bus, bus')
    ensures EngineOk(net, e, eng, bus')
  {
    ChainOkExtends(net, e, eng.blocks, eng.leaders, bus, bus');
    PhaseOkExtends(net, e, eng, bus, bus');
  }

  // ---- the phases of one attempt ---------------------------------------------------------

  /** Still in the same attempt, with chain and mode untouched. */
  ghost predicate SameAttempt(eng: Engine, eng': Engine)
  {
    && eng'.blocks == eng.blocks && eng'.leaders == eng.leaders && eng'.mode == eng.mode && eng'.owns == eng.owns
    && InAttempt(eng.phase) && InAttempt(eng'.phase)
    && eng'.phase.a.snapshot == eng.phase.a.snapshot && eng'.phase.a.required == eng.phase.a.required
  }

  /** Either the attempt is rolled back or it moves on to a phase in order. */
  ghost predicate MovesOn(net: Net, e: nat, eng: Engine, eng': Engine, bus: Bus)
  {
    InAttempt(eng.phase) &&
    (eng' == Aborted(eng, eng.phase.a) || (SameAttempt(eng, eng') && PhaseOk(net, e, eng', bus)))
  }

  lemma MovesOnOk(net: Net, e: nat, eng: Engine, eng': Engine, bus: Bus)
    requires EngineOk(net, e, eng, bus) && MovesOn(net, e, eng, eng', bus)
    ensures EngineOk(net, e, eng', bus)
  {
  }

  lemma SameProposalsOk(net: Net, bus: Bus, bus': Bus)
    requires BusOk(net, bus) && bus'.proposals == bus.proposals && bus'.finals == bus.finals
    ensures BusOk(net, bus') && Extends(bus, bus')
  {
    forall d | d in bus'.proposals ensures ProposalOk(net, bus', d) { assert ProposalOk(net, bus, d); }
    forall d | d in bus'.finals ensures FinalOk(net, bus', d) { assert FinalOk(net, bus, d); }
  }

  /** A step keeps the invariant of its engine and of the bus. */
  ghost predicate Keeps(net: Net, e: nat, bus: Bus, r: (Engine, Bus))
  {
    BusOk(net, r.1) && EngineOk(net, e, r.0, r.1) && Extends(bus, r.1)
  }

  lemma MovesKeep(net: Net, e: nat, eng: Engine, bus: Bus, g: Engine, b: Bus)
    requires BusOk(net, bus) && EngineOk(net, e, eng, bus) && (g == eng || MovesOn(net, e, eng, g, bus))
    requires b.proposals == bus.proposals && b.finals == bus.finals
    ensures Keeps(net, e, bus, (g, b))
  {
    if g != eng { MovesOnOk(net, e, eng, g, bus); }
    SameProposalsOk(net, bus, b);
    EngineOkExtends(net, e, g, bus, b);
  }

  lemma BuildMoves(net: Net, e: nat, eng: Engine, bus: Bus, a: Attempt, ts: int)
    requires e < |net.validators| && eng.phase == Begun(a) && EngineOk(net, e, eng, bus)
    ensures MovesOn(net, e, eng, OnBuild(net, e, eng, bus, a, ts), bus)
  {
    if bus.entries != [] { BuiltForm(net, e, eng, a, bus.entries, ts); }
  }

  lemma BuiltForm(net: Net, e: nat, eng: Engine, a: Attempt, pool: seq<Entry>, ts: int)
    requires e < |net.validators| && (eng.mode.inDegraded ==> |net.validators| < net.minValidators)
    requires a.required == if eng.mode.inDegraded then 1 else QuorumRequired(|net.validators|)
    ensures CandidateForm(net, Candidate(net, e, eng, a, pool, ts))
  {
    DedupHashes(pool);
    assert Candidate(net, e, eng, a, pool, ts).proposer == net.validators[e].id;
  }

  /** An engine that follows does so on the stored candidate, signed by whom it follows. */
  lemma FollowSigned(net: Net, e: nat, eng: Engine, bus: Bus, a: Attempt, leader: nat, again: bool)
    requires BusOk(net, bus)
    ensures var g := OnFollow(net, e, eng, bus, a, leader, again);
      g == Aborted(eng, a) ||
      (|eng.blocks| in bus.proposals && SignedForLeader(net, e, |eng.blocks|, bus.proposals[|eng.blocks|], leader))
  {
    if |eng.blocks| in bus.proposals { assert ProposalOk(net, bus, |eng.blocks|); }
  }

  lemma FollowMoves(net: Net, e: nat, eng: Engine, bus: Bus, a: Attempt, leader: nat)
    requires eng.phase == Begun(a) && PhaseOk(net, e, eng, bus) && BusOk(net, bus)
    ensures MovesOn(net, e, eng, OnFollow(net, e, eng, bus, a, leader, false), bus)
  {
    FollowSigned(net, e, eng, bus, a, leader, false);
  }

  lemma RefollowMoves(net: Net, e: nat, eng: Engine, bus: Bus, a: Attempt, leader: nat)
    requires eng.phase == Prepared(a) && BusOk(net, bus)
    ensures MovesOn(net, e, eng, OnFollow(net, e, eng, bus, a, leader, true), bus)
  {
    FollowSigned(net, e, eng, bus, a, leader, true);
  }

  lemma RecheckMoves(net: Net, e: nat, eng: Engine, bus: Bus, a: Attempt)
    requires eng.phase == Prepared(a) && PhaseOk(net, e, eng, bus)
    ensures MovesOn(net, e, eng, OnRecheck(e, eng, bus, a), bus)
  {
  }

  lemma CollectMoves(net: Net, e: nat, eng: Engine, bus: Bus, a: Attempt, blk: Block, leader: nat)
    requires e < |net.validators| && eng.phase == Collecting(a, blk, leader) && PhaseOk(net, e, eng, bus)
    ensures MovesOn(net, e, eng, OnCollect(net, e, eng, bus, a, blk, leader), bus)
  {
  }

  lemma AdoptMoves(net: Net, e: nat, eng: Engine, bus: Bus, a: Attempt, blk: Block, leader: nat, valid: map<Id, Sig>)
    requires eng.phase == Checked(a, blk, leader, valid) && PhaseOk(net, e, eng, bus) && BusOk(net, bus)
    ensures var g := OnAdopt(net, e, eng, bus, a, blk, leader); g == eng || MovesOn(net, e, eng, g, bus)
  {
    var c := |eng.blocks|;
    if c in bus.finals { assert FinalOk(net, bus, c); }
  }

  lemma {:induction false} IndexOfFirst(ids: seq<Id>, i: nat)
    requires i < |ids| && NoDuplicates(ids)
    ensures IndexOf(ids, ids[i]) == i
  {
    if i > 0 {
      assert ids[0] != ids[i];
      IndexOfFirst(ids[1..], i - 1);
    }
  }

  /** The leader's final block: same core, exact shape, and certified for the quorum it collected. */
  lemma FinalBlockOk(net: Net, e: nat, c: nat, blk: Block, bitmap: Bytes, sigs: seq<Sig>, valid: map<Id, Sig>,
                     required: nat)
    requires NoDuplicates(net.Ids()) && e < |net.validators|
    requires blk.blockHash == ComputeBlockHash(blk) && blk.version == 2 && FairlyLabelled(net, blk)
    requires Encodes(bitmap, sigs, net.Ids(), valid) && |valid| >= required
    requires forall id :: id in valid ==>
               id in net.Ids() && net.Good(e, c, blk.blockHash)(IndexOf(net.Ids(), id), valid[id])
    ensures var f := FinalBlock(net, e, blk, bitmap, sigs);
      && FinalFor(net, e, c, blk, f, e)
      && Certified(f.bitmap, f.prepareSigs, |net.validators|, required, net.Good(e, c, f.blockHash))
  {
    EncodedGood(net, net.Good(e, c, blk.blockHash), bitmap, sigs, valid, required);
    EncodedGood(net, net.Good(e, c, blk.blockHash), bitmap, sigs, valid, 0);
    var f := FinalBlock(net, e, blk, bitmap, sigs);
    assert f.commitSig == net.sign(e, f.blockHash);
  }

  lemma EncodedGood(net: Net, good: (nat, Sig) -> bool, bitmap: Bytes, sigs: seq<Sig>, valid: map<Id, Sig>,
                    required: nat)
    requires NoDuplicates(net.Ids()) && Encodes(bitmap, sigs, net.Ids(), valid) && |valid| >= required
    requires forall id :: id in valid ==> id in net.Ids() && good(IndexOf(net.Ids(), id), valid[id])
    ensures Certified(Some(bitmap), Some(sigs), |net.validators|, required, good)
  {
    var ids := net.Ids();
    forall i | 0 <= i < |ids| && ids[i] in valid ensures good(i, valid[ids[i]]) { IndexOfFirst(ids, i); }
    EncodedIsCertified(bitmap, sigs, ids, valid, required, good);
  }

  lemma LowerQuorum(net: Net, e: nat, c: nat, b: Block)
    requires |net.validators| > 0
    requires Certified(b.bitmap, b.prepareSigs, |net.validators|, QuorumRequired(|net.validators|),
                       net.Good(e, c, b.blockHash))
    ensures CertifiedAt(net, e, c, b)
  {
  }

  lemma FinaliseKeepsBus(net: Net, bus: Bus, f: Block)
    requires BusOk(net, bus) && f.index in bus.proposals
    requires SameCore(f, bus.proposals[f.index]) && ExactShape(net, f) && Sealed(net, f)
    ensures BusOk(net, Finalised(bus, f)) && Extends(bus, Finalised(bus, f))
  {
    var bus' := Finalised(bus, f);
    forall d | d in bus'.proposals ensures ProposalOk(net, bus', d) { assert ProposalOk(net, bus, d); }
    forall d | d in bus'.finals ensures FinalOk(net, bus', d) {
      if d != f.index { assert FinalOk(net, bus, d); }
    }
  }

  lemma FinaliseReady(net: Net, e: nat, eng: Engine, bus: Bus, a: Attempt, blk: Block, valid: map<Id, Sig>,
                      bitmap: Bytes, sigs: seq<Sig>)
    requires e < |net.validators| && NoDuplicates(net.Ids()) && BusOk(net, bus)
    requires eng.phase == Checked(a, blk, e, valid) && PhaseOk(net, e, eng, bus)
    requires a.required == if eng.mode.inDegraded then 1 else QuorumRequired(|net.validators|)
    requires Encodes(bitmap, sigs, net.Ids(), valid)
    ensures var f := FinalBlock(net, e, blk, bitmap, sigs);
      && f.index in bus.proposals && SameCore(f, bus.proposals[f.index]) && ExactShape(net, f) && Sealed(net, f)
      && PhaseOk(net, e, eng.(phase := Ready(a, blk, e, f)), bus)
  {
    var f := FinalBlock(net, e, blk, bitmap, sigs);
    assert ProposalOk(net, bus, |eng.blocks|);
    FinalBlockOk(net, e, |eng.blocks|, blk, bitmap, sigs, valid, a.required);
    if !eng.mode.inDegraded { LowerQuorum(net, e, |eng.blocks|, f); }
  }

  lemma FinaliseKeeps(net: Net, e: nat, eng: Engine, bus: Bus, a: Attempt, blk: Block, leader: nat, valid: map<Id, Sig>,
                      bitmap: Bytes, sigs: seq<Sig>)
    requires e < |net.validators| && NoDuplicates(net.Ids()) && BusOk(net, bus)
    requires eng.phase == Checked(a, blk, leader, valid) && EngineOk(net, e, eng, bus)
    ensures Keeps(net, e, bus, OnFinalise(net, e, eng, bus, a, blk, leader, valid, bitmap, sigs))
  {
    if leader == e && Encodes(bitmap, sigs, net.Ids(), valid) {
      FinaliseMoves(net, e, eng, bus, a, blk, valid, bitmap, sigs);
      var f := FinalBlock(net, e, blk, bitmap, sigs);
      FinaliseKeepsBus(net, bus, f);
      EngineOkExtends(net, e, eng.(phase := Ready(a, blk, e, f)), bus, Finalised(bus, f));
    }
  }

  lemma FinaliseMoves(net: Net, e: nat, eng: Engine, bus: Bus, a: Attempt, blk: Block, valid: map<Id, Sig>,
                      bitmap: Bytes, sigs: seq<Sig>)
    requires e < |net.validators| && NoDuplicates(net.Ids()) && BusOk(net, bus)
    requires eng.phase == Checked(a, blk, e, valid) && EngineOk(net, e, eng, bus)
    requires Encodes(bitmap, sigs, net.Ids(), valid)
    ensures var f := FinalBlock(net, e, blk, bitmap, sigs);
      && f.index in bus.proposals && SameCore(f, bus.proposals[f.index]) && ExactShape(net, f) && Sealed(net, f)
      && EngineOk(net, e, eng.(phase := Ready(a, blk, e, f)), bus)
  {
    FinaliseReady(net, e, eng, bus, a, blk, valid, bitmap, sigs);
    PhaseSwap(net, e, eng, Ready(a, blk, e, FinalBlock(net, e, blk, bitmap, sigs)), bus);
  }

  lemma PhaseSwap(net: Net, e: nat, eng: Engine, phase: Phase, bus: Bus)
    requires EngineOk(net, e, eng, bus) && InAttempt(eng.phase) && InAttempt(phase) && phase.a == eng.phase.a
    requires PhaseOk(net, e, eng.(phase := phase), bus)
    ensures EngineOk(net, e, eng.(phase := phase), bus)
  {
    MovesOnOk(net, e, eng, eng.(phase := phase), bus);
  }

  // ---- proposing, voting, committing -------------------------------------------------------

  /** Whichever candidate reaches the slot first, it extends the chain of stored candidates. */
  lemma ProposeKeepsBus(net: Net, e: nat, blocks: seq<Block>, leaders: seq<nat>, blk: Block, bus: Bus)
    requires BusOk(net, bus) && ChainOk(net, e, blocks, leaders, bus)
    requires blk.index == |blocks| && blk.prevHash == PrevHash(blocks) && CandidateForm(net, blk)
    ensures BusOk(net, Proposed(bus, blk)) && Extends(bus, Proposed(bus, blk))
  {
    var c, bus' := |blocks|, Proposed(bus, blk);
    if c !in bus.proposals { NewCandidateOk(net, e, blocks, leaders, blk, bus); }
    forall d | d in bus'.proposals ensures ProposalOk(net, bus', d) {
      if d in bus.proposals { assert ProposalOk(net, bus, d); }
    }
    forall d | d in bus'.finals ensures FinalOk(net, bus', d) { assert FinalOk(net, bus, d); }
  }

  lemma NewCandidateOk(net: Net, e: nat, blocks: seq<Block>, leaders: seq<nat>, blk: Block, bus: Bus)
    requires ChainOk(net, e, blocks, leaders, bus) && |blocks| !in bus.proposals
    requires blk.index == |blocks| && blk.prevHash == PrevHash(blocks) && CandidateForm(net, blk)
    ensures |blocks| in Proposed(bus, blk).proposals && ProposalOk(net, Proposed(bus, blk), |blocks|)
  {
    var c := |blocks|;
    if c > 0 { assert BlockOk(net, e, bus, blocks[c - 1], c - 1, leaders[c - 1]); }
  }

  lemma ProposeOk(net: Net, e: nat, eng: Engine, bus: Bus, a: Attempt, blk: Block)
    requires BusOk(net, bus) && EngineOk(net, e, eng, bus) && eng.phase == Built(a, blk)
    ensures BusOk(net, Proposed(bus, blk)) && Extends(bus, Proposed(bus, blk))
    ensures EngineOk(net, e, eng.(phase := Announced(a, blk)), Proposed(bus, blk))
  {
    ProposeKeepsBus(net, e, eng.blocks, eng.leaders, blk, bus);
    ChainOkExtends(net, e, eng.blocks, eng.leaders, bus, Proposed(bus, blk));
  }

  lemma SingleExact(net: Net, b: Block, good: (nat, Sig) -> bool, i: nat, r: Block)
    requires KeepsOnly(b, |net.validators|, good, i, r) && |net.validators| < net.minValidators
    ensures ExactShape(net, r) && LoneSigner(net, r)
  {
    SingleRank(r.bitmap.value, i, |net.validators|);
  }

  /** The first commit settles the mode for good. */
  lemma NextModeExact(net: Net, eng: Engine)
    requires eng.mode.inDegraded ==> |net.validators| < net.minValidators
    ensures NextMode(net, eng).inDegraded <==> |net.validators| < net.minValidators
  {
  }

  /** The signature kept under its registered key is one that engine e verified under the active ones. */
  lemma KeptIsGood(net: Net, e: nat, c: nat, f: Block, i: nat, r: Block)
    requires KeepsOnly(f, |net.validators|, net.Registered(f.blockHash), i, r) && AllGood(net, e, c, f)
    ensures CertifiedAt(net, e, c, r)
  {
    KeptIsCertified(f, |net.validators|, net.Registered(f.blockHash), i, r);
    SingleIsCertified(r.bitmap.value, r.prepareSigs.value[0], i, |net.validators|, net.Good(e, c, r.blockHash));
  }

  /** What the commit appends is the stored candidate, certified, in either mode. */
  lemma AppliedOk(net: Net, e: nat, eng: Engine, bus: Bus, blk: Block, leader: nat, f: Block, applied: Option<Block>)
    requires |eng.blocks| in bus.proposals && blk == bus.proposals[|eng.blocks|]
    requires FinalFor(net, e, |eng.blocks|, blk, f, leader)
    requires !eng.mode.inDegraded ==> CertifiedAt(net, e, |eng.blocks|, f)
    requires eng.mode.inDegraded ==> |net.validators| < net.minValidators
    requires DegradedResult(NextMode(net, eng).inDegraded, f, |net.validators|, net.Registered(f.blockHash), applied)
    requires applied.Some?
    ensures BlockOk(net, e, bus, applied.value, |eng.blocks|, leader) && applied.value.stateRoot == blk.stateRoot
  {
    NextModeExact(net, eng);
    if NextMode(net, eng).inDegraded {
      var i :| KeepsOnly(f, |net.validators|, net.Registered(f.blockHash), i, applied.value);
      KeptOk(net, e, |eng.blocks|, blk, leader, f, i, applied.value);
    }
  }

  lemma KeptOk(net: Net, e: nat, c: nat, blk: Block, leader: nat, f: Block, i: nat, r: Block)
    requires FinalFor(net, e, c, blk, f, leader) && |net.validators| < net.minValidators
    requires KeepsOnly(f, |net.validators|, net.Registered(f.blockHash), i, r)
    ensures SameCore(r, blk) && CertifiedAt(net, e, c, r) && ExactShape(net, r) && LoneSigner(net, r)
    ensures Sealed(net, r) && SealedBy(net, e, c, r, leader) && r.stateRoot == f.stateRoot
  {
    KeptIsGood(net, e, c, f, i, r);
    SingleExact(net, f, net.Registered(f.blockHash), i, r);
    assert r.commitSig == f.commitSig && r.blockHash == f.blockHash;
  }

  lemma AppendedChain(net: Net, e: nat, blocks: seq<Block>, leaders: seq<nat>, b: Block, leader: nat, bus: Bus)
    requires ChainOk(net, e, blocks, leaders, bus) && BlockOk(net, e, bus, b, |blocks|, leader)
    ensures ChainOk(net, e, blocks + [b], leaders + [leader], bus)
  {
    forall i | 0 <= i < |blocks + [b]|
      ensures BlockOk(net, e, bus, (blocks + [b])[i], i, (leaders + [leader])[i])
    {
      if i < |blocks| { assert BlockOk(net, e, bus, blocks[i], i, leaders[i]); }
    }
  }

  lemma AppendedOk(net: Net, e: nat, eng: Engine, bus: Bus, a: Attempt, blk: Block, leader: nat, b: Block, mode: Mode)
    requires ChainOk(net, e, eng.blocks, eng.leaders, bus) && |eng.owns| == |eng.blocks|
    requires QuorumCheckOk(eng, bus, e, a, blk, leader)
    requires BlockOk(net, e, bus, b, |eng.blocks|, leader) && b.stateRoot == blk.stateRoot
    requires mode.inDegraded ==> |net.validators| < net.minValidators
    ensures EngineOk(net, e, Appended(e, eng, a, blk, leader, b, mode), bus)
  {
    AppendedChain(net, e, eng.blocks, eng.leaders, b, leader, bus);
  }

  lemma CommitKeeps(net: Net, e: nat, eng: Engine, bus: Bus, a: Attempt, blk: Block, leader: nat, f: Block,
                    applied: Option<Block>, stateApplied: bool)
    requires BusOk(net, bus) && EngineOk(net, e, eng, bus) && eng.phase == Ready(a, blk, leader, f)
    ensures Keeps(net, e, bus, (OnCommit(net, e, eng, a, blk, leader, f, applied, stateApplied), bus))
  {
    var mode := NextMode(net, eng);
    NextModeExact(net, eng);
    if DegradedResult(mode.inDegraded, f, |net.validators|, net.Registered(f.blockHash), applied) {
      if applied.Some? && stateApplied {
        AppliedOk(net, e, eng, bus, blk, leader, f, applied);
        AppendedOk(net, e, eng, bus, a, blk, leader, applied.value, mode);
      } else {
        MovesOnOk(net, e, eng, Aborted(eng, a), bus);
      }
    }
  }

  lemma EnqueueKeeps(net: Net, e: nat, eng: Engine, bus: Bus, entry: Entry)
    requires BusOk(net, bus) && EngineOk(net, e, eng, bus) && eng.phase.Idle?
    ensures Keeps(net, e, bus, OnEnqueue(eng, bus, entry))
  {
    var (g, b) := OnEnqueue(eng, bus, entry);
    SameProposalsOk(net, bus, b);
    EngineOkExtends(net, e, g, bus, b);
  }

  lemma BeginKeeps(net: Net, e: nat, eng: Engine, bus: Bus)
    requires BusOk(net, bus) && EngineOk(net, e, eng, bus) && eng.phase.Idle?
    ensures Keeps(net, e, bus, (OnBegin(net, eng, bus), bus))
  {
  }

  lemma CleanKeeps(net: Net, e: nat, eng: Engine, bus: Bus, hashes: set<Bytes>)
    requires BusOk(net, bus) && EngineOk(net, e, eng, bus) && eng.phase.Cleanup?
    ensures Keeps(net, e, bus, (eng.(phase := Idle), Removed(bus, hashes)))
  {
    var g, b := eng.(phase := Idle), Removed(bus, hashes);
    SameProposalsOk(net, bus, b);
    EngineOkExtends(net, e, g, bus, b);
  }

  // ---- every step, every run -------------------------------------------------------------

  lemma VoteMoves(net: Net, e: nat, eng: Engine, bus: Bus)
    requires e < |net.validators| && PhaseOk(net, e, eng, bus)
    ensures var g := OnVote(net, e, eng, bus).0; g == eng || MovesOn(net, e, eng, g, bus)
  {
  }

  lemma VoteBus(net: Net, e: nat, eng: Engine, bus: Bus)
    requires e < |net.validators|
    ensures var b := OnVote(net, e, eng, bus).1; b.proposals == bus.proposals && b.finals == bus.finals
  {
  }

  lemma VoteKeeps(net: Net, e: nat, eng: Engine, bus: Bus)
    requires e < |net.validators| && BusOk(net, bus) && EngineOk(net, e, eng, bus)
    ensures Keeps(net, e, bus, OnVote(net, e, eng, bus))
  {
    var (g, b) := OnVote(net, e, eng, bus);
    VoteMoves(net, e, eng, bus);
    VoteBus(net, e, eng, bus);
    MovesKeep(net, e, eng, bus, g, b);
  }

  /** Events that move an engine on and leave the bus alone. */
  predicate MoveEvent(ev: Event)
  {
    ev.Build? || ev.Follow? || ev.Recheck? || ev.Refollow? || ev.Collect? || ev.Adopt? || ev.Abort?
  }

  lemma MoveEventMoves(net: Net, e: nat, eng: Engine, bus: Bus, ev: Event)
    requires e < |net.validators| && BusOk(net, bus) && EngineOk(net, e, eng, bus) && MoveEvent(ev)
    ensures var (g, b) := Local(net, e, eng, bus, ev); b == bus && (g == eng || MovesOn(net, e, eng, g, bus))
  {
    var p := eng.phase;
    match ev
    case Build(_, ts) => if p.Begun? { BuildMoves(net, e, eng, bus, p.a, ts); }
    case Follow(_, leader) => if p.Begun? { FollowMoves(net, e, eng, bus, p.a, leader); }
    case Recheck(_) => if p.Prepared? { RecheckMoves(net, e, eng, bus, p.a); }
    case Refollow(_, leader) => if p.Prepared? { RefollowMoves(net, e, eng, bus, p.a, leader); }
    case Collect(_) => if p.Collecting? { CollectMoves(net, e, eng, bus, p.a, p.blk, p.leader); }
    case Adopt(_) => if p.Checked? { AdoptMoves(net, e, eng, bus, p.a, p.blk, p.leader, p.valid); }
    case Abort(_) =>
  }

  /** Events that write to the bus. */
  predicate BusEvent(ev: Event)
  {
    ev.Enqueue? || ev.Prove? || ev.Propose? || ev.Vote? || ev.Finalise? || ev.Clean?
  }

  lemma BusEventKeeps(net: Net, e: nat, eng: Engine, bus: Bus, ev: Event)
    requires e < |net.validators| && NoDuplicates(net.Ids())
    requires BusOk(net, bus) && EngineOk(net, e, eng, bus) && BusEvent(ev)
    requires Keeps(net, e, bus, (eng, bus))
    ensures Keeps(net, e, bus, Local(net, e, eng, bus, ev))
  {
    var p := eng.phase;
    match ev
    case Enqueue(_, entry) => if p.Idle? { EnqueueKeeps(net, e, eng, bus, entry); }
    case Prove(_) => MovesKeep(net, e, eng, bus, eng, OnProve(net, e, eng, bus));
    case Propose(_) => if p.Built? { ProposeOk(net, e, eng, bus, p.a, p.blk); }
    case Vote(_) => VoteKeeps(net, e, eng, bus);
    case Finalise(_, bitmap, sigs) =>
      if p.Checked? { FinaliseKeeps(net, e, eng, bus, p.a, p.blk, p.leader, p.valid, bitmap, sigs); }
    case Clean(_) => if p.Cleanup? { CleanKeeps(net, e, eng, bus, p.hashes); }
  }

  lemma LocalKeeps(net: Net, e: nat, eng: Engine, bus: Bus, ev: Event)
    requires e < |net.validators| && NoDuplicates(net.Ids())
    requires BusOk(net, bus) && EngineOk(net, e, eng, bus)
    ensures Keeps(net, e, bus, Local(net, e, eng, bus, ev))
  {
    MovesKeep(net, e, eng, bus, eng, bus);
    if MoveEvent(ev) {
      MoveEventMoves(net, e, eng, bus, ev);
      var (g, b) := Local(net, e, eng, bus, ev);
      MovesKeep(net, e, eng, bus, g, b);
    } else if BusEvent(ev) {
      BusEventKeeps(net, e, eng, bus, ev);
    } else {
      OtherEventKeeps(net, e, eng, bus, ev);
    }
  }

  lemma OtherEventKeeps(net: Net, e: nat, eng: Engine, bus: Bus, ev: Event)
    requires e < |net.validators| && BusOk(net, bus) && EngineOk(net, e, eng, bus) && (ev.Begin? || ev.Commit?)
    requires Keeps(net, e, bus, (eng, bus))
    ensures Keeps(net, e, bus, Local(net, e, eng, bus, ev))
  {
    var p := eng.phase;
    match ev
    case Begin(_) => if p.Idle? { BeginKeeps(net, e, eng, bus); }
    case Commit(_, applied, stateApplied) =>
      if p.Ready? { CommitKeeps(net, e, eng, bus, p.a, p.blk, p.leader, p.final, applied, stateApplied); }
  }

  ghost predicate StateOk(net: Net, s: State)
  {
    && |s.engines| == |net.validators|
    && BusOk(net, s.bus)
    && forall e :: 0 <= e < |s.engines| ==> EngineOk(net, e, s.engines[e], s.bus)
  }

  lemma StepOk(net: Net, s: State, ev: Event)
    requires NoDuplicates(net.Ids()) && StateOk(net, s)
    ensures StateOk(net, Step(net, s, ev))
  {
    var s' := Step(net, s, ev);
    if ev.e < |s.engines| {
      LocalKeeps(net, ev.e, s.engines[ev.e], s.bus, ev);
      forall e | 0 <= e < |s'.engines| ensures EngineOk(net, e, s'.engines[e], s'.bus) {
        if e != ev.e { EngineOkExtends(net, e, s.engines[e], s.bus, s'.bus); }
      }
    }
  }

  lemma {:induction false} RunOk(net: Net, evs: seq<Event>)
    requires NoDuplicates(net.Ids())
    ensures StateOk(net, Run(net, evs))
  {
    if evs != [] {
      RunOk(net, evs[..|evs| - 1]);
      StepOk(net, Run(net, evs[..|evs| - 1]), evs[|evs| - 1]);
    }
  }

  // ---- theorems ---------------------------------------------------------------------------

  lemma HeldBlock(net: Net, s: State, e: nat, i: nat)
    requires StateOk(net, s) && e < |s.engines| && i < |s.engines[e].blocks|
    ensures |s.engines[e].leaders| == |s.engines[e].blocks|
    ensures BlockOk(net, e, s.bus, s.engines[e].blocks[i], i, s.engines[e].leaders[i]) && ProposalOk(net, s.bus, i)
  {
    assert EngineOk(net, e, s.engines[e], s.bus);
    assert BlockOk(net, e, s.bus, s.engines[e].blocks[i], i, s.engines[e].leaders[i]);
  }

  /** A held block is the stored candidate of its index in every hashed field. */
  lemma StoredBlock(net: Net, s: State, e: nat, i: nat)
    requires StateOk(net, s) && e < |s.engines| && i < |s.engines[e].blocks|
    ensures var b := s.engines[e].blocks[i];
      && i in s.bus.proposals && b.index == i && b.blockHash == ComputeBlockHash(b) == s.bus.proposals[i].blockHash
      && b.prevHash == (if i == 0 then ZeroHash
                        else if i - 1 in s.bus.proposals then s.bus.proposals[i - 1].blockHash else b.prevHash)
      && b.stateRoot == s.bus.proposals[i].stateRoot && b.anchored == s.bus.proposals[i].anchored
  {
    HeldBlock(net, s, e, i);
  }

  /** Agreement: whoever each engine takes for the leader, two engines that hold a block at an index hold
      the same block hash, and with it the same hashed fields. */
  lemma Agreement(net: Net, evs: seq<Event>, e1: nat, e2: nat, i: nat)
    requires NoDuplicates(net.Ids())
    requires e1 < |net.validators| && e2 < |net.validators|
    requires i < |Run(net, evs).engines[e1].blocks| && i < |Run(net, evs).engines[e2].blocks|
    ensures var b1, b2 := Run(net, evs).engines[e1].blocks[i], Run(net, evs).engines[e2].blocks[i];
      b1.blockHash == b2.blockHash == ComputeBlockHash(b1) == ComputeBlockHash(b2)
  {
    RunOk(net, evs);
    var s := Run(net, evs);
    StoredBlock(net, s, e1, i);
    StoredBlock(net, s, e2, i);
  }

  /** Whoever an engine follows, votes for and commits under has signed the stored candidate, by the keys the engine
      holds for that cycle. */
  lemma FollowedHasSigned(net: Net, evs: seq<Event>, e: nat)
    requires NoDuplicates(net.Ids()) && e < |net.validators|
    requires var p := Run(net, evs).engines[e].phase; UnderLeader(p) && p.leader != e
    ensures var s := Run(net, evs);
      var c, p := |s.engines[e].blocks|, s.engines[e].phase;
      c in s.bus.proposals && p.blk == s.bus.proposals[c] && SignedForLeader(net, e, c, p.blk, p.leader)
  {
    RunOk(net, evs);
    var s := Run(net, evs);
    assert EngineOk(net, e, s.engines[e], s.bus);
  }

  /** A candidate whose first signature does not verify for the elected leader, whose hash or whose root is wrong, is
      neither voted for nor kept: the tree is back at the snapshot and the bus is as it was. */
  lemma UnsignedIsDropped(net: Net, e: nat, eng: Engine, bus: Bus, ev: Event, a: Attempt)
    requires e < |net.validators| && |eng.blocks| in bus.proposals
    requires (ev.Follow? && eng.phase == Begun(a)) || (ev.Refollow? && eng.phase == Prepared(a))
    ensures var (g, b) := Local(net, e, eng, bus, ev);
      var blk, c := bus.proposals[|eng.blocks|], |eng.blocks|;
      && b == bus && g.blocks == eng.blocks && g.pending == eng.pending
      && (g.phase != Idle <==>
            && ev.leader != e && ev.leader < |net.validators|
            && VerifiesUnder(net.ver, net.keys(e, ev.leader, c), blk.blockHash, FirstSig(blk))
            && ComputeBlockHash(blk) == blk.blockHash && InsertAll(eng.tree, blk.anchored) == blk.stateRoot)
      && (g.phase == Idle ==> g.tree == a.snapshot && g.retained == a.batch && g.cycle == eng.cycle + 1)
  {
  }

  /** Linkage: every chain is numbered from 0 and each block names its predecessor's hash, although no
      engine checks either field of the block it is given. */
  lemma Linkage(net: Net, evs: seq<Event>, e: nat, i: nat)
    requires NoDuplicates(net.Ids()) && e < |net.validators| && i < |Run(net, evs).engines[e].blocks|
    ensures LinkedAt(Run(net, evs).engines[e].blocks, i)
  {
    RunOk(net, evs);
    StateLinked(net, Run(net, evs), e, i);
  }

  ghost predicate LinkedAt(blocks: seq<Block>, i: nat)
    requires i < |blocks|
  {
    && blocks[i].index == i
    && blocks[i].prevHash == if i == 0 then ZeroHash else blocks[i - 1].blockHash
  }

  lemma StateLinked(net: Net, s: State, e: nat, i: nat)
    requires StateOk(net, s) && e < |s.engines| && i < |s.engines[e].blocks|
    ensures LinkedAt(s.engines[e].blocks, i)
  {
    StoredBlock(net, s, e, i);
    if i > 0 { StoredBlock(net, s, e, i - 1); }
  }

  /** Every committed block, trimmed or not, passes verifyPrepareQuorum on the engine that holds it, by the keys
      that engine holds for the cycle; and in a network below its minimum it is labelled with one signature. */
  lemma EveryBlockCertified(net: Net, evs: seq<Event>, e: nat, i: nat)
    requires NoDuplicates(net.Ids()) && e < |net.validators| && i < |Run(net, evs).engines[e].blocks|
    ensures CertifiedAt(net, e, i, Run(net, evs).engines[e].blocks[i])
    ensures LoneSigner(net, Run(net, evs).engines[e].blocks[i])
    ensures FairlyLabelled(net, Run(net, evs).engines[e].blocks[i])
  {
    RunOk(net, evs);
    HeldBlock(net, Run(net, evs), e, i);
  }

  /** Between cycles an engine's tree root is its last block's StateRoot, unless its last commit was, as
      leader, of an older stored candidate than the one it had just built; then it is the root of the
      candidate it built. */
  lemma RootMatchesLastBlock(net: Net, evs: seq<Event>, e: nat)
    requires NoDuplicates(net.Ids()) && e < |net.validators|
    requires Run(net, evs).engines[e].phase.Idle? && Run(net, evs).engines[e].blocks != []
    ensures var eng := Run(net, evs).engines[e];
      && |eng.owns| == |eng.blocks|
      && var last := |eng.blocks| - 1;
         (eng.tree == eng.blocks[last].stateRoot <==>
          (eng.owns[last].Some? ==> eng.owns[last].value == eng.blocks[last].stateRoot))
  {
    RunOk(net, evs);
    assert EngineOk(net, e, Run(net, evs).engines[e], Run(net, evs).bus);
  }

  // ---- no entry is lost ---------------------------------------------------------------------

  /** A step takes a hash out of the pool only if the engine holds it in a block, and never out of a chain. */
  lemma LocalLosesNothing(net: Net, e: nat, eng: Engine, bus: Bus, ev: Event)
    requires e < |net.validators| && PhaseOk(net, e, eng, bus)
    ensures var (g, b) := Local(net, e, eng, bus, ev);
      && AnchoredBy(eng.blocks) <= AnchoredBy(g.blocks)
      && Hashes(bus.entries) <= Hashes(b.entries) + AnchoredBy(g.blocks)
      && (ev.Enqueue? && eng.phase.Idle? ==> ev.entry.hash in Hashes(b.entries))
  {
    match ev
    case Enqueue(_, entry) => HashesAppend(bus.entries, entry);
    case Commit(_, applied, _) =>
      if applied.Some? { AnchoredByAppend(eng.blocks, applied.value); }
    case Clean(_) =>
      if eng.phase.Cleanup? { WithoutHashes(bus.entries, eng.phase.hashes); }
    case _ => QuietStep(net, e, eng, bus, ev);
  }

  lemma QuietStep(net: Net, e: nat, eng: Engine, bus: Bus, ev: Event)
    requires e < |net.validators| && !ev.Enqueue? && !ev.Commit? && !ev.Clean?
    ensures Local(net, e, eng, bus, ev).0.blocks == eng.blocks
    ensures Local(net, e, eng, bus, ev).1.entries == bus.entries
  {
  }

  ghost predicate Held(s: State, h: Bytes)
  {
    h in Hashes(s.bus.entries) || exists e :: 0 <= e < |s.engines| && h in AnchoredBy(s.engines[e].blocks)
  }

  lemma HeldStep(net: Net, s: State, ev: Event, h: Bytes)
    requires StateOk(net, s) && (h in s.accepted ==> Held(s, h)) && h in Step(net, s, ev).accepted
    ensures Held(Step(net, s, ev), h)
  {
    var s' := Step(net, s, ev);
    if ev.e < |s.engines| {
      LocalLosesNothing(net, ev.e, s.engines[ev.e], s.bus, ev);
      if h in s.accepted && h !in Hashes(s.bus.entries) {
        var e :| 0 <= e < |s.engines| && h in AnchoredBy(s.engines[e].blocks);
        assert h in AnchoredBy(s'.engines[e].blocks);
      } else if h !in Hashes(s'.bus.entries) {
        assert h in AnchoredBy(s'.engines[ev.e].blocks);
      }
    }
  }

  /** Every hash an engine accepted is in the pool or in a block some engine committed, at every moment. */
  lemma {:induction false} NoEntryLost(net: Net, evs: seq<Event>, h: Bytes)
    requires NoDuplicates(net.Ids()) && h in Run(net, evs).accepted
    ensures Held(Run(net, evs), h)
  {
    var pre := evs[..|evs| - 1];
    RunOk(net, pre);
    if h in Run(net, pre).accepted { NoEntryLost(net, pre, h); }
    HeldStep(net, Run(net, pre), evs[|evs| - 1], h);
  }
}
