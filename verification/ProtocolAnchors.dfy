/**
 The anchor proofs the engines of a multi-node run store when they commit (pkg/consensus/engine.go), and
 exactly when such a proof verifies against the block it names.
*/
module ProtocolAnchors {
  import opened Common
  import opened Smt
  import opened Chain
  import opened Codec
  import opened Degraded
  import opened Batch
  import opened GossipBus
  import opened Protocol
  import opened ProtocolSafety

  /** Entry hashes are [32]byte. */
  ghost predicate Sized(evs: seq<Event>)
  {
    forall i :: 0 <= i < |evs| ==> SizedEvent(evs[i])
  }

  ghost predicate SizedEvent(ev: Event)
  {
    ev.Enqueue? ==> |ev.entry.hash| == 32
  }

  // ---- invariant ----------------------------------------------------------------------

  /** A tree that holds hashes, each under itself. */
  ghost predicate TreeSound(t: Digest)
  {
    Canonical(t, SMT_DEPTH) && HashSized(Contents(t).Keys) && Contents(t) == SelfMap(Contents(t).Keys)
  }

  /** The candidate's root accounts for its entries. */
  ghost predicate CandidateSound(b: Block)
  {
    TreeSound(b.stateRoot) && HashSized(Hashes(b.anchored)) && Hashes(b.anchored) <= Contents(b.stateRoot).Keys
  }

  ghost predicate BusSound(bus: Bus)
  {
    HashSized(Hashes(bus.entries)) && forall c :: c in bus.proposals ==> CandidateSound(bus.proposals[c])
  }

  /** A record names a block that holds the hash, and has the proof of the tree the block was committed with: the
      block's, unless the engine led it in place of a candidate of its own. */
  ghost predicate RecordOk(blocks: seq<Block>, owns: seq<Option<Digest>>, h: Bytes, r: AnchorProof)
  {
    && |owns| == |blocks| && r.blockIndex < |blocks| && Describes(blocks[r.blockIndex], h, r)
    && r.stateRoot == BuiltRoot(blocks, owns, r.blockIndex)
    && TreeSound(r.stateRoot) && r.proof == OrEmpty(ProveD(r.stateRoot, h, SMT_DEPTH))
  }

  ghost predicate RecordsOk(blocks: seq<Block>, owns: seq<Option<Digest>>, anchored: map<Bytes, AnchorProof>)
  {
    forall h {:trigger RecordOk(blocks, owns, h, anchored[h])} ::
      h in anchored ==> RecordOk(blocks, owns, h, anchored[h])
  }

  /** Only a leader has a candidate of its own. */
  ghost predicate OwnsLed(e: nat, leaders: seq<nat>, owns: seq<Option<Digest>>)
  {
    |leaders| == |owns| && forall i :: 0 <= i < |owns| && owns[i].Some? ==> leaders[i] == e
  }

  ghost predicate PhaseSound(p: Phase)
  {
    && (InAttempt(p) ==> TreeSound(p.a.snapshot))
    && (p.Built? ==> CandidateSound(p.blk))
  }

  ghost predicate EngineSound(e: nat, eng: Engine)
  {
    && TreeSound(eng.tree) && PhaseSound(eng.phase)
    && eng.anchored.Keys == AnchoredBy(eng.blocks)
    && RecordsOk(eng.blocks, eng.owns, eng.anchored) && OwnsLed(e, eng.leaders, eng.owns)
  }

  // ---- steps ----------------------------------------------------------------------------

  lemma InsertSound(t: Digest, es: seq<Entry>)
    requires TreeSound(t) && HashSized(Hashes(es))
    ensures TreeSound(InsertAll(t, es)) && Hashes(es) <= Contents(InsertAll(t, es)).Keys
  {
    var s := Contents(t).Keys;
    InsertAllContents(t, s, es);
    assert SelfMap(s + Hashes(es)).Keys == s + Hashes(es);
  }

  lemma BuildSound(net: Net, e: nat, eng: Engine, bus: Bus, a: Attempt, ts: int)
    requires e < |net.validators| && EngineSound(e, eng) && BusSound(bus) && eng.phase == Begun(a)
    ensures EngineSound(e, OnBuild(net, e, eng, bus, a, ts))
  {
    if bus.entries != [] {
      DedupHashes(bus.entries);
      InsertSound(eng.tree, Dedup(bus.entries));
    }
  }

  lemma FollowSound(net: Net, e: nat, eng: Engine, bus: Bus, a: Attempt, leader: nat, again: bool)
    requires EngineSound(e, eng) && BusSound(bus) && InAttempt(eng.phase) && eng.phase.a == a
    ensures EngineSound(e, OnFollow(net, e, eng, bus, a, leader, again))
  {
    if |eng.blocks| in bus.proposals { InsertSound(eng.tree, bus.proposals[|eng.blocks|].anchored); }
  }

  lemma ProposeSound(bus: Bus, blk: Block)
    requires BusSound(bus) && CandidateSound(blk)
    ensures BusSound(Proposed(bus, blk))
  {
  }

  lemma RecordsAppend(blocks: seq<Block>, owns: seq<Option<Digest>>, anchored: map<Bytes, AnchorProof>, b: Block,
                      own: Option<Digest>)
    requires RecordsOk(blocks, owns, anchored) && |owns| == |blocks|
    ensures RecordsOk(blocks + [b], owns + [own], anchored)
  {
    forall h | h in anchored ensures RecordOk(blocks + [b], owns + [own], h, anchored[h]) {
      assert RecordOk(blocks, owns, h, anchored[h]);
    }
  }

  lemma {:induction false} StoredOk(blocks: seq<Block>, owns: seq<Option<Digest>>, anchored: map<Bytes, AnchorProof>,
                                    es: seq<Entry>, tree: Digest, index: nat, time: int)
    requires RecordsOk(blocks, owns, anchored) && |owns| == |blocks|
    requires TreeSound(tree) && index < |blocks| && es <= blocks[index].anchored && time == blocks[index].timestamp
    requires tree == BuiltRoot(blocks, owns, index)
    ensures var m := Stored(anchored, es, tree, index, time);
      RecordsOk(blocks, owns, m) && m.Keys == anchored.Keys + Hashes(es)
  {
    if es != [] {
      var rest, x := es[..|es| - 1], es[|es| - 1];
      assert es == rest + [x];
      HashesAppend(rest, x);
      StoredOk(blocks, owns, anchored, rest, tree, index, time);
      var before, m := Stored(anchored, rest, tree, index, time), Stored(anchored, es, tree, index, time);
      forall h | h in m ensures RecordOk(blocks, owns, h, m[h]) {
        if h != x.hash { assert RecordOk(blocks, owns, h, before[h]); }
      }
    }
  }

  lemma AppendSound(net: Net, e: nat, eng: Engine, bus: Bus, a: Attempt, blk: Block, leader: nat, b: Block, mode: Mode)
    requires EngineSound(e, eng) && |eng.owns| == |eng.blocks| && QuorumCheckOk(eng, bus, e, a, blk, leader)
    requires b.stateRoot == blk.stateRoot
    ensures EngineSound(e, Appended(e, eng, a, blk, leader, b, mode))
  {
    var d := Appended(e, eng, a, blk, leader, b, mode);
    var own := d.owns[|eng.owns|];
    assert d.owns == eng.owns + [own];
    RecordsAppend(eng.blocks, eng.owns, eng.anchored, b, own);
    AnchoredByAppend(eng.blocks, b);
    assert eng.tree == BuiltRoot(d.blocks, d.owns, |eng.blocks|);
    StoredOk(d.blocks, d.owns, eng.anchored, b.anchored, eng.tree, |eng.blocks|, b.timestamp);
  }

  lemma CommitSound(net: Net, e: nat, eng: Engine, bus: Bus, a: Attempt, blk: Block, leader: nat, f: Block,
                    applied: Option<Block>, stateApplied: bool)
    requires EngineSound(e, eng) && EngineOk(net, e, eng, bus) && eng.phase == Ready(a, blk, leader, f)
    ensures EngineSound(e, OnCommit(net, e, eng, a, blk, leader, f, applied, stateApplied))
  {
    var mode := NextMode(net, eng);
    if DegradedResult(mode.inDegraded, f, |net.validators|, net.Registered(f.blockHash), applied) {
      if applied.Some? && stateApplied {
        AppliedOk(net, e, eng, bus, blk, leader, f, applied);
        AppendSound(net, e, eng, bus, a, blk, leader, applied.value, mode);
      }
    }
  }

  lemma LocalSound(net: Net, e: nat, eng: Engine, bus: Bus, ev: Event)
    requires e < |net.validators| && EngineOk(net, e, eng, bus) && SizedEvent(ev)
    requires EngineSound(e, eng) && BusSound(bus)
    ensures var (g, b) := Local(net, e, eng, bus, ev); EngineSound(e, g) && BusSound(b)
  {
    var p := eng.phase;
    match ev
    case Enqueue(_, entry) => HashesAppend(bus.entries, entry);
    case Build(_, ts) => if p.Begun? { BuildSound(net, e, eng, bus, p.a, ts); }
    case Propose(_) => if p.Built? { ProposeSound(bus, p.blk); }
    case Follow(_, leader) => if p.Begun? { FollowSound(net, e, eng, bus, p.a, leader, false); }
    case Refollow(_, leader) => if p.Prepared? { FollowSound(net, e, eng, bus, p.a, leader, true); }
    case Commit(_, applied, stateApplied) =>
      if p.Ready? { CommitSound(net, e, eng, bus, p.a, p.blk, p.leader, p.final, applied, stateApplied); }
    case Clean(_) => if p.Cleanup? { WithoutHashes(bus.entries, p.hashes); }
    case _ => QuietSound(net, e, eng, bus, ev);
  }

  /** Neither chain, records, pool nor candidates move; the tree stays or is rolled back. */
  ghost predicate Quiet(eng: Engine, bus: Bus, g: Engine, b: Bus)
  {
    && g.blocks == eng.blocks && g.leaders == eng.leaders && g.owns == eng.owns && g.anchored == eng.anchored
    && b.entries == bus.entries && b.proposals == bus.proposals
    && (g.tree == eng.tree || (InAttempt(eng.phase) && g.tree == eng.phase.a.snapshot))
    && (g.phase == eng.phase || !g.phase.Built?)
    && (InAttempt(g.phase) ==>
          g.phase.a.snapshot == eng.tree || (InAttempt(eng.phase) && g.phase.a.snapshot == eng.phase.a.snapshot))
  }

  lemma QuietShape(net: Net, e: nat, eng: Engine, bus: Bus, ev: Event)
    requires e < |net.validators|
    requires ev.Begin? || ev.Prove? || ev.Vote? || ev.Recheck? || ev.Collect? || ev.Finalise? || ev.Adopt? || ev.Abort?
    ensures var (g, b) := Local(net, e, eng, bus, ev); Quiet(eng, bus, g, b)
  {
    if ev.Vote? { VoteQuiet(net, e, eng, bus); }
    if ev.Finalise? || ev.Adopt? { FinalQuiet(net, e, eng, bus, ev); }
  }

  lemma FinalQuiet(net: Net, e: nat, eng: Engine, bus: Bus, ev: Event)
    requires e < |net.validators| && (ev.Finalise? || ev.Adopt?)
    ensures var (g, b) := Local(net, e, eng, bus, ev); Quiet(eng, bus, g, b)
  {
  }

  lemma VoteQuiet(net: Net, e: nat, eng: Engine, bus: Bus)
    requires e < |net.validators|
    ensures var (g, b) := OnVote(net, e, eng, bus); Quiet(eng, bus, g, b)
  {
  }

  lemma QuietSound(net: Net, e: nat, eng: Engine, bus: Bus, ev: Event)
    requires e < |net.validators| && EngineSound(e, eng) && BusSound(bus)
    requires ev.Begin? || ev.Prove? || ev.Vote? || ev.Recheck? || ev.Collect? || ev.Finalise? || ev.Adopt? || ev.Abort?
    ensures var (g, b) := Local(net, e, eng, bus, ev); EngineSound(e, g) && BusSound(b)
  {
    QuietShape(net, e, eng, bus, ev);
    var (g, b) := Local(net, e, eng, bus, ev);
    QuietKeeps(e, eng, bus, g, b);
  }

  lemma QuietKeeps(e: nat, eng: Engine, bus: Bus, g: Engine, b: Bus)
    requires EngineSound(e, eng) && BusSound(bus) && Quiet(eng, bus, g, b)
    ensures EngineSound(e, g) && BusSound(b)
  {
  }

  ghost predicate StateSound(s: State)
  {
    BusSound(s.bus) && forall e :: 0 <= e < |s.engines| ==> EngineSound(e, s.engines[e])
  }

  lemma {:induction false} RunSound(net: Net, evs: seq<Event>)
    requires NoDuplicates(net.Ids()) && Sized(evs)
    ensures StateSound(Run(net, evs))
  {
    if evs != [] {
      var pre, ev := evs[..|evs| - 1], evs[|evs| - 1];
      RunSound(net, pre);
      RunOk(net, pre);
      var s := Run(net, pre);
      if ev.e < |s.engines| { LocalSound(net, ev.e, s.engines[ev.e], s.bus, ev); }
    }
  }

  // ---- theorems ----------------------------------------------------------------------------

  /** A stored proof verifies against another root iff it is the proof of that very root; or nothing was found, and
      the other root is the lone leaf of the hash. */
  lemma StoredProofIff(h: Bytes, own: Digest, root: Digest)
    requires TreeSound(own) && TreeSound(root) && h in Contents(root)
    ensures VerifyD(h, h, root, OrEmpty(ProveD(own, h, SMT_DEPTH)), SMT_DEPTH) <==>
            own == root || (h !in Contents(own) && root == LeafH(h, h))
  {
    var proof := OrEmpty(ProveD(own, h, SMT_DEPTH));
    CanonicalPlaced(own);
    CanonicalPlaced(root);
    ProofExact(root, h, h, proof, SMT_DEPTH);
    ProofExact(own, h, h, proof, SMT_DEPTH);
    ProveComplete(own, h, SMT_DEPTH);
    ProveComplete(root, h, SMT_DEPTH);
  }

  lemma CanonicalPlaced(t: Digest)
    requires TreeSound(t)
    ensures Placed(t, SMT_DEPTH)
  {
  }

  /** In every run, every hash of an engine's chain has a record, and it verifies against the block it names exactly
      when the engine did not lead that block in place of a candidate of its own, or that candidate had the same root
      (or, without the hash in its tree, by the luck of a lone leaf). */
  lemma AnchorVerifiesIff(net: Net, evs: seq<Event>, e: nat, h: Bytes)
    requires NoDuplicates(net.Ids()) && Sized(evs) && e < |net.validators|
    requires h in AnchoredBy(Run(net, evs).engines[e].blocks)
    ensures RecordVerifiesIff(e, Run(net, evs).engines[e], h)
  {
    RunSound(net, evs);
    RunOk(net, evs);
    StateAnchor(net, Run(net, evs), e, h);
  }

  ghost predicate RecordVerifiesIff(e: nat, eng: Engine, h: Bytes)
  {
    && h in eng.anchored && eng.anchored[h].blockIndex < |eng.blocks| == |eng.owns| == |eng.leaders|
    && var r, i := eng.anchored[h], eng.anchored[h].blockIndex;
       var root, own := eng.blocks[i].stateRoot, eng.owns[i];
    && Describes(eng.blocks[i], h, r)
    && (VerifyD(h, h, root, r.proof, SMT_DEPTH) <==>
        own.None? || own.value == root || (h !in Contents(own.value) && root == LeafH(h, h)))
    && (own.Some? ==> eng.leaders[i] == e)
  }

  lemma StateAnchor(net: Net, s: State, e: nat, h: Bytes)
    requires StateOk(net, s) && StateSound(s) && e < |s.engines| && h in AnchoredBy(s.engines[e].blocks)
    ensures RecordVerifiesIff(e, s.engines[e], h)
  {
    var eng := s.engines[e];
    assert EngineSound(e, eng) && RecordOk(eng.blocks, eng.owns, h, eng.anchored[h]);
    var i := eng.anchored[h].blockIndex;
    StoredBlock(net, s, e, i);
    assert CandidateSound(s.bus.proposals[i]);
    StoredProofIff(h, eng.anchored[h].stateRoot, eng.blocks[i].stateRoot);
  }

  /** What an engine committed as a follower it can always prove. */
  lemma FollowerProofsVerify(net: Net, evs: seq<Event>, e: nat, h: Bytes)
    requires NoDuplicates(net.Ids()) && Sized(evs) && e < |net.validators|
    requires h in AnchoredBy(Run(net, evs).engines[e].blocks)
    ensures var eng := Run(net, evs).engines[e];
      && h in eng.anchored && eng.anchored[h].blockIndex < |eng.blocks| == |eng.leaders|
      && var r := eng.anchored[h];
      (eng.leaders[r.blockIndex] != e ==>
         VerifyD(h, h, eng.blocks[r.blockIndex].stateRoot, r.proof, SMT_DEPTH))
  {
    AnchorVerifiesIff(net, evs, e, h);
  }
}
