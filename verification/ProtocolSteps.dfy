/**
 What the steps of RunCycle do to an engine (pkg/consensus/engine.go, prepare.go, commit.go), in terms of its entries,
 its chain and its tree.  Together with the invariant of `ProtocolSafety` this is what a run is made of.
*/
module ProtocolSteps {
  import opened Common
  import opened Smt
  import opened Chain
  import opened Codec
  import opened Degraded
  import opened Batch
  import opened GossipBus
  import opened KeyRotation
  import opened Protocol
  import opened ProtocolSafety

  /** The attempt is over without a block: tree and entries as before it, and one attempt more on the counter. */
  ghost predicate RolledBack(eng: Engine, g: Engine)
    requires InAttempt(eng.phase)
  {
    && g.phase.Idle? && g.tree == eng.phase.a.snapshot && g.retained == eng.phase.a.batch && g.pending == eng.pending
    && g.cycle == eng.cycle + 1 && g.blocks == eng.blocks && g.anchored == eng.anchored
    && g.leaders == eng.leaders && g.owns == eng.owns
  }

  lemma AbortRestores(net: Net, e: nat, eng: Engine, bus: Bus)
    requires e < |net.validators| && InAttempt(eng.phase)
    ensures var (g, b) := Local(net, e, eng, bus, Abort(e)); b == bus && RolledBack(eng, g) && g.mode == eng.mode
  {
  }

  /** An accepted entry is pending here and in the pool for all; an engine in a cycle accepts none. */
  lemma EnqueueHolds(net: Net, e: nat, eng: Engine, bus: Bus, entry: Entry)
    requires e < |net.validators|
    ensures var (g, b) := Local(net, e, eng, bus, Enqueue(e, entry));
      if eng.phase.Idle? then
        && g == eng.(pending := g.pending) && g.pending == eng.pending + [entry]
        && b == bus.(entries := b.entries) && b.entries == bus.entries + [entry]
      else g == eng && b == bus
  {
  }

  // ---- beginning ---------------------------------------------------------------------------

  lemma {:induction false} IngestedHashes(retained: seq<Entry>, pending: seq<Entry>, pool: seq<Entry>)
    ensures retained <= Ingested(retained, pending, pool)
    ensures Hashes(Ingested(retained, pending, pool)) ==
            Hashes(retained) + (Hashes(pool) - Hashes(pending))
  {
    if pool != [] {
      var rest, e := pool[..|pool| - 1], pool[|pool| - 1];
      IngestedHashes(retained, pending, rest);
      assert pool == rest + [e];
      HashesAppend(rest, e);
      HashesAppend(Ingested(retained, pending, rest), e);
    }
  }

  /** An attempt takes in all the pool holds, besides what the engine held; its batch is all of that, its snapshot the
      present tree, and its quorum that of the mode.  With nothing to do it may be counted and skipped. */
  lemma BeginTakesAll(net: Net, e: nat, eng: Engine, bus: Bus)
    requires e < |net.validators| && eng.phase.Idle?
    ensures var (g, b) := Local(net, e, eng, bus, Begin(e));
      && b == bus && g.blocks == eng.blocks && g.tree == eng.tree && g.pending == eng.pending && g.mode == eng.mode
      && eng.retained <= g.retained
      && Hashes(g.retained) == Hashes(eng.retained) + (Hashes(bus.entries) - Hashes(eng.pending))
      && (g.phase.Idle? <==> net.skipEmptyCycles && eng.retained == [] && eng.pending == [] && bus.entries == [])
      && (g.phase.Idle? ==> g.cycle == eng.cycle + 1)
      && (!g.phase.Idle? ==>
            && g.cycle == eng.cycle && g.phase.Begun? && g.phase.a.own.None? && g.phase.a.snapshot == eng.tree
            && g.phase.a.batch == g.retained + g.pending
            && Hashes(g.phase.a.batch) == Hashes(eng.retained) + Hashes(eng.pending) + Hashes(bus.entries)
            && (if eng.mode.inDegraded then g.phase.a.required == 1
                else g.phase.a.required == QuorumRequired(|net.validators|)))
  {
    IngestedHashes(eng.retained, eng.pending, bus.entries);
    HashesConcat(Ingested(eng.retained, eng.pending, bus.entries), eng.pending);
    HashesEmptyIff(bus.entries);
    HashesEmptyIff(Ingested(eng.retained, eng.pending, bus.entries));
    HashesEmptyIff(eng.pending);
    HashesEmptyIff(eng.retained);
  }

  lemma HashesEmptyIff(es: seq<Entry>)
    ensures Hashes(es) == {} <==> es == []
  {
    if es != [] { assert es[0].hash in Hashes(es); }
  }

  // ---- building ---------------------------------------------------------------------------------

  /** A proposer puts every hash of the pool into its candidate, once, signs it, labels it if one signature is to be
      enough, and has its root as its tree.  With an empty pool it gives up. */
  lemma BuildTakesPool(net: Net, e: nat, eng: Engine, bus: Bus, ts: int)
    requires e < |net.validators| && eng.phase.Begun?
    ensures var (g, b) := Local(net, e, eng, bus, Build(e, ts));
      && b == bus && (bus.entries == [] ==> RolledBack(eng, g))
      && (bus.entries != [] ==>
            && g.phase.Built? && g.blocks == eng.blocks && g.cycle == eng.cycle && g.retained == eng.retained
            && g.pending == eng.pending && Makes(net, e, eng, bus, ts, g.phase.blk)
            && g.tree == g.phase.blk.stateRoot && g.phase.a == eng.phase.a.(own := Some(g.phase.blk)))
  {
    DedupHashes(bus.entries);
  }

  ghost predicate Makes(net: Net, e: nat, eng: Engine, bus: Bus, ts: int, blk: Block)
    requires e < |net.validators| && eng.phase.Begun?
  {
    && blk.index == |eng.blocks| && blk.proposer == net.validators[e].id && blk.timestamp == ts
    && blk.prevHash == (if eng.blocks == [] then ZeroHash else eng.blocks[|eng.blocks| - 1].blockHash)
    && Hashes(blk.anchored) == Hashes(bus.entries) && HashesOnce(blk.anchored)
    && (forall x :: x in blk.anchored ==> x in bus.entries)
    && blk.stateRoot == InsertAll(eng.tree, blk.anchored)
    && blk.prepareSigs == Some([net.sign(e, blk.blockHash)])
    && (eng.phase.a.required == 1 <==> DEGRADED_LABEL in blk.metadata && blk.metadata[DEGRADED_LABEL] == "true")
  }

  // ---- committing -------------------------------------------------------------------------------

  lemma {:induction false} StoredKeys(anchored: map<Bytes, AnchorProof>, es: seq<Entry>, tree: Digest, index: nat,
                                      time: int)
    ensures Stored(anchored, es, tree, index, time).Keys == anchored.Keys + Hashes(es)
    ensures forall h :: h in anchored && h !in Hashes(es) ==> Stored(anchored, es, tree, index, time)[h] == anchored[h]
  {
    if es != [] {
      var rest, x := es[..|es| - 1], es[|es| - 1];
      StoredKeys(anchored, rest, tree, index, time);
      assert es == rest + [x];
      HashesAppend(rest, x);
    }
  }

  /** The last step, once the degraded-mode rules have said what to append: without state.Apply, or without a signature
      to keep, everything is rolled back but the mode; otherwise the block is appended, its entries are no longer
      retained, nothing is pending, and its hashes have records. */
  lemma CommitOutcome(net: Net, e: nat, eng: Engine, bus: Bus, applied: Option<Block>, stateApplied: bool)
    requires e < |net.validators| && eng.phase.Ready? && EngineOk(net, e, eng, bus)
    requires DegradedResult(|net.validators| < net.minValidators, eng.phase.final, |net.validators|,
                            net.Registered(eng.phase.final.blockHash), applied)
    ensures var (g, b) := Local(net, e, eng, bus, Commit(e, applied, stateApplied));
      && b == bus && (g.mode.inDegraded <==> |net.validators| < net.minValidators)
      && (applied.None? || !stateApplied ==> RolledBack(eng, g))
      && (applied.Some? && stateApplied ==> Appends(eng, g, applied.value))
  {
    NextModeExact(net, eng);
    if applied.Some? && stateApplied {
      StoredKeys(eng.anchored, applied.value.anchored, eng.tree, |eng.blocks|, applied.value.timestamp);
      WithoutHashes(eng.retained, Hashes(applied.value.anchored));
    }
  }

  ghost predicate Appends(eng: Engine, g: Engine, blk: Block)
    requires eng.phase.Ready?
  {
    && g.blocks == eng.blocks + [blk] && g.leaders == eng.leaders + [eng.phase.leader] && g.tree == eng.tree
    && g.pending == [] && Hashes(g.retained) == Hashes(eng.retained) - Hashes(blk.anchored)
    && g.cycle == eng.cycle + 1 && g.anchored.Keys == eng.anchored.Keys + Hashes(blk.anchored)
    && g.phase == Cleanup(Hashes(blk.anchored))
  }

  /** The final marks validator j, with a signature that its registered key verifies. */
  ghost predicate RegisteredSigner(net: Net, f: Block, j: nat)
  {
    && j < |net.validators| && f.bitmap.Some? && f.prepareSigs.Some? && BitSet(f.bitmap.value, j)
    && Rank(f.bitmap.value, j) < |f.prepareSigs.value|
    && var sig := f.prepareSigs.value[Rank(f.bitmap.value, j)];
    sig != [] && net.ver(net.validators[j].pk, f.blockHash, sig)
  }

  /** The block is the final cut down to its first registered signer, and labelled. */
  ghost predicate KeepsFirst(net: Net, f: Block, r: Block, i: nat)
  {
    && RegisteredSigner(net, f, i) && (forall j :: 0 <= j < i ==> !RegisteredSigner(net, f, j))
    && r.bitmap.Some? && OnlyBit(r.bitmap.value, i)
    && r.prepareSigs == Some([f.prepareSigs.value[Rank(f.bitmap.value, i)]]) && r.blockHash == f.blockHash
    && DEGRADED_LABEL in r.metadata && r.metadata[DEGRADED_LABEL] == "true"
  }

  ghost predicate KeepsSome(net: Net, f: Block, r: Block)
  {
    exists i: nat :: KeepsFirst(net, f, r, i)
  }

  lemma DegradedApplied(net: Net, f: Block, applied: Option<Block>)
    requires DegradedResult(true, f, |net.validators|, net.Registered(f.blockHash), applied)
    ensures if applied.Some? then KeepsSome(net, f, applied.value)
            else forall j :: 0 <= j < |net.validators| ==> !RegisteredSigner(net, f, j)
  {
    var n, good := |net.validators|, net.Registered(f.blockHash);
    forall j: nat | j < n ensures Usable(f, j, good) <==> RegisteredSigner(net, f, j) {}
    if applied.Some? {
      var i :| KeepsOnly(f, n, good, i, applied.value);
      assert KeepsFirst(net, f, applied.value, i);
    }
  }

  /** Below the minimum a commit keeps the first signature that verifies under a registered key, whatever keys have
      been rotated in; without one there is no commit. */
  lemma DegradedCommit(net: Net, e: nat, eng: Engine, bus: Bus, applied: Option<Block>, stateApplied: bool)
    requires e < |net.validators| < net.minValidators && eng.phase.Ready? && EngineOk(net, e, eng, bus)
    ensures var g := Local(net, e, eng, bus, Commit(e, applied, stateApplied)).0;
      g.blocks == eng.blocks ||
      (applied.Some? && g.blocks == eng.blocks + [applied.value] && KeepsSome(net, eng.phase.final, applied.value))
  {
    var f := eng.phase.final;
    NextModeExact(net, eng);
    if DegradedResult(true, f, |net.validators|, net.Registered(f.blockHash), applied) {
      DegradedApplied(net, f, applied);
    }
  }

  // ---- the bus -----------------------------------------------------------------------------------

  ghost predicate SigsOnce(ss: seq<BlockSig>)
  {
    forall i, j :: 0 <= i < j < |ss| ==> ss[i].signer != ss[j].signer
  }

  ghost predicate ProofsOnce(ms: seq<VrfMsg>)
  {
    forall i, j :: 0 <= i < j < |ms| ==> ms[i].signer != ms[j].signer
  }

  /** No signer has two messages of a kind in a cycle. */
  ghost predicate OncePerSigner(bus: Bus)
  {
    && (forall c: nat {:trigger SigsAt(bus, c)} :: SigsOnce(SigsAt(bus, c)))
    && (forall c: nat {:trigger ProofsAt(bus, c)} :: ProofsOnce(ProofsAt(bus, c)))
  }

  /** The signature is on the bus, unless its signer had published another. */
  lemma SignedOnce(bus: Bus, s: BlockSig)
    requires OncePerSigner(bus)
    ensures OncePerSigner(Signed(bus, s)) && SigsAt(bus, s.cycle) <= SigsAt(Signed(bus, s), s.cycle)
    ensures s in SigsAt(Signed(bus, s), s.cycle) || exists x :: x in SigsAt(bus, s.cycle) && x.signer == s.signer
  {
    var b, ss := Signed(bus, s), SigsAt(bus, s.cycle);
    forall c: nat ensures SigsOnce(SigsAt(b, c)) && ProofsOnce(ProofsAt(b, c)) {
      assert SigsOnce(SigsAt(bus, c)) && ProofsAt(b, c) == ProofsAt(bus, c);
    }
    if !exists x :: x in ss && x.signer == s.signer { assert SigsAt(b, s.cycle) == ss + [s]; }
  }

  lemma ProvedOnce(bus: Bus, m: VrfMsg)
    requires OncePerSigner(bus)
    ensures OncePerSigner(Proved(bus, m)) && ProofsAt(bus, m.cycle) <= ProofsAt(Proved(bus, m), m.cycle)
    ensures m in ProofsAt(Proved(bus, m), m.cycle) || exists x :: x in ProofsAt(bus, m.cycle) && x.signer == m.signer
  {
    var b, ms := Proved(bus, m), ProofsAt(bus, m.cycle);
    forall c: nat ensures SigsOnce(SigsAt(b, c)) && ProofsOnce(ProofsAt(b, c)) {
      assert ProofsOnce(ProofsAt(bus, c)) && SigsAt(b, c) == SigsAt(bus, c);
    }
    if !exists x :: x in ms && x.signer == m.signer { assert ProofsAt(b, m.cycle) == ms + [m]; }
  }

  lemma LocalOnce(net: Net, e: nat, eng: Engine, bus: Bus, ev: Event)
    requires e < |net.validators| && OncePerSigner(bus)
    ensures OncePerSigner(Local(net, e, eng, bus, ev).1)
  {
    if ev.Vote? {
      VoteIsSigned(net, e, eng, bus);
    } else if ev.Prove? {
      if eng.phase.Begun? || eng.phase.Prepared? {
        var c, id := |eng.blocks|, net.validators[e].id;
        ProvedOnce(bus, VrfMsg(c, VrfProof(id, c, eng.phase.a.snapshot), id));
      }
    } else {
      OtherMessages(net, e, eng, bus, ev);
      SameMessages(bus, Local(net, e, eng, bus, ev).1);
    }
  }

  lemma SameMessages(bus: Bus, b: Bus)
    requires OncePerSigner(bus) && b.sigs == bus.sigs && b.vrfProofs == bus.vrfProofs
    ensures OncePerSigner(b)
  {
    forall c: nat ensures SigsOnce(SigsAt(b, c)) && ProofsOnce(ProofsAt(b, c)) {
      assert SigsAt(b, c) == SigsAt(bus, c) && ProofsAt(b, c) == ProofsAt(bus, c);
    }
  }

  lemma OtherMessages(net: Net, e: nat, eng: Engine, bus: Bus, ev: Event)
    requires e < |net.validators| && !ev.Vote? && !ev.Prove?
    ensures var b := Local(net, e, eng, bus, ev).1; b.sigs == bus.sigs && b.vrfProofs == bus.vrfProofs
  {
  }

  /** What an engine signs: the candidate it built, or the one it follows. */
  function Ballot(net: Net, e: nat, p: Phase): Option<Sig>
  {
    match p
    case Announced(_, blk) => Some(FirstSig(blk))
    case Voting(_, blk, _) => Some(net.sign(e, blk.blockHash))
    case Revoting(_, blk, _) => Some(net.sign(e, blk.blockHash))
    case _ => None
  }

  lemma {:induction false} SigMapIff(ss: seq<BlockSig>, id: Id, sig: Sig)
    requires SigsOnce(ss)
    ensures id in SigMap(ss) && SigMap(ss)[id] == sig <==> exists x :: x in ss && x.signer == id && x.sig == sig
    ensures id in SigMap(ss) <==> exists x :: x in ss && x.signer == id
  {
    if ss != [] {
      var rest, s := ss[..|ss| - 1], ss[|ss| - 1];
      SigMapIff(rest, id, sig);
      assert forall x :: x in ss <==> x in rest || x == s;
      forall x | x in rest ensures x.signer != s.signer {
        var i :| 0 <= i < |rest| && rest[i] == x;
        assert ss[i] == x;
      }
    }
  }

  /** The signature of validator j that engine e sees: its own on the candidate if it leads, any other on the bus. */
  ghost predicate Sees(net: Net, e: nat, eng: Engine, bus: Bus, j: nat, sig: Sig)
    requires j < |net.validators| && eng.phase.Collecting?
  {
    if j == e && eng.phase.leader == e then sig == FirstSig(eng.phase.blk)
    else exists x :: x in SigsAt(bus, |eng.blocks|) && x.signer == net.validators[j].id && x.sig == sig
  }

  ghost predicate CountsExactly(net: Net, e: nat, eng: Engine, bus: Bus, valid: map<Id, Sig>)
    requires eng.phase.Collecting?
  {
    && (forall id :: id in valid ==> id in net.Ids())
    && (forall j: nat, sig {:trigger Sees(net, e, eng, bus, j, sig)} :: j < |net.validators| ==>
          (net.Ids()[j] in valid && valid[net.Ids()[j]] == sig <==>
             Sees(net, e, eng, bus, j, sig) &&
             VerifiesUnder(net.ver, net.keys(e, j, |eng.blocks|), eng.phase.blk.blockHash, sig)))
  }

  /** An engine counts exactly the signatures it sees that verify by its keys, and goes on iff they are enough. */
  lemma CollectCounts(net: Net, e: nat, eng: Engine, bus: Bus) returns (valid: map<Id, Sig>)
    requires e < |net.validators| && NoDuplicates(net.Ids()) && eng.phase.Collecting? && OncePerSigner(bus)
    ensures CountsExactly(net, e, eng, bus, valid)
    ensures var (g, b) := Local(net, e, eng, bus, Collect(e));
      b == bus && if |valid| >= eng.phase.a.required
                  then g == eng.(phase := Checked(eng.phase.a, eng.phase.blk, eng.phase.leader, valid))
                  else RolledBack(eng, g)
  {
    var c, blk, ss := |eng.blocks|, eng.phase.blk, SigsAt(bus, |eng.blocks|);
    var raw := RawSigs(net, e, blk, eng.phase.leader, ss);
    valid := ValidSigs(net, e, c, blk, raw);
    forall j: nat, sig | j < |net.validators|
      ensures net.Ids()[j] in valid && valid[net.Ids()[j]] == sig <==>
              Sees(net, e, eng, bus, j, sig) && VerifiesUnder(net.ver, net.keys(e, j, c), blk.blockHash, sig)
    {
      SeenIsRaw(net, e, eng, bus, j, sig);
      IndexOfFirst(net.Ids(), j);
    }
  }

  lemma SeenIsRaw(net: Net, e: nat, eng: Engine, bus: Bus, j: nat, sig: Sig)
    requires e < |net.validators| && NoDuplicates(net.Ids()) && eng.phase.Collecting? && OncePerSigner(bus)
    requires j < |net.validators|
    ensures var raw := RawSigs(net, e, eng.phase.blk, eng.phase.leader, SigsAt(bus, |eng.blocks|));
      Sees(net, e, eng, bus, j, sig) <==> net.Ids()[j] in raw && raw[net.Ids()[j]] == sig
  {
    assert SigsOnce(SigsAt(bus, |eng.blocks|));
    SigMapIff(SigsAt(bus, |eng.blocks|), net.Ids()[j], sig);
    assert j != e ==> net.Ids()[j] != net.Ids()[e];
  }

  /** Whatever the bus holds, a follower takes up a final iff its hash is its own, the elected leader signed it and its
      certificate holds, all by the keys of this engine; otherwise the attempt is over. */
  lemma AdoptOutcome(net: Net, e: nat, eng: Engine, bus: Bus)
    requires e < |net.validators| && eng.phase.Checked? && eng.phase.leader != e
    ensures var (g, b) := Local(net, e, eng, bus, Adopt(e));
      var c, l := |eng.blocks|, eng.phase.leader;
      && b == bus
      && (g.phase.Ready? <==>
            && c in bus.finals && ComputeBlockHash(bus.finals[c]) == bus.finals[c].blockHash && l < |net.validators|
            && VerifiesUnder(net.ver, net.keys(e, l, c), bus.finals[c].blockHash, bus.finals[c].commitSig)
            && CertifiedAt(net, e, c, bus.finals[c]))
      && (g.phase.Ready? ==> g == eng.(phase := Ready(eng.phase.a, eng.phase.blk, l, bus.finals[c])))
      && (!g.phase.Ready? ==> RolledBack(eng, g) && g.mode == eng.mode)
  {
  }

  /** Its vote is on the bus under its own name, unless it had voted in the cycle; nothing else votes. */
  lemma VoteIsSigned(net: Net, e: nat, eng: Engine, bus: Bus)
    requires e < |net.validators| && OncePerSigner(bus)
    ensures var (g, b) := Local(net, e, eng, bus, Vote(e));
      var c, id, sig := |eng.blocks|, net.validators[e].id, Ballot(net, e, eng.phase);
      && OncePerSigner(b)
      && (sig.None? ==> g == eng && b == bus)
      && (sig.Some? ==>
            && (BlockSig(c, sig.value, id) in SigsAt(b, c) || exists x :: x in SigsAt(bus, c) && x.signer == id)
            && (if eng.phase.Revoting? then g.phase.Collecting? else g.phase.Prepared?))
  {
    var c, id, sig := |eng.blocks|, net.validators[e].id, Ballot(net, e, eng.phase);
    if sig.Some? { SignedOnce(bus, BlockSig(c, sig.value, id)); }
  }

  /** In every run a signer has at most one signature, and at most one VRF proof, in a cycle. */
  lemma {:induction false} RunOnce(net: Net, evs: seq<Event>)
    ensures OncePerSigner(Run(net, evs).bus)
  {
    if evs != [] {
      var k := |evs| - 1;
      RunOnce(net, evs[..k]);
      var s, ev := Run(net, evs[..k]), evs[k];
      if ev.e < |s.engines| { LocalOnce(net, ev.e, s.engines[ev.e], s.bus, ev); }
    }
  }
}
