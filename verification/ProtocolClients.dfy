/** What a light client makes of the chains the engines of a run produce. */
module ProtocolClients {
  import opened Common
  import opened Chain
  import opened Codec
  import opened KeyRotation
  import opened Protocol
  import opened ProtocolSafety
  import LC = LightClient

  /** The client trusts the network's validators and resolves the keys engine e holds, as it does by replaying the
      engine's rotations (`LightClient.ReplayAgrees`). */
  ghost predicate Resolves(net: Net, e: nat, t: LC.Trust)
  {
    && t.validators == net.validators && t.ver == net.ver
    && forall j, i: nat {:trigger net.keys(e, j, i)} :: 0 <= j < |net.validators| ==>
         KeysFor(t.KeysAt(i), net.validators[j].id, i) == net.keys(e, j, i)
  }

  /** Network size and MinValidators for which blocks carry the label and the signatures a client asks for. */
  predicate Compatible(net: Net)
  {
    var n := |net.validators|;
    if n < LC.DEGRADED_THRESHOLD then net.minValidators > n || n == 1 else net.minValidators <= n
  }

  /** What state.DefaultConfig gives every engine. */
  const DEFAULT_MIN_VALIDATORS := 4

  /** With it every network is compatible, however many validators there are. */
  lemma ShippedCompatible(net: Net)
    requires |net.validators| > 0 && net.minValidators == DEFAULT_MIN_VALIDATORS
    ensures Compatible(net)
  {
  }

  /** The client's last check: the COMMIT signature is the block proposer's own. */
  ghost predicate CommittedByProposer(t: LC.Trust, b: Block)
  {
    VerifiesUnder(t.ver, KeysFor(t.KeysAt(b.index), b.proposer, b.index), b.blockHash, b.commitSig)
  }

  /** Every payload position of a committed block is good for the client. */
  lemma CertificateReads(net: Net, e: nat, t: LC.Trust, b: Block, a: LC.TrustAnchor)
    requires Resolves(net, e, t) && a.validators == net.validators
    requires CertifiedAt(net, e, b.index, b) && ExactShape(net, b)
    ensures var bitmap, sigs := OrEmpty(b.bitmap), OrEmpty(b.prepareSigs);
      && Rank(bitmap, 8 * |bitmap|) == |sigs| == |Positions(bitmap, 8 * |bitmap|)| == Rank(bitmap, |net.validators|)
      && forall k :: 0 <= k < |sigs| ==> LC.PositionGood(b, a, t.KeysAt(b.index), t.ver, k)
  {
    var bitmap, sigs, n := b.bitmap.value, b.prepareSigs.value, |net.validators|;
    var top := 8 * |bitmap|;
    assert forall i :: top <= i ==> !BitSet(bitmap, i);
    if n <= top { NoBitsPast(bitmap, n, top); } else { NoBitsPast(bitmap, top, n); }
    PositionsRank(bitmap, top);
    forall k | 0 <= k < |sigs| ensures LC.PositionGood(b, a, t.KeysAt(b.index), t.ver, k) {
      var j := Positions(bitmap, top)[k];
      assert BitSet(bitmap, j) && Rank(bitmap, j) == k;
      assert net.Good(e, b.index, b.blockHash)(j, sigs[k]);
      assert KeysFor(t.KeysAt(b.index), net.validators[j].id, b.index) == net.keys(e, j, b.index);
    }
  }

  /** Label and signature count suffice for the client exactly in a compatible network. */
  lemma HeaderIff(net: Net, e: nat, b: Block)
    requires |net.validators| > 0 && CertifiedAt(net, e, b.index, b) && ExactShape(net, b) && LoneSigner(net, b)
    ensures var n := |net.validators|;
      (n < LC.DEGRADED_THRESHOLD ==> IsDegradedBlock(b)) && |OrEmpty(b.prepareSigs)| >= LC.RequiredQuorum(n)
      <==> Compatible(net)
  {
  }

  lemma AcceptIff(net: Net, e: nat, t: LC.Trust, b: Block, a: LC.TrustAnchor)
    requires Resolves(net, e, t) && a.validators == net.validators && LC.ChainsOnto(b, a)
    requires b.blockHash == ComputeBlockHash(b) && b.version == 2 && b.validators == net.validators
    requires b.proposer in net.Ids()
    requires CertifiedAt(net, e, b.index, b) && ExactShape(net, b) && LoneSigner(net, b)
    ensures LC.Acceptable(b, a, t.KeysAt(b.index), t.ver) <==> Compatible(net) && CommittedByProposer(t, b)
  {
    CertificateReads(net, e, t, b, a);
    HeaderIff(net, e, b);
  }

  lemma StateClientStep(net: Net, s: State, e: nat, t: LC.Trust, i: nat)
    requires StateOk(net, s) && e < |s.engines| && i < |s.engines[e].blocks| && Resolves(net, e, t)
    ensures LC.WalksAt(s.engines[e].blocks, t, i) <==> Compatible(net) && CommittedByProposer(t, s.engines[e].blocks[i])
  {
    var blocks := s.engines[e].blocks;
    HeldBlock(net, s, e, i);
    ProposerKnown(net, s.bus.proposals[i]);
    StateLinked(net, s, e, i);
    if i > 0 { StateLinked(net, s, e, i - 1); }
    AcceptIff(net, e, t, blocks[i], LC.AnchorAt(blocks, i, t.validators, t.rotations(i)));
  }

  /** For any number of validators and any MinValidators: a client accepts a chain an engine holds iff the chain is
      empty, or the network is compatible and every COMMIT signature is the proposer's own. */
  lemma LightClientFollows(net: Net, evs: seq<Event>, e: nat, t: LC.Trust)
    requires NoDuplicates(net.Ids()) && e < |net.validators| && Resolves(net, e, t)
    ensures var blocks := Run(net, evs).engines[e].blocks;
      LC.Walks(blocks, t) <==>
      blocks == [] || (Compatible(net) && forall i :: 0 <= i < |blocks| ==> CommittedByProposer(t, blocks[i]))
  {
    RunOk(net, evs);
    var s := Run(net, evs);
    var blocks := s.engines[e].blocks;
    forall i | 0 <= i < |blocks|
      ensures LC.WalksAt(blocks, t, i) <==> Compatible(net) && CommittedByProposer(t, blocks[i])
    {
      StateClientStep(net, s, e, t, i);
    }
    if blocks != [] { assert LC.Walks(blocks, t) ==> LC.WalksAt(blocks, t, 0); }
  }

  // ---- whose signature that is -----------------------------------------------------------

  /** By the keys engine e holds in cycle c, no engine's signature over h passes for another validator.  That it passes
      for its own is not asked: past a rotation it may not. */
  ghost predicate NoForeignSignature(net: Net, e: nat, c: nat, h: BlockHash)
  {
    forall p: nat, j: nat {:trigger VerifiesUnder(net.ver, net.keys(e, j, c), h, net.sign(p, h))} ::
      p < |net.validators| && j < |net.validators| && VerifiesUnder(net.ver, net.keys(e, j, c), h, net.sign(p, h)) ==>
        p == j
  }

  /** The engine whose B_final was committed is the candidate's proposer; and where that is this engine itself, its
      signature passes by its own keys. */
  ghost predicate LedByProposer(net: Net, e: nat, eng: Engine, i: nat)
    requires i < |eng.blocks| == |eng.leaders|
  {
    var b, l := eng.blocks[i], eng.leaders[i];
    && l < |net.validators| && b.proposer == net.validators[l].id
    && (l == e ==> net.Good(e, i, b.blockHash)(e, net.sign(e, b.blockHash)))
  }

  lemma StateProposerIff(net: Net, s: State, e: nat, t: LC.Trust, i: nat)
    requires NoDuplicates(net.Ids()) && StateOk(net, s)
    requires e < |s.engines| && i < |s.engines[e].blocks| && Resolves(net, e, t)
    requires NoForeignSignature(net, e, i, s.engines[e].blocks[i].blockHash)
    ensures |s.engines[e].leaders| == |s.engines[e].blocks| && s.engines[e].leaders[i] < |net.validators|
    ensures var b, l := s.engines[e].blocks[i], s.engines[e].leaders[i];
      && b.commitSig == net.sign(l, b.blockHash)
      && (CommittedByProposer(t, b) <==> LedByProposer(net, e, s.engines[e], i))
  {
    HeldBlock(net, s, e, i);
    ProposerKnown(net, s.bus.proposals[i]);
    StoredBlock(net, s, e, i);
    var b, l := s.engines[e].blocks[i], s.engines[e].leaders[i];
    var p :| 0 <= p < |net.validators| && b.commitSig == net.sign(p, b.blockHash);
    if l != e { assert VerifiesUnder(net.ver, net.keys(e, l, i), b.blockHash, net.sign(p, b.blockHash)); }
    var q :| 0 <= q < |net.Ids()| && net.Ids()[q] == b.proposer;
    assert KeysFor(t.KeysAt(i), net.validators[q].id, i) == net.keys(e, q, i);
    assert VerifiesUnder(net.ver, net.keys(e, q, i), b.blockHash, net.sign(l, b.blockHash)) ==> l == q;
    assert net.Ids()[l] == net.validators[l].id;
  }

  /** The last condition is one on the run: the engine whose B_final was committed is the proposer of the stored
      candidate.  Of signatures it asks only that none over a held block passes for someone else. */
  lemma LightClientFollowsRun(net: Net, evs: seq<Event>, e: nat, t: LC.Trust)
    requires NoDuplicates(net.Ids()) && e < |net.validators| && Resolves(net, e, t)
    requires var blocks := Run(net, evs).engines[e].blocks;
      forall i :: 0 <= i < |blocks| ==> NoForeignSignature(net, e, i, blocks[i].blockHash)
    ensures var eng := Run(net, evs).engines[e];
      && |eng.leaders| == |eng.blocks|
      && (LC.Walks(eng.blocks, t) <==>
          eng.blocks == [] || (Compatible(net) && forall i :: 0 <= i < |eng.blocks| ==> LedByProposer(net, e, eng, i)))
  {
    RunOk(net, evs);
    LightClientFollows(net, evs, e, t);
    var s := Run(net, evs);
    assert EngineOk(net, e, s.engines[e], s.bus);
    forall i | 0 <= i < |s.engines[e].blocks|
      ensures CommittedByProposer(t, s.engines[e].blocks[i]) <==> LedByProposer(net, e, s.engines[e], i)
    {
      StateProposerIff(net, s, e, t, i);
    }
  }

  // ---- clients that have seen no rotation ----------------------------------------------------

  ghost function TrustIn(net: Net, cr: Crypto): LC.Trust
  {
    LC.Trust(net.validators, (i: nat) => [], 0, cr, net.ver)
  }

  lemma RegisteredResolves(net: Net, e: nat, cr: Crypto)
    requires NoDuplicates(net.Ids())
    requires forall j, c: nat {:trigger net.keys(e, j, c)} :: 0 <= j < |net.validators| ==>
               net.keys(e, j, c) == [net.validators[j].pk]
    ensures Resolves(net, e, TrustIn(net, cr))
  {
    var t := TrustIn(net, cr);
    forall j, i: nat | 0 <= j < |net.validators|
      ensures KeysFor(t.KeysAt(i), net.validators[j].id, i) == net.keys(e, j, i)
    {
      LC.ValidatorMapAt(net.validators, j);
    }
  }
}
