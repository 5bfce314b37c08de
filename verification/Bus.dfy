/**
 The in-memory gossip bus (pkg/consensus/gossip.go).  Each method runs under the bus lock, so it is
 one atomic step; `Bus` is the value the steps act on.
*/
module GossipBus {
  import opened Common
  import opened Smt
  import opened Chain
  import opened Batch

  datatype BlockSig = BlockSig(cycle: nat, sig: Sig, signer: Id)

  /** A VRF proof is a term: whose key made it, and the input, a cycle and a state root. */
  datatype VrfProof = VrfProof(prover: Id, cycle: nat, root: Digest)

  datatype VrfMsg = VrfMsg(cycle: nat, proof: VrfProof, signer: Id)

  datatype Bus = Bus(
    entries: seq<Entry>,
    proposals: map<nat, Block>,
    finals: map<nat, Block>,
    sigs: map<nat, seq<BlockSig>>,
    vrfProofs: map<nat, seq<VrfMsg>>)

  const EMPTY_BUS := Bus([], map[], map[], map[], map[])

  function Published(b: Bus, e: Entry): Bus
  {
    b.(entries := b.entries + [e])
  }

  function Removed(b: Bus, remove: set<Bytes>): Bus
  {
    b.(entries := Without(b.entries, remove))
  }

  /** First write wins. */
  function Proposed(b: Bus, blk: Block): Bus
  {
    if blk.index in b.proposals then b else b.(proposals := b.proposals[blk.index := blk])
  }

  /** Last write wins. */
  function Finalised(b: Bus, blk: Block): Bus
  {
    b.(finals := b.finals[blk.index := blk])
  }

  function SigsAt(b: Bus, cycle: nat): seq<BlockSig>
  {
    if cycle in b.sigs then b.sigs[cycle] else []
  }

  /** One signature per signer and cycle, the first. */
  function Signed(b: Bus, s: BlockSig): Bus
  {
    if exists x :: x in SigsAt(b, s.cycle) && x.signer == s.signer then b
    else b.(sigs := b.sigs[s.cycle := SigsAt(b, s.cycle) + [s]])
  }

  function ProofsAt(b: Bus, cycle: nat): seq<VrfMsg>
  {
    if cycle in b.vrfProofs then b.vrfProofs[cycle] else []
  }

  /** One VRF proof per signer and cycle, the first. */
  function Proved(b: Bus, m: VrfMsg): Bus
  {
    if exists x :: x in ProofsAt(b, m.cycle) && x.signer == m.signer then b
    else b.(vrfProofs := b.vrfProofs[m.cycle := ProofsAt(b, m.cycle) + [m]])
  }

  class MemoryBus {
    var entries: seq<Entry>
    var proposals: map<nat, Block>
    var finals: map<nat, Block>
    var sigs: map<nat, seq<BlockSig>>
    var vrfProofs: map<nat, seq<VrfMsg>>

    ghost function State(): Bus
      reads this
    {
      Bus(entries, proposals, finals, sigs, vrfProofs)
    }

    constructor ()
      ensures State() == EMPTY_BUS
    {
      entries, proposals, finals, sigs, vrfProofs := [], map[], map[], map[], map[];
    }

    method Publish(e: Entry)
      modifies this`entries
      ensures State() == Published(old(State()), e)
      ensures Hashes(entries) == old(Hashes(entries)) + {e.hash}
    {
      entries := entries + [e];
    }

    method RemoveEntries(remove: set<Bytes>)
      modifies this`entries
      ensures State() == Removed(old(State()), remove)
      ensures Hashes(entries) == old(Hashes(entries)) - remove
    {
      WithoutHashes(entries, remove);
      var kept: seq<Entry> := [];
      for i := 0 to |entries|
        invariant kept == Without(entries[..i], remove)
      {
        assert entries[..i + 1][..i] == entries[..i];
        if entries[i].hash !in remove { kept := kept + [entries[i]]; }
      }
      assert entries[..|entries|] == entries;
      entries := kept;
    }

    /** A candidate, once stored, is never replaced. */
    method Propose(blk: Block)
      modifies this`proposals
      ensures State() == Proposed(old(State()), blk)
      ensures proposals.Keys == old(proposals).Keys + {blk.index}
      ensures blk.index !in old(proposals) ==> proposals[blk.index] == blk
      ensures forall c :: c in old(proposals) ==> c in proposals && proposals[c] == old(proposals)[c]
    {
      if blk.index !in proposals {
        proposals := proposals[blk.index := blk];
      }
    }

    method PublishFinal(blk: Block)
      modifies this`finals
      ensures State() == Finalised(old(State()), blk)
      ensures blk.index in finals && finals[blk.index] == blk
      ensures forall c :: c != blk.index ==> (c in finals <==> c in old(finals))
      ensures forall c :: c in old(finals) && c != blk.index ==> finals[c] == old(finals)[c]
    {
      finals := finals[blk.index := blk];
    }

    method PublishSig(s: BlockSig)
      modifies this`sigs
      ensures State() == Signed(old(State()), s)
    {
      var known := if s.cycle in sigs then sigs[s.cycle] else [];
      for i := 0 to |known|
        invariant forall j :: 0 <= j < i ==> known[j].signer != s.signer
      {
        if known[i].signer == s.signer { return; }
      }
      sigs := sigs[s.cycle := known + [s]];
    }

    /** What a signer has published for a cycle stands. */
    method PublishVRFProof(m: VrfMsg)
      modifies this`vrfProofs
      ensures State() == Proved(old(State()), m)
      ensures forall c :: ProofsAt(old(State()), c) <= ProofsAt(State(), c)
    {
      var known := if m.cycle in vrfProofs then vrfProofs[m.cycle] else [];
      for i := 0 to |known|
        invariant forall j :: 0 <= j < i ==> known[j].signer != m.signer
      {
        if known[i].signer == m.signer { return; }
      }
      vrfProofs := vrfProofs[m.cycle := known + [m]];
    }
  }
}
