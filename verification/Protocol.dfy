/**
 The two-phase cycle protocol over the shared bus (pkg/consensus/engine.go, prepare.go, commit.go):
 N engines, each running RunCycle under its own lock, interleaved at every bus operation.  An event
 carries what the model leaves open: which engine moves, whom it takes for the leader
 (`ProtocolElection` says whom the code elects), its clock, and which steps fail.  An event that does not
 fit the engine's phase changes nothing, so every sequence of events is a run.
*/
module Protocol {
  import opened Common
  import opened Smt
  import opened Chain
  import opened Codec
  import opened Degraded
  import opened Batch
  import opened GossipBus
  import opened KeyRotation

  /** Engine e is validator e.  keys(e, j, c) are the keys engine e holds for validator j in cycle c; `ProtocolKeys`
      derives such a table from the rotations each engine records as it runs.  Engines need not agree on it.
      gamma(j, c, root) is the output of validator j's VRF key for the input (c, root), read as a number. */
  datatype Net = Net(
    validators: seq<ValidatorInfo>,
    quorum: QuorumConfig,
    minValidators: nat,
    graceCycles: nat,
    skipEmptyCycles: bool,
    sign: (nat, BlockHash) -> Sig,
    ver: BlockVerifier,
    gamma: (nat, nat, Digest) -> nat,
    keys: (nat, nat, nat) -> seq<PublicKey>)
  {
    function Ids(): seq<Id>
    {
      Chain.Ids(validators)
    }

    /** A signature over a hash verifies for validator j, by the keys engine e holds in cycle c. */
    function Good(e: nat, c: nat, h: BlockHash): (nat, Sig) -> bool
    {
      (j: nat, sig: Sig) => j < |validators| && VerifiesUnder(ver, keys(e, j, c), h, sig)
    }

    /** Degraded mode looks at the registered key only. */
    function Registered(h: BlockHash): (nat, Sig) -> bool
    {
      (j: nat, sig: Sig) => j < |validators| && ver(validators[j].pk, h, sig)
    }
  }

  /** What RunCycle keeps in locals: the tree snapshot, the batch, the quorum, and the candidate this
      attempt built, if it was the proposer in PREPARE. */
  datatype Attempt = Attempt(snapshot: Digest, batch: seq<Entry>, required: nat, own: Option<Block>)

  datatype Phase =
    | Idle
    | Begun(a: Attempt)
    | Built(a: Attempt, blk: Block)                     // about to Propose
    | Announced(a: Attempt, blk: Block)                 // about to publish its PREPARE signature
    | Voting(a: Attempt, blk: Block, leader: nat)       // likewise, as a follower
    | Prepared(a: Attempt)                              // PREPARE done; quorum check next
    | Revoting(a: Attempt, blk: Block, leader: nat)     // follower in the quorum check
    | Collecting(a: Attempt, blk: Block, leader: nat)
    | Checked(a: Attempt, blk: Block, leader: nat, valid: map<Id, Sig>)
    | Ready(a: Attempt, blk: Block, leader: nat, final: Block)
    | Cleanup(hashes: set<Bytes>)

  datatype Engine = Engine(
    blocks: seq<Block>,
    tree: Digest,                       // root of the sparse Merkle tree
    pending: seq<Entry>,
    retained: seq<Entry>,               // pendingEntries
    cycle: nat,                         // attempt counter
    mode: Mode,
    anchored: map<Bytes, AnchorProof>,
    leaders: seq<nat>,                  // for each block, whose B_final it came from,
    owns: seq<Option<Digest>>,          // and the root of the own candidate it was led in place of, if it was
    phase: Phase)

  datatype State = State(engines: seq<Engine>, bus: Bus, accepted: set<Bytes>)

  datatype Event =
    | Enqueue(e: nat, entry: Entry)
    | Begin(e: nat)
    | Prove(e: nat)
    | Build(e: nat, timestamp: int)
    | Propose(e: nat)
    | Follow(e: nat, leader: nat)
    | Vote(e: nat)
    | Recheck(e: nat)
    | Refollow(e: nat, leader: nat)
    | Collect(e: nat)
    | Finalise(e: nat, bitmap: Bytes, sigs: seq<Sig>)
    | Adopt(e: nat)
    | Commit(e: nat, applied: Option<Block>, stateApplied: bool)
    | Clean(e: nat)
    | Abort(e: nat)

  // ---- pieces -----------------------------------------------------------------------

  /** Pool entries this engine does not hold yet. */
  function Ingested(retained: seq<Entry>, pending: seq<Entry>, pool: seq<Entry>): seq<Entry>
  {
    if pool == [] then retained
    else
      var before, e := Ingested(retained, pending, pool[..|pool| - 1]), pool[|pool| - 1];
      if e.hash in Hashes(before) || e.hash in Hashes(pending) then before else before + [e]
  }

  function Candidate(net: Net, e: nat, eng: Engine, a: Attempt, pool: seq<Entry>, timestamp: int): Block
    requires e < |net.validators|
  {
    var entries := Dedup(pool);
    var b := Block(|eng.blocks|, PrevHash(eng.blocks), InsertAll(eng.tree, entries), net.validators[e].id, entries,
                   timestamp, net.quorum, net.validators, ZeroHash, 2, None, Some([]), [],
                   if a.required == 1 then map[DEGRADED_LABEL := "true"] else map[]);
    var h := ComputeBlockHash(b);
    b.(blockHash := h, prepareSigs := Some([net.sign(e, h)]))
  }

  function FirstSig(b: Block): Sig
  {
    if b.prepareSigs.Some? && b.prepareSigs.value != [] then b.prepareSigs.value[0] else []
  }

  function SigMap(ss: seq<BlockSig>): map<Id, Sig>
  {
    if ss == [] then map[]
    else
      var m, s := SigMap(ss[..|ss| - 1]), ss[|ss| - 1];
      if s.signer in m then m else m[s.signer := s.sig]
  }

  /** collectValidSigs: the proposer counts the candidate's first signature as its own. */
  function RawSigs(net: Net, e: nat, blk: Block, leader: nat, ss: seq<BlockSig>): map<Id, Sig>
    requires e < |net.validators|
  {
    if leader == e then SigMap(ss)[net.validators[e].id := FirstSig(blk)] else SigMap(ss)
  }

  /** The position of a signer among the peers: the first match. */
  function IndexOf(ids: seq<Id>, id: Id): nat
  {
    if ids == [] || ids[0] == id then 0 else 1 + IndexOf(ids[1..], id)
  }

  function ValidSigs(net: Net, e: nat, c: nat, blk: Block, raw: map<Id, Sig>): map<Id, Sig>
  {
    map id | id in raw && id in net.Ids() && net.Good(e, c, blk.blockHash)(IndexOf(net.Ids(), id), raw[id]) :: raw[id]
  }

  function FinalBlock(net: Net, e: nat, blk: Block, bitmap: Bytes, sigs: seq<Sig>): Block
  {
    var f := blk.(bitmap := Some(bitmap), prepareSigs := Some(sigs), version := 2);
    f.(commitSig := net.sign(e, ComputeBlockHash(f)), blockHash := ComputeBlockHash(f))
  }

  /** Roll back: the tree, and the batch into the retained entries; count the attempt. */
  function Aborted(eng: Engine, a: Attempt): Engine
  {
    eng.(tree := a.snapshot, retained := a.batch, cycle := eng.cycle + 1, phase := Idle)
  }

  predicate InAttempt(p: Phase)
  {
    !p.Idle? && !p.Cleanup?
  }

  /** The checks a follower makes on the stored candidate. */
  predicate FollowerAccepts(net: Net, e: nat, c: nat, tree: Digest, blk: Block, leader: nat)
  {
    && leader < |net.validators|
    && tree == blk.stateRoot
    && ComputeBlockHash(blk) == blk.blockHash
    && net.Good(e, c, blk.blockHash)(leader, FirstSig(blk))
  }

  ghost predicate AdoptAccepts(net: Net, e: nat, c: nat, f: Block, leader: nat)
  {
    && CertifiedAt(net, e, c, f)
    && net.Good(e, c, f.blockHash)(leader, f.commitSig)
    && ComputeBlockHash(f) == f.blockHash
  }

  /** verifyPrepareQuorum on engine e, in cycle c, says yes. */
  ghost predicate CertifiedAt(net: Net, e: nat, c: nat, b: Block)
  {
    var n := |net.validators|;
    Certified(b.bitmap, b.prepareSigs, n, RequiredFor(IsDegradedBlock(b), n), net.Good(e, c, b.blockHash))
  }

  // ---- the steps of one engine ---------------------------------------------------------

  function OnEnqueue(eng: Engine, bus: Bus, entry: Entry): (Engine, Bus)
  {
    (eng.(pending := eng.pending + [entry]), Published(bus, entry))
  }

  /** Ingest the pool, snapshot the tree, fix the batch and the quorum. */
  function OnBegin(net: Net, eng: Engine, bus: Bus): Engine
  {
    var retained := Ingested(eng.retained, eng.pending, bus.entries);
    var batch := retained + eng.pending;
    if batch == [] && net.skipEmptyCycles then eng.(retained := retained, cycle := eng.cycle + 1)
    else
      var required := if eng.mode.inDegraded then 1 else QuorumRequired(|net.validators|);
      eng.(retained := retained, phase := Begun(Attempt(eng.tree, batch, required, None)))
  }

  /** The proposer builds a candidate from a fresh pool snapshot. */
  function OnBuild(net: Net, e: nat, eng: Engine, bus: Bus, a: Attempt, ts: int): Engine
    requires e < |net.validators|
  {
    if bus.entries == [] then Aborted(eng, a)
    else
      var blk := Candidate(net, e, eng, a, bus.entries, ts);
      eng.(tree := blk.stateRoot, phase := Built(a.(own := Some(blk)), blk))
  }

  /** A follower reads the stored candidate, inserts its entries and checks it; in the quorum check
      (again) it does the same once more. */
  function OnFollow(net: Net, e: nat, eng: Engine, bus: Bus, a: Attempt, leader: nat, again: bool): Engine
  {
    var c := |eng.blocks|;
    if leader == e || c !in bus.proposals then Aborted(eng, a)
    else
      var blk := bus.proposals[c];
      var tree := InsertAll(eng.tree, blk.anchored);
      if FollowerAccepts(net, e, c, tree, blk, leader) then
        eng.(tree := tree, phase := if again then Revoting(a, blk, leader) else Voting(a, blk, leader))
      else Aborted(eng, a)
  }

  /** The leader's quorum check works on the stored candidate. */
  function OnRecheck(e: nat, eng: Engine, bus: Bus, a: Attempt): Engine
  {
    if |eng.blocks| !in bus.proposals then Aborted(eng, a)
    else eng.(phase := Collecting(a, bus.proposals[|eng.blocks|], e))
  }

  function OnCollect(net: Net, e: nat, eng: Engine, bus: Bus, a: Attempt, blk: Block, leader: nat): Engine
    requires e < |net.validators|
  {
    var c := |eng.blocks|;
    var valid := ValidSigs(net, e, c, blk, RawSigs(net, e, blk, leader, SigsAt(bus, c)));
    if |valid| >= a.required then eng.(phase := Checked(a, blk, leader, valid)) else Aborted(eng, a)
  }

  /** The leader encodes the certificate and publishes B_final. */
  ghost function OnFinalise(net: Net, e: nat, eng: Engine, bus: Bus, a: Attempt, blk: Block, leader: nat,
                            valid: map<Id, Sig>, bitmap: Bytes, sigs: seq<Sig>): (Engine, Bus)
  {
    if leader != e || !Encodes(bitmap, sigs, net.Ids(), valid) then (eng, bus)
    else
      var f := FinalBlock(net, e, blk, bitmap, sigs);
      (eng.(phase := Ready(a, blk, leader, f)), Finalised(bus, f))
  }

  /** A follower takes whatever B_final the bus holds, if it verifies. */
  ghost function OnAdopt(net: Net, e: nat, eng: Engine, bus: Bus, a: Attempt, blk: Block, leader: nat): Engine
  {
    var c := |eng.blocks|;
    if leader == e then eng
    else if c !in bus.finals || !AdoptAccepts(net, e, c, bus.finals[c], leader) then Aborted(eng, a)
    else eng.(phase := Ready(a, blk, leader, bus.finals[c]))
  }

  /** Degraded-mode bookkeeping, state.Apply, and then the commit proper. */
  ghost function OnCommit(net: Net, e: nat, eng: Engine, a: Attempt, blk: Block, leader: nat, f: Block,
                          applied: Option<Block>, stateApplied: bool): Engine
  {
    var mode := NextMode(net, eng);
    if !DegradedResult(mode.inDegraded, f, |net.validators|, net.Registered(f.blockHash), applied) then eng
    else if applied.None? || !stateApplied then Aborted(eng, a).(mode := mode)
    else Appended(e, eng, a, blk, leader, applied.value, mode)
  }

  function Appended(e: nat, eng: Engine, a: Attempt, blk: Block, leader: nat, b: Block, mode: Mode): Engine
  {
    var own := if leader == e && a.own.Some? && a.own.value != blk then Some(a.own.value.stateRoot) else None;
    eng.(blocks := eng.blocks + [b], retained := Without(eng.retained, Hashes(b.anchored)), pending := [],
         cycle := eng.cycle + 1, anchored := Stored(eng.anchored, b.anchored, eng.tree, |eng.blocks|, b.timestamp),
         mode := mode, leaders := eng.leaders + [leader], owns := eng.owns + [own],
         phase := Cleanup(Hashes(b.anchored)))
  }

  /** A proof for every entry of the block, by the engine's own tree.  That Prove failed is ignored, and an empty
      proof stored. */
  function Stored(anchored: map<Bytes, AnchorProof>, es: seq<Entry>, tree: Digest, index: nat, time: int)
    : map<Bytes, AnchorProof>
  {
    if es == [] then anchored
    else
      var e := es[|es| - 1];
      Stored(anchored, es[..|es| - 1], tree, index, time)
        [e.hash := AnchorProof(index, time, tree, OrEmpty(ProveD(tree, e.hash, SMT_DEPTH)), e.submitter, e.lbl)]
  }

  function NextMode(net: Net, eng: Engine): Mode
  {
    StepMode(eng.mode, net.minValidators, net.graceCycles, Observation(|net.validators|, true))
  }

  function SignedBy(net: Net, e: nat, bus: Bus, c: nat, sig: Sig): Bus
    requires e < |net.validators|
  {
    Signed(bus, BlockSig(c, sig, net.validators[e].id))
  }

  /** Publish the PREPARE signature, in either phase. */
  function OnVote(net: Net, e: nat, eng: Engine, bus: Bus): (Engine, Bus)
    requires e < |net.validators|
  {
    var c := |eng.blocks|;
    match eng.phase
    case Announced(a, blk) => (eng.(phase := Prepared(a)), SignedBy(net, e, bus, c, FirstSig(blk)))
    case Voting(a, blk, _) => (eng.(phase := Prepared(a)), SignedBy(net, e, bus, c, net.sign(e, blk.blockHash)))
    case Revoting(a, blk, leader) =>
      (eng.(phase := Collecting(a, blk, leader)), SignedBy(net, e, bus, c, net.sign(e, blk.blockHash)))
    case _ => (eng, bus)
  }

  /** Either run of PREPARE starts by publishing a VRF proof over the next index and the root the attempt began with. */
  function OnProve(net: Net, e: nat, eng: Engine, bus: Bus): Bus
    requires e < |net.validators|
  {
    if !eng.phase.Begun? && !eng.phase.Prepared? then bus
    else
      var c, id := |eng.blocks|, net.validators[e].id;
      Proved(bus, VrfMsg(c, VrfProof(id, c, eng.phase.a.snapshot), id))
  }

  ghost function Local(net: Net, e: nat, eng: Engine, bus: Bus, ev: Event): (Engine, Bus)
    requires e < |net.validators|
  {
    var p := eng.phase;
    match ev
    case Enqueue(_, entry) => if p.Idle? then OnEnqueue(eng, bus, entry) else (eng, bus)
    case Begin(_) => (if p.Idle? then OnBegin(net, eng, bus) else eng, bus)
    case Prove(_) => (eng, OnProve(net, e, eng, bus))
    case Build(_, ts) => (if p.Begun? then OnBuild(net, e, eng, bus, p.a, ts) else eng, bus)
    case Propose(_) =>
      if p.Built? then (eng.(phase := Announced(p.a, p.blk)), Proposed(bus, p.blk)) else (eng, bus)
    case Follow(_, leader) => (if p.Begun? then OnFollow(net, e, eng, bus, p.a, leader, false) else eng, bus)
    case Vote(_) => OnVote(net, e, eng, bus)
    case Recheck(_) => (if p.Prepared? then OnRecheck(e, eng, bus, p.a) else eng, bus)
    case Refollow(_, leader) => (if p.Prepared? then OnFollow(net, e, eng, bus, p.a, leader, true) else eng, bus)
    case Collect(_) => (if p.Collecting? then OnCollect(net, e, eng, bus, p.a, p.blk, p.leader) else eng, bus)
    case Finalise(_, bitmap, sigs) =>
      if p.Checked? then OnFinalise(net, e, eng, bus, p.a, p.blk, p.leader, p.valid, bitmap, sigs) else (eng, bus)
    case Adopt(_) => (if p.Checked? then OnAdopt(net, e, eng, bus, p.a, p.blk, p.leader) else eng, bus)
    case Commit(_, applied, stateApplied) =>
      (if p.Ready? then OnCommit(net, e, eng, p.a, p.blk, p.leader, p.final, applied, stateApplied) else eng, bus)
    case Clean(_) => if p.Cleanup? then (eng.(phase := Idle), Removed(bus, p.hashes)) else (eng, bus)
    case Abort(_) => (if InAttempt(p) then Aborted(eng, p.a) else eng, bus)
  }

  ghost function Step(net: Net, s: State, ev: Event): State
    requires |s.engines| == |net.validators|
  {
    if ev.e >= |s.engines| then s
    else
      var (eng, bus) := Local(net, ev.e, s.engines[ev.e], s.bus, ev);
      State(s.engines[ev.e := eng], bus,
            if ev.Enqueue? && s.engines[ev.e].phase.Idle? then s.accepted + {ev.entry.hash} else s.accepted)
  }

  const NEW_ENGINE := Engine([], Zero, [], [], 0, Mode(false, 0), map[], [], [], Idle)

  ghost function Run(net: Net, evs: seq<Event>): (s: State)
    ensures |s.engines| == |net.validators|
  {
    if evs == [] then State(seq(|net.validators|, _ => NEW_ENGINE), EMPTY_BUS, {})
    else Step(net, Run(net, evs[..|evs| - 1]), evs[|evs| - 1])
  }
}
