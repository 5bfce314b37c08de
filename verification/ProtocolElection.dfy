/**
 Proposer election (pkg/consensus/triad.go, prepare.go) in the runs of `Protocol`.  An engine elects the validator with
 the lowest VRF output over its next index and the root it stands at, and only if it has a proof of every validator
 over that very input.  So an index has one leader, who also proposed its block; and an index at which two engines
 stand at different roots is never elected for at all.
*/
module ProtocolElection {
  import opened Common
  import opened Smt
  import opened Chain
  import opened Codec
  import opened GossipBus
  import opened KeyRotation
  import opened Protocol
  import opened ProtocolSafety
  import opened ProtocolAnchors
  import opened ProtocolClients
  import LC = LightClient

  // ---- selecting a proposer -----------------------------------------------------------------

  /** The first validator with the lowest output among the first k. */
  function LowestUpTo(net: Net, c: nat, root: Digest, k: nat): (l: nat)
    requires 0 < k
    ensures l < k && FirstLowest(net, c, root, k, l)
  {
    if k == 1 then 0
    else
      var best := LowestUpTo(net, c, root, k - 1);
      if net.gamma(k - 1, c, root) < net.gamma(best, c, root) then k - 1 else best
  }

  ghost predicate FirstLowest(net: Net, c: nat, root: Digest, k: nat, l: nat)
  {
    && (forall j: nat :: j < k ==> net.gamma(l, c, root) <= net.gamma(j, c, root))
    && (forall j: nat :: j < l ==> net.gamma(l, c, root) < net.gamma(j, c, root))
  }

  /** A proof of every validator, each over this input. */
  predicate AllProved(net: Net, c: nat, root: Digest, proofs: map<Id, VrfProof>)
  {
    forall j :: 0 <= j < |net.validators| ==> Proves(net, c, root, proofs, j)
  }

  predicate Proves(net: Net, c: nat, root: Digest, proofs: map<Id, VrfProof>, j: nat)
    requires j < |net.validators|
  {
    var id := net.validators[j].id;
    id in proofs && proofs[id] == VrfProof(id, c, root)
  }

  function Elect(net: Net, c: nat, root: Digest, proofs: map<Id, VrfProof>): Option<nat>
  {
    if net.validators != [] && AllProved(net, c, root, proofs)
    then Some(LowestUpTo(net, c, root, |net.validators|)) else None
  }

  method SelectProposerVRF(net: Net, c: nat, root: Digest, proofs: map<Id, VrfProof>) returns (r: Option<nat>)
    ensures r.Some? ==> r.value < |net.validators| && FirstLowest(net, c, root, |net.validators|, r.value)
    ensures r == Elect(net, c, root, proofs)
  {
    var best: Option<nat> := None;
    for i := 0 to |net.validators|
      invariant forall j :: 0 <= j < i ==> Proves(net, c, root, proofs, j)
      invariant best == if i == 0 then None else Some(LowestUpTo(net, c, root, i))
    {
      var id := net.validators[i].id;
      assert Proves(net, c, root, proofs, i) <==> id in proofs && proofs[id] == VrfProof(id, c, root);
      if id !in proofs { return None; }
      if proofs[id] != VrfProof(id, c, root) { return None; }
      if best.None? || net.gamma(i, c, root) < net.gamma(best.value, c, root) { best := Some(i); }
    }
    return best;
  }

  /** The engine's own proof, and of every other signer the first on the bus. */
  function Collected(own: VrfMsg, ms: seq<VrfMsg>): map<Id, VrfProof>
  {
    if ms == [] then map[own.signer := own.proof]
    else
      var before, m := Collected(own, ms[..|ms| - 1]), ms[|ms| - 1];
      if m.signer in before then before else before[m.signer := m.proof]
  }

  lemma {:induction false} CollectedFrom(own: VrfMsg, ms: seq<VrfMsg>, id: Id)
    requires id in Collected(own, ms)
    ensures id == own.signer ==> Collected(own, ms)[id] == own.proof
    ensures id != own.signer ==> exists m :: m in ms && m.signer == id && m.proof == Collected(own, ms)[id]
  {
    if ms != [] {
      var before, m := Collected(own, ms[..|ms| - 1]), ms[|ms| - 1];
      OwnCollected(own, ms[..|ms| - 1]);
      if id in before { CollectedFrom(own, ms[..|ms| - 1], id); }
    }
  }

  lemma {:induction false} OwnCollected(own: VrfMsg, ms: seq<VrfMsg>)
    ensures own.signer in Collected(own, ms)
  {
    if ms != [] { OwnCollected(own, ms[..|ms| - 1]); }
  }

  /** Whom engine e elects in either run of PREPARE. */
  function Elects(net: Net, e: nat, eng: Engine, bus: Bus): Option<nat>
    requires e < |net.validators| && InAttempt(eng.phase)
  {
    var c, root, id := |eng.blocks|, eng.phase.a.snapshot, net.validators[e].id;
    Elect(net, c, root, Collected(VrfMsg(c, VrfProof(id, c, root), id), ProofsAt(bus, c)))
  }

  /** An engine proposes, or checks the quorum as leader, only if it elects itself, and follows whom it elects. */
  predicate RuleAt(net: Net, s: State, ev: Event)
    requires |s.engines| == |net.validators|
  {
    ev.e < |s.engines| ==>
      var eng := s.engines[ev.e];
      match ev
      case Build(e, _) => eng.phase.Begun? ==> Elects(net, e, eng, s.bus) == Some(e)
      case Recheck(e) => eng.phase.Prepared? ==> Elects(net, e, eng, s.bus) == Some(e)
      case Follow(e, leader) => eng.phase.Begun? ==> Elects(net, e, eng, s.bus) == Some(leader)
      case Refollow(e, leader) => eng.phase.Prepared? ==> Elects(net, e, eng, s.bus) == Some(leader)
      case _ => true
  }

  ghost predicate Elected(net: Net, evs: seq<Event>)
  {
    evs == [] ||
    (var k := |evs| - 1; Elected(net, evs[..k]) && RuleAt(net, Run(net, evs[..k]), evs[k]))
  }

  // ---- where an engine stands at an index ------------------------------------------------------

  /** The engine has reached index c, and its tree had this root then. */
  ghost predicate AtRoot(eng: Engine, c: nat, root: Digest)
  {
    && c <= |eng.blocks| == |eng.owns|
    && root == if c == 0 then Zero else BuiltRoot(eng.blocks, eng.owns, c - 1)
  }

  ghost predicate Joint(s: State, c: nat, root: Digest)
  {
    forall e :: 0 <= e < |s.engines| ==> AtRoot(s.engines[e], c, root)
  }

  /** All engines have reached index c, at one root, and validator l has the lowest output for it. */
  ghost predicate Leads(net: Net, s: State, c: nat, l: nat)
  {
    s.engines != [] && exists root :: Joint(s, c, root) && l == LowestUpTo(net, c, root, |s.engines|)
  }

  lemma LeadsOnce(net: Net, s: State, c: nat, l: nat, l': nat)
    requires Leads(net, s, c, l) && Leads(net, s, c, l')
    ensures l == l' < |s.engines|
  {
    var r :| Joint(s, c, r) && l == LowestUpTo(net, c, r, |s.engines|);
    var r' :| Joint(s, c, r') && l' == LowestUpTo(net, c, r', |s.engines|);
    assert AtRoot(s.engines[0], c, r) && AtRoot(s.engines[0], c, r');
  }

  ghost predicate Grown(eng: Engine, eng': Engine)
  {
    eng.blocks <= eng'.blocks && eng.owns <= eng'.owns && |eng'.owns| - |eng.owns| == |eng'.blocks| - |eng.blocks|
  }

  lemma LocalGrows(net: Net, e: nat, eng: Engine, bus: Bus, ev: Event)
    requires e < |net.validators|
    ensures Grown(eng, Local(net, e, eng, bus, ev).0)
  {
  }

  ghost predicate AllGrown(s: State, s': State)
  {
    |s.engines| == |s'.engines| && forall e :: 0 <= e < |s.engines| ==> Grown(s.engines[e], s'.engines[e])
  }

  lemma StepGrows(net: Net, s: State, ev: Event)
    requires |s.engines| == |net.validators|
    ensures AllGrown(s, Step(net, s, ev))
  {
    if ev.e < |s.engines| { LocalGrows(net, ev.e, s.engines[ev.e], s.bus, ev); }
  }

  lemma AtRootGrown(eng: Engine, eng': Engine, c: nat, root: Digest)
    requires AtRoot(eng, c, root) && Grown(eng, eng')
    ensures AtRoot(eng', c, root)
  {
  }

  lemma LeadsGrown(net: Net, s: State, s': State, c: nat, l: nat)
    requires Leads(net, s, c, l) && AllGrown(s, s')
    ensures Leads(net, s', c, l)
  {
    var root :| Joint(s, c, root) && l == LowestUpTo(net, c, root, |s.engines|);
    forall e | 0 <= e < |s'.engines| ensures AtRoot(s'.engines[e], c, root) {
      AtRootGrown(s.engines[e], s'.engines[e], c, root);
    }
    assert Joint(s', c, root);
  }

  // ---- invariant -----------------------------------------------------------------------------------

  /** A published proof is over the root its engine stood at. */
  ghost predicate MsgOk(net: Net, s: State, c: nat, m: VrfMsg)
    requires |s.engines| == |net.validators|
  {
    exists j :: 0 <= j < |net.validators| && m.signer == net.validators[j].id && AtRoot(s.engines[j], c, m.proof.root)
  }

  ghost predicate ProofsOk(net: Net, s: State)
    requires |s.engines| == |net.validators|
  {
    forall c: nat, m {:trigger MsgOk(net, s, c, m)} :: m in ProofsAt(s.bus, c) ==> MsgOk(net, s, c, m)
  }

  /** A stored candidate is by the leader of its index. */
  ghost predicate ByLeader(net: Net, s: State, c: nat, p: Block)
  {
    exists l :: 0 <= l < |net.validators| && Leads(net, s, c, l) && p.proposer == net.validators[l].id
  }

  ghost predicate ProposalsLed(net: Net, s: State, bus: Bus)
  {
    forall c {:trigger bus.proposals[c]} :: c in bus.proposals ==> ByLeader(net, s, c, bus.proposals[c])
  }

  ghost predicate PhaseLed(net: Net, s: State, e: nat, g: Engine)
  {
    var c := |g.blocks|;
    match g.phase
    case Built(a, blk) => ByLeader(net, s, c, blk)
    case Voting(a, blk, leader) => Leads(net, s, c, leader)
    case Revoting(a, blk, leader) => Leads(net, s, c, leader)
    case Collecting(a, blk, leader) => Leads(net, s, c, leader)
    case Checked(a, blk, leader, valid) => Leads(net, s, c, leader)
    case Ready(a, blk, leader, f) => Leads(net, s, c, leader)
    case _ => true
  }

  ghost predicate ChainLed(net: Net, s: State, e: nat, g: Engine)
  {
    && |g.leaders| == |g.blocks| && OwnsLed(e, g.leaders, g.owns)
    && forall i {:trigger g.leaders[i]} :: 0 <= i < |g.leaders| ==> Leads(net, s, i, g.leaders[i])
  }

  ghost predicate ElectionOk(net: Net, s: State)
  {
    && |s.engines| == |net.validators|
    && ProofsOk(net, s) && ProposalsLed(net, s, s.bus)
    && forall e :: 0 <= e < |s.engines| ==> PhaseLed(net, s, e, s.engines[e]) && ChainLed(net, s, e, s.engines[e])
  }

  // ---- an election needs all engines at one root ---------------------------------------------------

  lemma StandsAt(net: Net, e: nat, eng: Engine, bus: Bus)
    requires EngineOk(net, e, eng, bus) && InAttempt(eng.phase)
    ensures AtRoot(eng, |eng.blocks|, eng.phase.a.snapshot)
  {
  }

  lemma ElectsJoint(net: Net, s: State, e: nat, j: nat)
    requires NoDuplicates(net.Ids()) && StateOk(net, s) && ProofsOk(net, s) && e < |s.engines| && j < |s.engines|
    requires InAttempt(s.engines[e].phase) && Elects(net, e, s.engines[e], s.bus).Some?
    ensures AtRoot(s.engines[j], |s.engines[e].blocks|, s.engines[e].phase.a.snapshot)
  {
    var eng := s.engines[e];
    var c, root, id := |eng.blocks|, eng.phase.a.snapshot, net.validators[e].id;
    var own, ms := VrfMsg(c, VrfProof(id, c, root), id), ProofsAt(s.bus, c);
    assert Proves(net, c, root, Collected(own, ms), j);
    assert net.Ids()[j] == net.validators[j].id && net.Ids()[e] == id;
    if j == e {
      StandsAt(net, e, eng, s.bus);
    } else {
      CollectedFrom(own, ms, net.validators[j].id);
      var m :| m in ms && m.signer == net.validators[j].id && m.proof == VrfProof(net.validators[j].id, c, root);
      assert MsgOk(net, s, c, m);
      var j' :| 0 <= j' < |net.validators| && m.signer == net.validators[j'].id && AtRoot(s.engines[j'], c, root);
      assert net.Ids()[j'] == net.Ids()[j];
    }
  }

  lemma ElectsLeads(net: Net, s: State, e: nat)
    requires NoDuplicates(net.Ids()) && StateOk(net, s) && ProofsOk(net, s) && e < |s.engines|
    requires InAttempt(s.engines[e].phase) && Elects(net, e, s.engines[e], s.bus).Some?
    ensures Leads(net, s, |s.engines[e].blocks|, Elects(net, e, s.engines[e], s.bus).value)
  {
    var c, root := |s.engines[e].blocks|, s.engines[e].phase.a.snapshot;
    forall j | 0 <= j < |s.engines| ensures AtRoot(s.engines[j], c, root) { ElectsJoint(net, s, e, j); }
    assert Joint(s, c, root);
  }

  // ---- every step keeps it ----------------------------------------------------------------------------

  predicate ElectionEvent(ev: Event)
  {
    ev.Build? || ev.Recheck? || ev.Follow? || ev.Refollow?
  }

  /** Other events change neither the leader nor the candidate of an attempt. */
  lemma LeaderStays(net: Net, e: nat, eng: Engine, bus: Bus, ev: Event)
    requires e < |net.validators| && !ElectionEvent(ev)
    ensures var g := Local(net, e, eng, bus, ev).0;
      && (UnderLeader(g.phase) ==>
            UnderLeader(eng.phase) && g.phase.leader == eng.phase.leader && g.blocks == eng.blocks)
      && (g.phase.Built? ==> g.phase == eng.phase && g.blocks == eng.blocks)
  {
  }

  lemma LeaderStaysLed(net: Net, s: State, e: nat, eng: Engine, g: Engine)
    requires PhaseLed(net, s, e, eng)
    requires UnderLeader(g.phase) ==>
               UnderLeader(eng.phase) && g.phase.leader == eng.phase.leader && g.blocks == eng.blocks
    requires g.phase.Built? ==> g.phase == eng.phase && g.blocks == eng.blocks
    ensures PhaseLed(net, s, e, g)
  {
  }

  lemma NewLeaderLed(net: Net, s: State, ev: Event)
    requires NoDuplicates(net.Ids()) && StateOk(net, s) && ElectionOk(net, s) && RuleAt(net, s, ev)
    requires ev.e < |s.engines| && ElectionEvent(ev)
    ensures PhaseLed(net, s, ev.e, Local(net, ev.e, s.engines[ev.e], s.bus, ev).0)
  {
    var e, eng := ev.e, s.engines[ev.e];
    assert PhaseLed(net, s, e, eng);
    if (ev.Build? || ev.Follow?) && eng.phase.Begun? { ElectsLeads(net, s, e); }
    if (ev.Recheck? || ev.Refollow?) && eng.phase.Prepared? { ElectsLeads(net, s, e); }
  }

  lemma LocalPhaseLed(net: Net, s: State, ev: Event)
    requires NoDuplicates(net.Ids()) && StateOk(net, s) && ElectionOk(net, s) && RuleAt(net, s, ev)
    requires ev.e < |s.engines|
    ensures PhaseLed(net, s, ev.e, Local(net, ev.e, s.engines[ev.e], s.bus, ev).0)
  {
    if ElectionEvent(ev) {
      NewLeaderLed(net, s, ev);
    } else {
      var eng := s.engines[ev.e];
      LeaderStays(net, ev.e, eng, s.bus, ev);
      LeaderStaysLed(net, s, ev.e, eng, Local(net, ev.e, eng, s.bus, ev).0);
    }
  }

  /** Only a commit adds to the chain, under the leader of the attempt; only a leader has a candidate of its own. */
  ghost predicate CommitsUnder(e: nat, eng: Engine, g: Engine)
  {
    && eng.phase.Ready? && |g.blocks| == |eng.blocks| + 1 && g.leaders == eng.leaders + [eng.phase.leader]
    && |g.owns| == |eng.owns| + 1 && eng.owns <= g.owns
    && (g.owns[|eng.owns|].Some? ==> eng.phase.leader == e)
  }

  lemma LocalCommits(net: Net, e: nat, eng: Engine, bus: Bus, ev: Event)
    requires e < |net.validators|
    ensures var g := Local(net, e, eng, bus, ev).0;
      (g.blocks == eng.blocks && g.leaders == eng.leaders && g.owns == eng.owns) || CommitsUnder(e, eng, g)
  {
  }

  lemma LocalChainLed(net: Net, s: State, ev: Event)
    requires StateOk(net, s) && ElectionOk(net, s) && ev.e < |s.engines|
    ensures ChainLed(net, s, ev.e, Local(net, ev.e, s.engines[ev.e], s.bus, ev).0)
  {
    LocalCommits(net, ev.e, s.engines[ev.e], s.bus, ev);
    ChainLedOn(net, s, ev.e, s.engines[ev.e], Local(net, ev.e, s.engines[ev.e], s.bus, ev).0);
  }

  lemma ChainLedOn(net: Net, s: State, e: nat, eng: Engine, g: Engine)
    requires ChainLed(net, s, e, eng) && PhaseLed(net, s, e, eng)
    requires (g.blocks == eng.blocks && g.leaders == eng.leaders && g.owns == eng.owns) || CommitsUnder(e, eng, g)
    ensures ChainLed(net, s, e, g)
  {
  }

  lemma LocalBus(net: Net, e: nat, eng: Engine, bus: Bus, ev: Event)
    requires e < |net.validators|
    ensures var b := Local(net, e, eng, bus, ev).1;
      && b.vrfProofs == (if ev.Prove? then OnProve(net, e, eng, bus).vrfProofs else bus.vrfProofs)
      && b.proposals == (if ev.Propose? && eng.phase.Built? then Proposed(bus, eng.phase.blk).proposals
                         else bus.proposals)
  {
  }

  lemma LocalProposalsLed(net: Net, s: State, ev: Event)
    requires StateOk(net, s) && ElectionOk(net, s) && ev.e < |s.engines|
    ensures ProposalsLed(net, s, Local(net, ev.e, s.engines[ev.e], s.bus, ev).1)
  {
    var eng := s.engines[ev.e];
    LocalBus(net, ev.e, eng, s.bus, ev);
    if ev.Propose? && eng.phase.Built? {
      assert EngineOk(net, ev.e, eng, s.bus) && PhaseLed(net, s, ev.e, eng);
    }
  }

  lemma StepProofs(net: Net, s: State, ev: Event)
    requires StateOk(net, s) && ElectionOk(net, s)
    ensures ProofsOk(net, Step(net, s, ev))
  {
    var s' := Step(net, s, ev);
    StepGrows(net, s, ev);
    forall c: nat, m | m in ProofsAt(s'.bus, c) ensures MsgOk(net, s', c, m) {
      var j := StepProof(net, s, ev, c, m);
      AtRootGrown(s.engines[j], s'.engines[j], c, m.proof.root);
    }
  }

  lemma StepProof(net: Net, s: State, ev: Event, c: nat, m: VrfMsg) returns (j: nat)
    requires StateOk(net, s) && ElectionOk(net, s) && m in ProofsAt(Step(net, s, ev).bus, c)
    ensures j < |net.validators| && m.signer == net.validators[j].id && AtRoot(s.engines[j], c, m.proof.root)
  {
    if m in ProofsAt(s.bus, c) {
      assert MsgOk(net, s, c, m);
      j :| 0 <= j < |net.validators| && m.signer == net.validators[j].id && AtRoot(s.engines[j], c, m.proof.root);
    } else {
      j := ev.e;
      var eng := s.engines[j];
      LocalBus(net, j, eng, s.bus, ev);
      assert EngineOk(net, j, eng, s.bus);
      StandsAt(net, j, eng, s.bus);
    }
  }

  lemma PhaseLedGrown(net: Net, s: State, s': State, e: nat, g: Engine)
    requires PhaseLed(net, s, e, g) && AllGrown(s, s')
    ensures PhaseLed(net, s', e, g)
  {
    var c := |g.blocks|;
    forall l | Leads(net, s, c, l) ensures Leads(net, s', c, l) { LeadsGrown(net, s, s', c, l); }
  }

  lemma ChainLedGrown(net: Net, s: State, s': State, e: nat, g: Engine)
    requires ChainLed(net, s, e, g) && AllGrown(s, s')
    ensures ChainLed(net, s', e, g)
  {
    forall i | 0 <= i < |g.leaders| ensures Leads(net, s', i, g.leaders[i]) {
      LeadsGrown(net, s, s', i, g.leaders[i]);
    }
  }

  lemma ProposalsLedGrown(net: Net, s: State, s': State, bus: Bus)
    requires ProposalsLed(net, s, bus) && AllGrown(s, s')
    ensures ProposalsLed(net, s', bus)
  {
    forall c | c in bus.proposals ensures ByLeader(net, s', c, bus.proposals[c]) {
      var l :| 0 <= l < |net.validators| && Leads(net, s, c, l) && bus.proposals[c].proposer == net.validators[l].id;
      LeadsGrown(net, s, s', c, l);
    }
  }

  lemma StepElection(net: Net, s: State, ev: Event)
    requires NoDuplicates(net.Ids()) && StateOk(net, s) && ElectionOk(net, s) && RuleAt(net, s, ev)
    ensures ElectionOk(net, Step(net, s, ev))
  {
    var s' := Step(net, s, ev);
    StepGrows(net, s, ev);
    StepProofs(net, s, ev);
    if ev.e < |s.engines| {
      LocalPhaseLed(net, s, ev);
      LocalChainLed(net, s, ev);
      LocalProposalsLed(net, s, ev);
      ProposalsLedGrown(net, s, s', s'.bus);
      forall e | 0 <= e < |s'.engines|
        ensures PhaseLed(net, s', e, s'.engines[e]) && ChainLed(net, s', e, s'.engines[e])
      {
        PhaseLedGrown(net, s, s', e, s'.engines[e]);
        ChainLedGrown(net, s, s', e, s'.engines[e]);
      }
    }
  }

  lemma {:induction false} RunElection(net: Net, evs: seq<Event>)
    requires NoDuplicates(net.Ids()) && Elected(net, evs)
    ensures ElectionOk(net, Run(net, evs))
  {
    if evs != [] {
      var k := |evs| - 1;
      RunElection(net, evs[..k]);
      RunOk(net, evs[..k]);
      StepElection(net, Run(net, evs[..k]), evs[k]);
    }
  }

  // ---- one leader to an index, and that is its proposer ---------------------------------------------------

  lemma StateLeader(net: Net, s: State, e: nat, i: nat)
    requires StateOk(net, s) && ElectionOk(net, s) && e < |s.engines| && i < |s.engines[e].blocks|
    ensures |s.engines[e].leaders| == |s.engines[e].blocks| && Leads(net, s, i, s.engines[e].leaders[i])
    ensures s.engines[e].leaders[i] < |net.validators|
    ensures s.engines[e].blocks[i].proposer == net.validators[s.engines[e].leaders[i]].id
  {
    var b, l := s.engines[e].blocks[i], s.engines[e].leaders[i];
    assert ChainLed(net, s, e, s.engines[e]);
    HeldBlock(net, s, e, i);
    var l' :| 0 <= l' < |net.validators| && Leads(net, s, i, l') &&
              s.bus.proposals[i].proposer == net.validators[l'].id;
    LeadsOnce(net, s, i, l, l');
  }

  lemma SameLeader(net: Net, s: State, e1: nat, e2: nat, i: nat)
    requires StateOk(net, s) && ElectionOk(net, s) && e1 < |s.engines| && e2 < |s.engines|
    requires i < |s.engines[e1].blocks| && i < |s.engines[e2].blocks|
    ensures i < |s.engines[e1].leaders| && i < |s.engines[e2].leaders|
    ensures s.engines[e1].leaders[i] == s.engines[e2].leaders[i]
  {
    StateLeader(net, s, e1, i);
    StateLeader(net, s, e2, i);
    LeadsOnce(net, s, i, s.engines[e1].leaders[i], s.engines[e2].leaders[i]);
  }

  /** Whatever the interleaving, the attempts and the failures: all engines commit an index under one leader, and the
      leader is the proposer its block names. */
  lemma OneLeader(net: Net, evs: seq<Event>, e1: nat, e2: nat, i: nat)
    requires NoDuplicates(net.Ids()) && Elected(net, evs) && e1 < |net.validators| && e2 < |net.validators|
    requires i < |Run(net, evs).engines[e1].blocks| && i < |Run(net, evs).engines[e2].blocks|
    ensures var g1, g2 := Run(net, evs).engines[e1], Run(net, evs).engines[e2];
      && i < |g1.leaders| && i < |g2.leaders| && g1.leaders[i] == g2.leaders[i] < |net.validators|
      && g1.blocks[i].proposer == net.validators[g1.leaders[i]].id == g2.blocks[i].proposer
  {
    RunOk(net, evs);
    RunElection(net, evs);
    var s := Run(net, evs);
    StateLeader(net, s, e1, i);
    StateLeader(net, s, e2, i);
    SameLeader(net, s, e1, e2, i);
  }

  /** An engine's own signature over the blocks it led passes by its own keys. */
  ghost predicate OwnSignaturesPass(net: Net, e: nat, eng: Engine)
    requires |eng.leaders| == |eng.blocks|
  {
    forall i :: 0 <= i < |eng.blocks| && eng.leaders[i] == e ==>
      var h := eng.blocks[i].blockHash; net.Good(e, i, h)(e, net.sign(e, h))
  }

  /** A client follows every chain of every elected run, in a compatible network, unless its holder led a block with a
      key that has been rotated away; and then it does not. */
  lemma LightClientFollowsElected(net: Net, evs: seq<Event>, e: nat, t: LC.Trust)
    requires NoDuplicates(net.Ids()) && Elected(net, evs) && e < |net.validators| && Resolves(net, e, t)
    requires var blocks := Run(net, evs).engines[e].blocks;
      forall i :: 0 <= i < |blocks| ==> NoForeignSignature(net, e, i, blocks[i].blockHash)
    ensures var eng := Run(net, evs).engines[e];
      && |eng.leaders| == |eng.blocks|
      && (LC.Walks(eng.blocks, t) <==> eng.blocks == [] || (Compatible(net) && OwnSignaturesPass(net, e, eng)))
  {
    RunOk(net, evs);
    RunElection(net, evs);
    LightClientFollowsRun(net, evs, e, t);
    var s := Run(net, evs);
    forall i | 0 <= i < |s.engines[e].blocks|
      ensures LedByProposer(net, e, s.engines[e], i) <==>
              (s.engines[e].leaders[i] == e ==>
                 var h := s.engines[e].blocks[i].blockHash; net.Good(e, i, h)(e, net.sign(e, h)))
    {
      StateLeader(net, s, e, i);
    }
  }

  // ---- what a stale leader does to the network ---------------------------------------------------------------

  /** The engine's tree is not the one its block i - 1 names. */
  ghost predicate StaleAt(eng: Engine, i: nat)
  {
    0 < i <= |eng.blocks| == |eng.owns| && BuiltRoot(eng.blocks, eng.owns, i - 1) != eng.blocks[i - 1].stateRoot
  }

  /** Every engine has block i - 1, with this state root. */
  ghost predicate AllHold(s: State, i: nat, root: Digest)
  {
    forall e :: 0 <= e < |s.engines| ==>
      0 < i <= |s.engines[e].blocks| == |s.engines[e].owns| && s.engines[e].blocks[i - 1].stateRoot == root
  }

  lemma RootsHeld(net: Net, s: State, i: nat)
    requires StateOk(net, s) && forall e :: 0 <= e < |s.engines| ==> 0 < i <= |s.engines[e].blocks|
    requires s.engines != []
    ensures AllHold(s, i, s.engines[0].blocks[i - 1].stateRoot)
  {
    StoredBlock(net, s, 0, i - 1);
    forall e | 0 <= e < |s.engines|
      ensures s.engines[e].blocks[i - 1].stateRoot == s.engines[0].blocks[i - 1].stateRoot
      ensures |s.engines[e].owns| == |s.engines[e].blocks|
    {
      StoredBlock(net, s, e, i - 1);
      assert EngineOk(net, e, s.engines[e], s.bus);
    }
  }

  lemma NotBothStale(e: nat, other: nat, g: Engine, g': Engine, i: nat)
    requires OwnsLed(e, g.leaders, g.owns) && OwnsLed(other, g'.leaders, g'.owns) && e != other
    requires 0 < i <= |g.leaders| && i <= |g'.leaders| && g.leaders[i - 1] == g'.leaders[i - 1] && StaleAt(g, i)
    ensures !StaleAt(g', i)
  {
  }

  lemma OwnsOf(net: Net, s: State, e: nat)
    requires ElectionOk(net, s) && e < |s.engines|
    ensures OwnsLed(e, s.engines[e].leaders, s.engines[e].owns)
  {
    assert ChainLed(net, s, e, s.engines[e]);
  }

  /** Only the leader can be stale. */
  lemma OneStale(net: Net, s: State, e: nat, other: nat, i: nat)
    requires StateOk(net, s) && ElectionOk(net, s) && e < |s.engines| && other < |s.engines| && e != other
    requires i <= |s.engines[other].blocks| && StaleAt(s.engines[e], i)
    ensures !StaleAt(s.engines[other], i)
  {
    SameLeader(net, s, e, other, i - 1);
    OwnsOf(net, s, e);
    OwnsOf(net, s, other);
    NotBothStale(e, other, s.engines[e], s.engines[other], i);
  }

  ghost predicate NoneStale(s: State, i: nat)
  {
    forall e :: 0 <= e < |s.engines| ==> !StaleAt(s.engines[e], i)
  }

  lemma FreshAtRoot(eng: Engine, i: nat)
    requires 0 < i <= |eng.blocks| == |eng.owns|
    ensures AtRoot(eng, i, eng.blocks[i - 1].stateRoot) <==> !StaleAt(eng, i)
  {
  }

  /** At an index all engines have reached they stand at one root iff none of them is stale there. */
  lemma RootsAgreeIff(net: Net, s: State, i: nat)
    requires StateOk(net, s) && ElectionOk(net, s) && |s.engines| >= 2
    requires forall e :: 0 <= e < |s.engines| ==> 0 < i <= |s.engines[e].blocks|
    ensures (exists root :: Joint(s, i, root)) <==> NoneStale(s, i)
  {
    RootsHeld(net, s, i);
    var root := s.engines[0].blocks[i - 1].stateRoot;
    forall e | 0 <= e < |s.engines| ensures AtRoot(s.engines[e], i, root) <==> !StaleAt(s.engines[e], i) {
      FreshAtRoot(s.engines[e], i);
    }
    if NoneStale(s, i) {
      assert Joint(s, i, root);
    } else {
      var e :| 0 <= e < |s.engines| && StaleAt(s.engines[e], i);
      var other := if e == 0 then 1 else 0;
      OneStale(net, s, e, other, i);
      if r :| Joint(s, i, r) { assert AtRoot(s.engines[e], i, r) && AtRoot(s.engines[other], i, r); }
    }
  }

  lemma GrownTwice(s: State, s': State, s'': State)
    requires AllGrown(s, s') && AllGrown(s', s'')
    ensures AllGrown(s, s'')
  {
  }

  lemma {:induction false} RunGrows(net: Net, evs: seq<Event>, more: seq<Event>)
    requires NoDuplicates(net.Ids()) && Elected(net, evs + more)
    ensures Elected(net, evs) && AllGrown(Run(net, evs), Run(net, evs + more))
  {
    if more == [] {
      assert evs + more == evs;
    } else {
      var k := |more| - 1;
      assert (evs + more)[..|evs + more| - 1] == evs + more[..k];
      RunGrows(net, evs, more[..k]);
      StepGrows(net, Run(net, evs + more[..k]), more[k]);
      GrownTwice(Run(net, evs), Run(net, evs + more[..k]), Run(net, evs + more));
    }
  }

  /** Once an engine of several is stale, no engine ever commits another block, however the run goes on: nobody can
      collect the proofs an election needs. */
  lemma StaleHalts(net: Net, evs: seq<Event>, more: seq<Event>, e: nat, j: nat)
    requires NoDuplicates(net.Ids()) && Elected(net, evs + more) && |net.validators| >= 2
    requires e < |net.validators| && j < |net.validators|
    requires StaleAt(Run(net, evs).engines[e], |Run(net, evs).engines[e].blocks|)
    ensures |Run(net, evs + more).engines[j].blocks| <= |Run(net, evs).engines[e].blocks|
  {
    RunGrows(net, evs, more);
    RunOk(net, evs + more);
    RunElection(net, evs + more);
    var s, i := Run(net, evs + more), |Run(net, evs).engines[e].blocks|;
    assert Grown(Run(net, evs).engines[e], s.engines[e]);
    assert StaleAt(s.engines[e], i);
    if |s.engines[j].blocks| > i {
      StateLeader(net, s, j, i);
      var root :| Joint(s, i, root) && s.engines[j].leaders[i] == LowestUpTo(net, i, root, |s.engines|);
      forall k | 0 <= k < |s.engines| ensures 0 < i <= |s.engines[k].blocks| { assert AtRoot(s.engines[k], i, root); }
      RootsAgreeIff(net, s, i);
      assert false;
    }
  }
}
