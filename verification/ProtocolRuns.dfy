/**
 Runs that show both sides of the conditions proved about the protocol: a leader whose tree is not its block's, which
 ends the chain for good; a chain clients follow, and one they refuse.  They exist in every network of a suitable size,
 whoever its VRF keys elect.
*/
module ProtocolRuns {
  import opened Common
  import opened Smt
  import opened Chain
  import opened Codec
  import opened Degraded
  import opened Batch
  import opened GossipBus
  import opened KeyRotation
  import opened Protocol
  import opened ProtocolSafety
  import opened ProtocolClients
  import opened ProtocolAnchors
  import opened ProtocolElection
  import LC = LightClient

  /** No key has been rotated, a signature passes for its signer alone, and the network is not below its minimum. */
  ghost predicate Plain(net: Net)
  {
    && 0 < |net.validators| && net.minValidators <= |net.validators| && NoDuplicates(net.Ids())
    && (forall e: nat, j: nat, c: nat {:trigger net.keys(e, j, c)} ::
          j < |net.validators| ==> net.keys(e, j, c) == [net.validators[j].pk])
    && (forall p: nat, j: nat, h {:trigger net.ver(net.validators[j].pk, h, net.sign(p, h))} ::
          p < |net.validators| && j < |net.validators| ==>
            (net.ver(net.validators[j].pk, h, net.sign(p, h)) <==> p == j))
  }

  lemma GoodIff(net: Net, e: nat, c: nat, h: BlockHash, j: nat, p: nat)
    requires Plain(net) && j < |net.validators| && p < |net.validators|
    ensures net.Good(e, c, h)(j, net.sign(p, h)) <==> p == j
  {
    assert net.keys(e, j, c) == [net.validators[j].pk];
    assert net.validators[j].pk in net.keys(e, j, c);
  }

  lemma PlainForeign(net: Net, e: nat, c: nat, h: BlockHash)
    requires Plain(net)
    ensures NoForeignSignature(net, e, c, h)
  {
    forall p: nat, j: nat
      | p < |net.validators| && j < |net.validators| && VerifiesUnder(net.ver, net.keys(e, j, c), h, net.sign(p, h))
      ensures p == j
    {
      assert net.keys(e, j, c) == [net.validators[j].pk];
    }
  }

  // ---- building runs ----------------------------------------------------------------------

  /** An elected run and the state it leads to. */
  ghost predicate At(net: Net, evs: seq<Event>, gs: seq<Engine>, b: Bus)
  {
    && |gs| == |net.validators| && Run(net, evs).engines == gs && Run(net, evs).bus == b
    && Elected(net, evs) && Sized(evs)
  }

  /** Whom the event takes for the leader, if it takes anyone. */
  function Choice(ev: Event): Option<nat>
  {
    match ev
    case Build(e, _) => Some(e)
    case Recheck(e) => Some(e)
    case Follow(_, leader) => Some(leader)
    case Refollow(_, leader) => Some(leader)
    case _ => None
  }

  lemma Next(net: Net, evs: seq<Event>, gs: seq<Engine>, b: Bus, ev: Event, g: Engine, b': Bus)
    requires At(net, evs, gs, b) && ev.e < |gs| && Local(net, ev.e, gs[ev.e], b, ev) == (g, b') && SizedEvent(ev)
    requires Choice(ev).Some? ==> InAttempt(gs[ev.e].phase) && Elects(net, ev.e, gs[ev.e], b) == Choice(ev)
    ensures At(net, evs + [ev], gs[ev.e := g], b')
  {
    assert (evs + [ev])[..|evs|] == evs;
    assert RuleAt(net, Run(net, evs), ev);
  }

  function FirstLeader(net: Net): nat
    requires 0 < |net.validators|
  {
    LowestUpTo(net, 0, Zero, |net.validators|)
  }

  function Try(net: Net, x: Entry): Attempt
  {
    Attempt(Zero, [x], QuorumRequired(|net.validators|), None)
  }

  /** The candidate the first leader builds of x. */
  function First(net: Net, x: Entry): Block
    requires 0 < |net.validators|
  {
    Candidate(net, FirstLeader(net), NEW_ENGINE, Try(net, x), [x], 1)
  }

  lemma FirstFacts(net: Net, x: Entry)
    requires 0 < |net.validators|
    ensures var blk, l := First(net, x), FirstLeader(net);
      && blk.index == 0 && blk.anchored == [x] && blk.stateRoot == InsertAll(Zero, [x])
      && blk.proposer == net.validators[l].id && blk.blockHash == ComputeBlockHash(blk)
      && FirstSig(blk) == net.sign(l, blk.blockHash) && Dedup([x]) == [x]
  {
    assert [x][..0] == [] && Dedup([]) == [] && [] + [x] == [x];
  }

  lemma IngestOne(x: Entry)
    ensures Ingested([], [x], [x]) == [] && Ingested([], [], [x]) == [x] && [] + [x] == [x] == [x] + []
  {
    assert [x][..0] == [] && x in [x] && x.hash in Hashes([x]);
  }

  // ---- all engines begin, and publish their proofs --------------------------------------------------

  function ProofOf(net: Net, j: nat): VrfMsg
    requires j < |net.validators|
  {
    VrfMsg(0, VrfProof(net.validators[j].id, 0, Zero), net.validators[j].id)
  }

  function Proofs(net: Net, k: nat): seq<VrfMsg>
    requires k <= |net.validators|
  {
    seq(k, i requires 0 <= i < k => ProofOf(net, i))
  }

  /** x came in at the leader; the others take it from the pool when they begin. */
  function Entered(net: Net, x: Entry, j: nat): Engine
    requires 0 < |net.validators|
  {
    if j == FirstLeader(net) then NEW_ENGINE.(pending := [x]) else NEW_ENGINE
  }

  function Started(net: Net, x: Entry, j: nat): Engine
    requires 0 < |net.validators|
  {
    (if j == FirstLeader(net) then NEW_ENGINE.(pending := [x]) else NEW_ENGINE.(retained := [x])).(
      phase := Begun(Try(net, x)))
  }

  function Gathered(net: Net, x: Entry, k: nat): seq<Engine>
    requires 0 < |net.validators|
  {
    seq(|net.validators|, j requires 0 <= j => if j < k then Started(net, x, j) else Entered(net, x, j))
  }

  function GatherBus(net: Net, x: Entry, k: nat): Bus
    requires k <= |net.validators|
  {
    Bus([x], map[], map[], map[], if k == 0 then map[] else map[0 := Proofs(net, k)])
  }

  lemma NewProof(net: Net, x: Entry, j: nat)
    requires NoDuplicates(net.Ids()) && j < |net.validators|
    ensures Proved(GatherBus(net, x, j), ProofOf(net, j)) == GatherBus(net, x, j + 1)
  {
    var b, ms := GatherBus(net, x, j), Proofs(net, j);
    assert ProofsAt(b, 0) == ms;
    forall m | m in ms ensures m.signer != net.validators[j].id {
      var i :| 0 <= i < |ms| && ms[i] == m;
      assert net.Ids()[i] != net.Ids()[j];
    }
    assert ms + [ProofOf(net, j)] == Proofs(net, j + 1);
    assert b.vrfProofs[0 := Proofs(net, j + 1)] == map[0 := Proofs(net, j + 1)];
  }

  lemma EntersFirst(net: Net, x: Entry)
    requires 0 < |net.validators| && |x.hash| == 32
    ensures At(net, [Enqueue(FirstLeader(net), x)], Gathered(net, x, 0), GatherBus(net, x, 0))
  {
    var gs, l := seq(|net.validators|, _ => NEW_ENGINE), FirstLeader(net);
    assert [] + [x] == [x];
    Next(net, [], gs, EMPTY_BUS, Enqueue(l, x), NEW_ENGINE.(pending := [x]), GatherBus(net, x, 0));
    assert gs[l := NEW_ENGINE.(pending := [x])] == Gathered(net, x, 0);
    assert [] + [Enqueue(l, x)] == [Enqueue(l, x)];
  }

  lemma {:induction false} Gathers(net: Net, x: Entry, k: nat) returns (evs: seq<Event>)
    requires NoDuplicates(net.Ids()) && 0 < |net.validators| && k <= |net.validators| && |x.hash| == 32
    ensures At(net, evs, Gathered(net, x, k), GatherBus(net, x, k))
  {
    if k == 0 {
      EntersFirst(net, x);
      evs := [Enqueue(FirstLeader(net), x)];
    } else {
      var j := k - 1;
      evs := Gathers(net, x, j);
      var gs, b := Gathered(net, x, j), GatherBus(net, x, j);
      assert gs[j] == Entered(net, x, j);
      IngestOne(x);
      Next(net, evs, gs, b, Begin(j), Started(net, x, j), b);
      evs, gs := evs + [Begin(j)], gs[j := Started(net, x, j)];
      NewProof(net, x, j);
      Next(net, evs, gs, b, Prove(j), Started(net, x, j), GatherBus(net, x, k));
      assert gs[j := Started(net, x, j)] == Gathered(net, x, k);
      evs := evs + [Prove(j)];
    }
  }

  /** Then everyone elects the first leader, at any time of any attempt for the first index. */
  lemma ElectsFirst(net: Net, e: nat, eng: Engine, b: Bus)
    requires NoDuplicates(net.Ids()) && e < |net.validators| && ProofsAt(b, 0) == Proofs(net, |net.validators|)
    requires InAttempt(eng.phase) && eng.blocks == [] && eng.phase.a.snapshot == Zero
    ensures Elects(net, e, eng, b) == Some(FirstLeader(net))
  {
    var n, own := |net.validators|, ProofOf(net, e);
    CollectsProofs(net, own, n);
    forall j | 0 <= j < n ensures Proves(net, 0, Zero, Collected(own, Proofs(net, n)), j) {}
  }

  lemma {:induction false} CollectsProofs(net: Net, own: VrfMsg, k: nat)
    requires k <= |net.validators| && own.proof == VrfProof(own.signer, 0, Zero)
    ensures var m := Collected(own, Proofs(net, k));
      && (forall id :: id in m ==> m[id] == VrfProof(id, 0, Zero))
      && (forall j :: 0 <= j < k ==> net.validators[j].id in m)
  {
    if k > 0 {
      CollectsProofs(net, own, k - 1);
      assert Proofs(net, k)[..k - 1] == Proofs(net, k - 1);
    }
  }

  // ---- the leader proposes, and all vote ---------------------------------------------------------------

  function Ballot(ids: seq<Id>, sig: nat -> Sig, j: nat): BlockSig
    requires j < |ids|
  {
    BlockSig(0, sig(j), ids[j])
  }

  /** The leader's ballot, and those of the others among the first k. */
  function Ballots(ids: seq<Id>, sig: nat -> Sig, l: nat, k: nat): seq<BlockSig>
    requires l < |ids| && k <= |ids|
  {
    if k == 0 then [Ballot(ids, sig, l)]
    else if k - 1 == l then Ballots(ids, sig, l, k - 1)
    else Ballots(ids, sig, l, k - 1) + [Ballot(ids, sig, k - 1)]
  }

  lemma {:induction false} BallotsBefore(ids: seq<Id>, sig: nat -> Sig, l: nat, k: nat, e: nat)
    requires NoDuplicates(ids) && l < |ids| && k <= e < |ids| && e != l
    ensures forall v :: v in Ballots(ids, sig, l, k) ==> v.signer != ids[e]
  {
    assert ids[l] != ids[e];
    if k > 0 {
      BallotsBefore(ids, sig, l, k - 1, e);
      assert ids[k - 1] != ids[e];
    }
  }

  lemma {:induction false} LeaderVoted(ids: seq<Id>, sig: nat -> Sig, l: nat, k: nat)
    requires l < |ids| && k <= |ids|
    ensures Ballot(ids, sig, l) in Ballots(ids, sig, l, k)
  {
    if k > 0 { LeaderVoted(ids, sig, l, k - 1); }
  }

  lemma SigMapAppend(vs: seq<BlockSig>, v: BlockSig)
    ensures var m := SigMap(vs); SigMap(vs + [v]) == if v.signer in m then m else m[v.signer := v.sig]
  {
    assert (vs + [v])[..|vs|] == vs;
  }

  /** The map holds the signatures of the leader and of the first k. */
  ghost predicate Holds(m: map<Id, Sig>, ids: seq<Id>, sig: nat -> Sig, l: nat, k: nat)
  {
    forall j :: 0 <= j < |ids| ==>
      (ids[j] in m <==> j < k || j == l) && (ids[j] in m ==> m[ids[j]] == sig(j))
  }

  lemma HoldsOne(ids: seq<Id>, sig: nat -> Sig, l: nat)
    requires NoDuplicates(ids) && l < |ids|
    ensures Holds(map[ids[l] := sig(l)], ids, sig, l, 0)
  {
    assert forall j :: 0 <= j < |ids| && j != l ==> ids[j] != ids[l];
  }

  lemma HoldsMore(m: map<Id, Sig>, ids: seq<Id>, sig: nat -> Sig, l: nat, k: nat)
    requires NoDuplicates(ids) && k < |ids| && k != l && Holds(m, ids, sig, l, k)
    ensures ids[k] !in m && Holds(m[ids[k] := sig(k)], ids, sig, l, k + 1)
  {
    assert forall j :: 0 <= j < |ids| && j != k ==> ids[j] != ids[k];
  }

  lemma {:induction false} BallotsMap(ids: seq<Id>, sig: nat -> Sig, l: nat, k: nat)
    requires NoDuplicates(ids) && l < |ids| && k <= |ids|
    ensures Holds(SigMap(Ballots(ids, sig, l, k)), ids, sig, l, k)
  {
    if k == 0 {
      SigMapAppend([], Ballot(ids, sig, l));
      assert [] + Ballots(ids, sig, l, 0) == Ballots(ids, sig, l, 0);
      HoldsOne(ids, sig, l);
    } else {
      BallotsMap(ids, sig, l, k - 1);
      if k - 1 != l {
        HoldsMore(SigMap(Ballots(ids, sig, l, k - 1)), ids, sig, l, k - 1);
        SigMapAppend(Ballots(ids, sig, l, k - 1), Ballot(ids, sig, k - 1));
      }
    }
  }

  /** How each validator signs the first candidate. */
  function SigOf(net: Net, x: Entry): nat -> Sig
    requires 0 < |net.validators|
  {
    var h := First(net, x).blockHash;
    (j: nat) => net.sign(j, h)
  }

  function Votes(net: Net, x: Entry, k: nat): seq<BlockSig>
    requires 0 < |net.validators| && k <= |net.validators|
  {
    Ballots(net.Ids(), SigOf(net, x), FirstLeader(net), k)
  }

  function VotedBus(net: Net, x: Entry, k: nat): Bus
    requires 0 < |net.validators| && k <= |net.validators|
  {
    Bus([x], map[0 := First(net, x)], map[], map[0 := Votes(net, x, k)], map[0 := Proofs(net, |net.validators|)])
  }

  function Leader(net: Net, x: Entry): Engine
    requires 0 < |net.validators|
  {
    NEW_ENGINE.(pending := [x], tree := First(net, x).stateRoot,
                phase := Prepared(Try(net, x).(own := Some(First(net, x)))))
  }

  function Follower(net: Net, x: Entry): Engine
    requires 0 < |net.validators|
  {
    NEW_ENGINE.(retained := [x], tree := First(net, x).stateRoot, phase := Prepared(Try(net, x)))
  }

  /** The engines once the leader and the first k have voted. */
  function Lineup(net: Net, x: Entry, k: nat): seq<Engine>
    requires 0 < |net.validators|
  {
    seq(|net.validators|, j requires 0 <= j =>
      if j == FirstLeader(net) then Leader(net, x) else if j < k then Follower(net, x) else Started(net, x, j))
  }

  lemma Builds(net: Net, x: Entry) returns (evs: seq<Event>)
    requires Plain(net) && |x.hash| == 32
    ensures var l, n := FirstLeader(net), |net.validators|;
      At(net, evs, Gathered(net, x, n)[l := Leader(net, x).(phase := Built(Try(net, x).(own := Some(First(net, x))),
                                                                           First(net, x)))], GatherBus(net, x, n))
  {
    var l, n := FirstLeader(net), |net.validators|;
    evs := Gathers(net, x, n);
    var gs, b := Gathered(net, x, n), GatherBus(net, x, n);
    assert gs[l] == Started(net, x, l);
    ElectsFirst(net, l, gs[l], b);
    FirstFacts(net, x);
    var g := Leader(net, x).(phase := Built(Try(net, x).(own := Some(First(net, x))), First(net, x)));
    Next(net, evs, gs, b, Build(l, 1), g, b);
    evs := evs + [Build(l, 1)];
  }

  lemma Announces(net: Net, x: Entry) returns (evs: seq<Event>)
    requires Plain(net) && |x.hash| == 32
    ensures var l, n, blk := FirstLeader(net), |net.validators|, First(net, x);
      At(net, evs, Gathered(net, x, n)[l := Leader(net, x).(phase := Announced(Try(net, x).(own := Some(blk)), blk))],
         GatherBus(net, x, n).(proposals := map[0 := blk]))
  {
    var l, n, blk := FirstLeader(net), |net.validators|, First(net, x);
    evs := Builds(net, x);
    var a, b := Try(net, x).(own := Some(blk)), GatherBus(net, x, n);
    var gs := Gathered(net, x, n)[l := Leader(net, x).(phase := Built(a, blk))];
    FirstProposed(net, x, b);
    Next(net, evs, gs, b, Propose(l), Leader(net, x).(phase := Announced(a, blk)), b.(proposals := map[0 := blk]));
    evs := evs + [Propose(l)];
  }

  lemma FirstProposed(net: Net, x: Entry, b: Bus)
    requires 0 < |net.validators| && b.proposals == map[]
    ensures Proposed(b, First(net, x)) == b.(proposals := map[0 := First(net, x)])
  {
    FirstFacts(net, x);
  }

  lemma Proposes(net: Net, x: Entry) returns (evs: seq<Event>)
    requires Plain(net) && |x.hash| == 32
    ensures At(net, evs, Lineup(net, x, 0), VotedBus(net, x, 0))
  {
    var l, n, blk := FirstLeader(net), |net.validators|, First(net, x);
    evs := Announces(net, x);
    var g, b := Leader(net, x).(phase := Announced(Try(net, x).(own := Some(blk)), blk)),
                GatherBus(net, x, n).(proposals := map[0 := blk]);
    FirstVote(net, x);
    Next(net, evs, Gathered(net, x, n)[l := g], b, Vote(l), Leader(net, x), VotedBus(net, x, 0));
    NewLineup(net, x, g);
    evs := evs + [Vote(l)];
  }

  lemma NewLineup(net: Net, x: Entry, g: Engine)
    requires 0 < |net.validators|
    ensures var l := FirstLeader(net);
      Gathered(net, x, |net.validators|)[l := g][l := Leader(net, x)] == Lineup(net, x, 0)
  {
  }

  lemma FirstVote(net: Net, x: Entry)
    requires 0 < |net.validators|
    ensures var l, b := FirstLeader(net), GatherBus(net, x, |net.validators|).(proposals := map[0 := First(net, x)]);
      SignedBy(net, l, b, 0, FirstSig(First(net, x))) == VotedBus(net, x, 0)
  {
    FirstFacts(net, x);
    assert [] + [Ballot(net.Ids(), SigOf(net, x), FirstLeader(net))] == Votes(net, x, 0);
    assert map[][0 := Votes(net, x, 0)] == map[0 := Votes(net, x, 0)];
  }

  lemma FollowStep(net: Net, x: Entry, b: Bus, e: nat)
    requires Plain(net) && e < |net.validators| && e != FirstLeader(net) && b.proposals == map[0 := First(net, x)]
    ensures OnFollow(net, e, Started(net, x, e), b, Try(net, x), FirstLeader(net), false) ==
            Follower(net, x).(phase := Voting(Try(net, x), First(net, x), FirstLeader(net)))
  {
    FirstFacts(net, x);
    GoodIff(net, e, 0, First(net, x).blockHash, FirstLeader(net), FirstLeader(net));
  }

  lemma NewVote(net: Net, x: Entry, e: nat)
    requires NoDuplicates(net.Ids()) && e < |net.validators| && e != FirstLeader(net)
    ensures SignedBy(net, e, VotedBus(net, x, e), 0, net.sign(e, First(net, x).blockHash)) == VotedBus(net, x, e + 1)
  {
    var b := VotedBus(net, x, e);
    assert SigsAt(b, 0) == Votes(net, x, e);
    BallotsBefore(net.Ids(), SigOf(net, x), FirstLeader(net), e, e);
    assert b.sigs[0 := Votes(net, x, e + 1)] == map[0 := Votes(net, x, e + 1)];
  }

  /** The leader and the first k have voted. */
  ghost predicate Voted(net: Net, x: Entry, k: nat, evs: seq<Event>)
    requires 0 < |net.validators|
  {
    k <= |net.validators| && At(net, evs, Lineup(net, x, k), VotedBus(net, x, k))
  }

  lemma LeaderKeepsPlace(net: Net, x: Entry, evs: seq<Event>)
    requires 0 < |net.validators| && Voted(net, x, FirstLeader(net), evs)
    ensures Voted(net, x, FirstLeader(net) + 1, evs)
  {
    SameLineup(net, x);
  }

  lemma SameLineup(net: Net, x: Entry)
    requires 0 < |net.validators|
    ensures var l := FirstLeader(net);
      Lineup(net, x, l + 1) == Lineup(net, x, l) && VotedBus(net, x, l + 1) == VotedBus(net, x, l)
  {
  }

  lemma OneVotes(net: Net, x: Entry, e: nat, evs: seq<Event>) returns (evs': seq<Event>)
    requires Plain(net) && e < |net.validators| && e != FirstLeader(net) && Voted(net, x, e, evs)
    ensures Voted(net, x, e + 1, evs')
  {
    var gs, b, l := Lineup(net, x, e), VotedBus(net, x, e), FirstLeader(net);
    assert gs[e] == Started(net, x, e);
    ElectsFirst(net, e, gs[e], b);
    FollowStep(net, x, b, e);
    var g := Follower(net, x).(phase := Voting(Try(net, x), First(net, x), FirstLeader(net)));
    Next(net, evs, gs, b, Follow(e, l), g, b);
    NewVote(net, x, e);
    Next(net, evs + [Follow(e, l)], gs[e := g], b, Vote(e), Follower(net, x), VotedBus(net, x, e + 1));
    assert gs[e := g][e := Follower(net, x)] == Lineup(net, x, e + 1);
    evs' := evs + [Follow(e, l)] + [Vote(e)];
  }

  lemma NextVotes(net: Net, x: Entry, e: nat, evs: seq<Event>) returns (evs': seq<Event>)
    requires Plain(net) && e < |net.validators| && Voted(net, x, e, evs)
    ensures Voted(net, x, e + 1, evs')
  {
    if e == FirstLeader(net) {
      LeaderKeepsPlace(net, x, evs);
      evs' := evs;
    } else {
      evs' := OneVotes(net, x, e, evs);
    }
  }

  /** One after the other, all the others follow the candidate and vote for it. */
  lemma {:induction false} AllVote(net: Net, x: Entry, k: nat) returns (evs: seq<Event>)
    requires Plain(net) && k <= |net.validators| && |x.hash| == 32
    ensures Voted(net, x, k, evs)
  {
    if k == 0 {
      evs := Proposes(net, x);
    } else {
      evs := AllVote(net, x, k - 1);
      evs := NextVotes(net, x, k - 1, evs);
    }
  }

  // ---- what an engine makes of the votes ---------------------------------------------------------

  /** The number of votes once the leader and the first k have voted. */
  function Voters(net: Net, k: nat): nat
    requires 0 < |net.validators|
  {
    if FirstLeader(net) < k then k else k + 1
  }

  predicate Voter(net: Net, k: nat, j: nat)
    requires 0 < |net.validators|
  {
    j < k || j == FirstLeader(net)
  }

  /** The signatures engine e counts, as leader or not. */
  ghost function Counted(net: Net, x: Entry, k: nat, e: nat): map<Id, Sig>
    requires e < |net.validators| && k <= |net.validators|
  {
    ValidSigs(net, e, 0, First(net, x), RawSigs(net, e, First(net, x), FirstLeader(net), Votes(net, x, k)))
  }

  lemma RawAt(net: Net, x: Entry, k: nat, e: nat, j: nat)
    requires NoDuplicates(net.Ids()) && e < |net.validators| && k <= |net.validators| && j < |net.validators|
    ensures var raw := RawSigs(net, e, First(net, x), FirstLeader(net), Votes(net, x, k));
      && (net.Ids()[j] in raw <==> Voter(net, k, j))
      && (Voter(net, k, j) ==> raw[net.Ids()[j]] == net.sign(j, First(net, x).blockHash))
  {
    FirstFacts(net, x);
    BallotsMap(net.Ids(), SigOf(net, x), FirstLeader(net), k);
    assert j != FirstLeader(net) ==> net.Ids()[j] != net.Ids()[FirstLeader(net)];
  }

  lemma CountedAt(net: Net, x: Entry, k: nat, e: nat, j: nat)
    requires Plain(net) && e < |net.validators| && k <= |net.validators| && j < |net.validators|
    ensures net.Ids()[j] in Counted(net, x, k, e) <==> Voter(net, k, j)
    ensures Voter(net, k, j) ==> Counted(net, x, k, e)[net.Ids()[j]] == net.sign(j, First(net, x).blockHash)
  {
    RawAt(net, x, k, e, j);
    IndexOfFirst(net.Ids(), j);
    GoodIff(net, e, 0, First(net, x).blockHash, j, j);
  }

  function VoterList(ids: seq<Id>, l: nat, k: nat): seq<Id>
    requires l < |ids| && k <= |ids|
  {
    if l < k then ids[..k] else ids[..k] + [ids[l]]
  }

  lemma VotersAre(ids: seq<Id>, l: nat, k: nat, keys: set<Id>)
    requires NoDuplicates(ids) && l < |ids| && k <= |ids| && forall id :: id in keys ==> id in ids
    requires forall j :: 0 <= j < |ids| ==> (ids[j] in keys <==> j < k || j == l)
    ensures |keys| == |VoterList(ids, l, k)|
  {
    var voters := VoterList(ids, l, k);
    assert NoDuplicates(voters);
    LC.SetOfSize(voters);
    forall id ensures id in keys <==> id in voters {
      if id in keys {
        var j :| 0 <= j < |ids| && ids[j] == id;
        assert if j < k then voters[j] == id else voters[k] == id;
      }
    }
    assert keys == LC.SetOf(voters);
  }

  lemma CountedSize(net: Net, x: Entry, k: nat, e: nat)
    requires Plain(net) && e < |net.validators| && k <= |net.validators|
    ensures |Counted(net, x, k, e)| == Voters(net, k)
  {
    var ids, keys := net.Ids(), Counted(net, x, k, e).Keys;
    forall j | 0 <= j < |ids| ensures ids[j] in keys <==> Voter(net, k, j) { CountedAt(net, x, k, e, j); }
    VotersAre(ids, FirstLeader(net), k, keys);
  }

  // ---- every set of signatures has a certificate -----------------------------------------------

  function BitsUpTo(f: nat -> bool, k: nat): bv8
    requires k <= 8
  {
    if k == 0 then 0 else if f(k - 1) then BitsUpTo(f, k - 1) | (1 << (k - 1)) else BitsUpTo(f, k - 1)
  }

  lemma {:induction false} BitsUpToAt(f: nat -> bool, k: nat, i: nat)
    requires k <= 8 && i < 8
    ensures BitAt(BitsUpTo(f, k), i) <==> i < k && f(i)
  {
    if k == 0 {
      NoBit(i);
    } else {
      BitsUpToAt(f, k - 1, i);
      SetBitLemma(BitsUpTo(f, k - 1), k - 1, i);
    }
  }

  lemma NoBit(i: nat)
    requires i < 8
    ensures !BitAt(0, i)
  {
  }

  function BitmapOf(ids: seq<Id>, valid: map<Id, Sig>): Bytes
  {
    seq((|ids| + 7) / 8, k requires 0 <= k => BitsUpTo((i: nat) => 8 * k + i < |ids| && ids[8 * k + i] in valid, 8))
  }

  lemma BitmapOfAt(ids: seq<Id>, valid: map<Id, Sig>, i: nat)
    ensures BitSet(BitmapOf(ids, valid), i) <==> i < |ids| && ids[i] in valid
  {
    if i / 8 < (|ids| + 7) / 8 {
      var k := i / 8;
      BitsUpToAt((j: nat) => 8 * k + j < |ids| && ids[8 * k + j] in valid, 8, i % 8);
      assert 8 * k + i % 8 == i;
    }
  }

  function PayloadUpTo(ids: seq<Id>, valid: map<Id, Sig>, n: nat): seq<Sig>
    requires n <= |ids|
  {
    if n == 0 then []
    else PayloadUpTo(ids, valid, n - 1) + if ids[n - 1] in valid then [valid[ids[n - 1]]] else []
  }

  lemma {:induction false} PayloadAt(ids: seq<Id>, valid: map<Id, Sig>, bitmap: Bytes, n: nat)
    requires n <= |ids| && forall i: nat :: BitSet(bitmap, i) <==> i < |ids| && ids[i] in valid
    ensures |PayloadUpTo(ids, valid, n)| == Rank(bitmap, n)
    ensures forall i :: 0 <= i < n && BitSet(bitmap, i) ==>
              Rank(bitmap, i) < Rank(bitmap, n) && PayloadUpTo(ids, valid, n)[Rank(bitmap, i)] == valid[ids[i]]
  {
    if n > 0 { PayloadAt(ids, valid, bitmap, n - 1); }
  }

  lemma SomeCertificate(ids: seq<Id>, valid: map<Id, Sig>) returns (bitmap: Bytes, sigs: seq<Sig>)
    ensures Encodes(bitmap, sigs, ids, valid)
  {
    bitmap, sigs := BitmapOf(ids, valid), PayloadUpTo(ids, valid, |ids|);
    forall i: nat ensures BitSet(bitmap, i) <==> i < |ids| && ids[i] in valid { BitmapOfAt(ids, valid, i); }
    PayloadAt(ids, valid, bitmap, |ids|);
  }

  // ---- committing --------------------------------------------------------------------------------

  /** A state in which the leader and k others have voted for the candidate of x and it can go on to commit. */
  ghost predicate Poised(net: Net, x: Entry, k: nat, g: Engine, b: Bus)
    requires 0 < |net.validators|
  {
    && k <= |net.validators|
    && g.phase.Prepared? && g.phase.a.snapshot == Zero && g.phase.a.required == QuorumRequired(|net.validators|)
    && g.blocks == [] && g.leaders == [] && g.anchored == map[] && g.mode == Mode(false, 0)
    && b.proposals == map[0 := First(net, x)] && SigsAt(b, 0) == Votes(net, x, k)
    && ProofsAt(b, 0) == Proofs(net, |net.validators|)
  }

  lemma LeaderPoised(net: Net, x: Entry, k: nat)
    requires 0 < |net.validators| && k <= |net.validators|
    ensures Lineup(net, x, k)[FirstLeader(net)] == Leader(net, x)
    ensures Poised(net, x, k, Lineup(net, x, k)[FirstLeader(net)], VotedBus(net, x, k))
  {
  }

  /** It takes up the stored candidate once more, */
  lemma Rechecks(net: Net, x: Entry, k: nat, evs: seq<Event>, gs: seq<Engine>, b: Bus)
    requires Plain(net) && At(net, evs, gs, b) && Poised(net, x, k, gs[FirstLeader(net)], b)
    ensures var l := FirstLeader(net);
      At(net, evs + [Recheck(l)], gs[l := gs[l].(phase := Collecting(gs[l].phase.a, First(net, x), l))], b)
  {
    var l := FirstLeader(net);
    ElectsFirst(net, l, gs[l], b);
    Next(net, evs, gs, b, Recheck(l), gs[l].(phase := Collecting(gs[l].phase.a, First(net, x), l)), b);
  }

  /** What an engine that collects the votes of the leader and k others goes on to. */
  ghost function AfterCount(net: Net, x: Entry, k: nat, e: nat, g: Engine, a: Attempt): Engine
    requires e < |net.validators| && k <= |net.validators|
  {
    var n := |net.validators|;
    if n - Voters(net, k) <= n / 3 then g.(phase := Checked(a, First(net, x), FirstLeader(net), Counted(net, x, k, e)))
    else Aborted(g, a)
  }

  lemma CollectStep(net: Net, x: Entry, k: nat, e: nat, g: Engine, b: Bus, a: Attempt)
    requires Plain(net) && e < |net.validators| && k <= |net.validators|
    requires g.blocks == [] && a.required == QuorumRequired(|net.validators|) && SigsAt(b, 0) == Votes(net, x, k)
    ensures OnCollect(net, e, g, b, a, First(net, x), FirstLeader(net)) == AfterCount(net, x, k, e, g, a)
  {
    CountedSize(net, x, k, e);
    QuorumLeast(|net.validators|, Voters(net, k));
  }

  /** and goes on exactly if no more than a third of the validators is silent: */
  lemma Collects(net: Net, x: Entry, k: nat, evs: seq<Event>, gs: seq<Engine>, b: Bus)
    requires Plain(net) && At(net, evs, gs, b) && Poised(net, x, k, gs[FirstLeader(net)], b)
    ensures var l := FirstLeader(net);
      At(net, evs + [Recheck(l)] + [Collect(l)],
         gs[l := AfterCount(net, x, k, l, gs[l], gs[l].phase.a)], b)
  {
    var l := FirstLeader(net);
    var a := gs[l].phase.a;
    Rechecks(net, x, k, evs, gs, b);
    var g1 := gs[l].(phase := Collecting(a, First(net, x), l));
    var g2 := AfterCount(net, x, k, l, g1, a);
    CollectStep(net, x, k, l, g1, b, a);
    Next(net, evs + [Recheck(l)], gs[l := g1], b, Collect(l), g2, b);
    assert gs[l := g1][l := g2] == gs[l := g2] && g2 == AfterCount(net, x, k, l, gs[l], a);
  }

  /** publishes B_final and commits. */
  lemma Seals(net: Net, x: Entry, evs: seq<Event>, gs: seq<Engine>, b: Bus, l: nat, valid: map<Id, Sig>, a: Attempt,
              bitmap: Bytes, sigs: seq<Sig>)
    requires Plain(net) && l < |gs| == |net.validators| && gs[l].blocks == [] && gs[l].mode == Mode(false, 0)
    requires At(net, evs, gs[l := gs[l].(phase := Checked(a, First(net, x), l, valid))], b)
    requires Encodes(bitmap, sigs, net.Ids(), valid)
    ensures var f := FinalBlock(net, l, First(net, x), bitmap, sigs);
      At(net, evs + [Finalise(l, bitmap, sigs)] + [Commit(l, Some(f), true)],
         gs[l := Appended(l, gs[l], a, First(net, x), l, f, Mode(false, 0))], Finalised(b, f))
  {
    var blk := First(net, x);
    var f := FinalBlock(net, l, blk, bitmap, sigs);
    var gs2 := gs[l := gs[l].(phase := Checked(a, blk, l, valid))];
    var g3 := gs[l].(phase := Ready(a, blk, l, f));
    Next(net, evs, gs2, b, Finalise(l, bitmap, sigs), g3, Finalised(b, f));
    var g4 := Appended(l, gs[l], a, blk, l, f, Mode(false, 0));
    assert gs2[l := g3][l] == g3 && NextMode(net, g3) == Mode(false, 0);
    Next(net, evs + [Finalise(l, bitmap, sigs)], gs2[l := g3], Finalised(b, f), Commit(l, Some(f), true), g4,
         Finalised(b, f));
    assert gs2[l := g3][l := g4] == gs[l := g4];
  }

  /** What an engine without blocks holds after committing the candidate of x as leader. */
  ghost predicate Committed(net: Net, x: Entry, l: nat, g: Engine, d: Engine)
    requires 0 < |net.validators| && g.phase.Prepared?
  {
    && |d.blocks| == 1 && d.leaders == [l] && d.tree == g.tree && d.phase == Cleanup(Hashes([x]))
    && d.blocks[0].anchored == [x] && d.blocks[0].stateRoot == InsertAll(Zero, [x])
    && d.blocks[0].proposer == net.validators[FirstLeader(net)].id
    && x.hash in d.anchored && d.anchored[x.hash].blockIndex == 0
    && d.owns == g.owns + [OwnRoot(g.phase.a, First(net, x))]
  }

  function OwnRoot(a: Attempt, blk: Block): Option<Digest>
  {
    if a.own.Some? && a.own.value != blk then Some(a.own.value.stateRoot) else None
  }

  lemma CommittedFacts(net: Net, x: Entry, l: nat, g: Engine, bitmap: Bytes, sigs: seq<Sig>)
    requires 0 < |net.validators| && g.phase.Prepared? && g.blocks == [] && g.leaders == [] && g.anchored == map[]
    ensures var f := FinalBlock(net, l, First(net, x), bitmap, sigs);
      Committed(net, x, l, g, Appended(l, g, g.phase.a, First(net, x), l, f, Mode(false, 0)))
  {
    FirstFacts(net, x);
    assert [x][..0] == [];
  }

  /** The leader's final, and its certificate. */
  ghost predicate FinalOf(net: Net, x: Entry, k: nat, f: Block)
    requires 0 < |net.validators| && k <= |net.validators|
  {
    && f.bitmap.Some? && f.prepareSigs.Some?
    && Encodes(f.bitmap.value, f.prepareSigs.value, net.Ids(), Counted(net, x, k, FirstLeader(net)))
    && f == FinalBlock(net, FirstLeader(net), First(net, x), f.bitmap.value, f.prepareSigs.value)
  }

  lemma Concludes(net: Net, x: Entry, k: nat, evs: seq<Event>, gs: seq<Engine>, b: Bus)
    returns (evs': seq<Event>, d: Engine, f: Block)
    requires Plain(net) && At(net, evs, gs, b) && Poised(net, x, k, gs[FirstLeader(net)], b)
    requires |net.validators| - Voters(net, k) <= |net.validators| / 3
    ensures var l := FirstLeader(net); At(net, evs', gs[l := d], Finalised(b, f)) && Committed(net, x, l, gs[l], d)
    ensures FinalOf(net, x, k, f) && d.blocks == [f]
  {
    var l := FirstLeader(net);
    var a, valid := gs[l].phase.a, Counted(net, x, k, l);
    Collects(net, x, k, evs, gs, b);
    var bitmap, sigs := SomeCertificate(net.Ids(), valid);
    evs' := evs + [Recheck(l)] + [Collect(l)];
    Seals(net, x, evs', gs, b, l, valid, a, bitmap, sigs);
    CommittedFacts(net, x, l, gs[l], bitmap, sigs);
    f := FinalBlock(net, l, First(net, x), bitmap, sigs);
    evs' := evs' + [Finalise(l, bitmap, sigs)] + [Commit(l, Some(f), true)];
    d := Appended(l, gs[l], a, First(net, x), l, f, Mode(false, 0));
  }

  // ---- a leader whose tree is not its block's ----------------------------------------------------

  lemma IngestTwo(x: Entry, y: Entry)
    ensures Ingested([x], [x, y], [x, y]) == [x] && [x] + [y] == [x, y]
  {
    assert [x][..0] == [] && [x, y][..1] == [x];
    assert x in [x, y] && x.hash in Hashes([x, y]) && y in [x, y] && y.hash in Hashes([x, y]);
    assert Ingested([x], [x, y], []) == [x];
    assert Ingested([x], [x, y], [x]) == [x];
  }

  /** After all have voted the leader's attempt fails, and y arrives. */
  lemma Fails(net: Net, x: Entry, y: Entry) returns (evs: seq<Event>, gs: seq<Engine>)
    requires Plain(net) && |x.hash| == 32 == |y.hash|
    ensures At(net, evs, gs, VotedBus(net, x, |net.validators|).(entries := [x, y]))
    ensures gs[FirstLeader(net)] == NEW_ENGINE.(pending := [x, y], retained := [x], cycle := 1)
  {
    var n, l := |net.validators|, FirstLeader(net);
    var b := VotedBus(net, x, n);
    evs := AllVote(net, x, n);
    gs := Lineup(net, x, n);
    assert gs[l] == Leader(net, x);
    var g1 := NEW_ENGINE.(pending := [x], retained := [x], cycle := 1);
    Next(net, evs, gs, b, Abort(l), g1, b);
    evs, gs := evs + [Abort(l)], gs[l := g1];
    IngestTwo(x, y);
    var g2 := g1.(pending := [x, y]);
    Next(net, evs, gs, b, Enqueue(l, y), g2, b.(entries := [x, y]));
    evs, gs := evs + [Enqueue(l, y)], gs[l := g2];
  }

  /** Its next attempt inserts both, */
  lemma Rebuilds(net: Net, x: Entry, y: Entry) returns (evs: seq<Event>, gs: seq<Engine>, own: Block, a: Attempt)
    requires Plain(net) && |x.hash| == 32 == |y.hash|
    ensures At(net, evs, gs, VotedBus(net, x, |net.validators|).(entries := [x, y]))
    ensures own.index == 0 && own.stateRoot == InsertAll(Zero, Dedup([x, y])) && own.anchored == Dedup([x, y])
    ensures a.required == QuorumRequired(|net.validators|) && a.own == Some(own) && a.snapshot == Zero
    ensures gs[FirstLeader(net)] == NEW_ENGINE.(pending := [x, y], retained := [x], cycle := 1, tree := own.stateRoot,
                                                phase := Built(a, own))
  {
    var l := FirstLeader(net);
    evs, gs := Fails(net, x, y);
    var b := VotedBus(net, x, |net.validators|).(entries := [x, y]);
    IngestTwo(x, y);
    var begun := Attempt(Zero, [x] + [x, y], QuorumRequired(|net.validators|), None);
    var g1 := gs[l].(phase := Begun(begun));
    Next(net, evs, gs, b, Begin(l), g1, b);
    evs := evs + [Begin(l)];
    own := Candidate(net, l, g1, begun, [x, y], 2);
    a := begun.(own := Some(own));
    var g2 := gs[l].(tree := own.stateRoot, phase := Built(a, own));
    ElectsFirst(net, l, g1, b);
    Next(net, evs, gs[l := g1], b, Build(l, 2), g2, b);
    evs, gs := evs + [Build(l, 2)], gs[l := g1][l := g2];
  }

  /** comes too late with its own candidate and its own vote, */
  lemma Retries(net: Net, x: Entry, y: Entry) returns (evs: seq<Event>, gs: seq<Engine>, own: Block)
    requires Plain(net) && |x.hash| == 32 == |y.hash|
    ensures var b := VotedBus(net, x, |net.validators|).(entries := [x, y]);
      At(net, evs, gs, b) && Poised(net, x, |net.validators|, gs[FirstLeader(net)], b)
    ensures own.stateRoot == InsertAll(Zero, Dedup([x, y])) && own.anchored == Dedup([x, y])
    ensures var g := gs[FirstLeader(net)]; g.tree == own.stateRoot && g.owns == [] && g.phase.a.own == Some(own)
  {
    var a, l := Try(net, x), FirstLeader(net);
    evs, gs, own, a := Rebuilds(net, x, y);
    var b := VotedBus(net, x, |net.validators|).(entries := [x, y]);
    var g1 := gs[l].(phase := Announced(a, own));
    Next(net, evs, gs, b, Propose(l), g1, b);
    evs := evs + [Propose(l)];
    VotedBefore(net, x, b, FirstSig(own));
    var g2 := gs[l].(phase := Prepared(a));
    Next(net, evs, gs[l := g1], b, Vote(l), g2, b);
    evs, gs := evs + [Vote(l)], gs[l := g1][l := g2];
  }

  lemma VotedBefore(net: Net, x: Entry, b: Bus, sig: Sig)
    requires 0 < |net.validators| && SigsAt(b, 0) == Votes(net, x, |net.validators|)
    ensures SignedBy(net, FirstLeader(net), b, 0, sig) == b
  {
    LeaderVoted(net.Ids(), SigOf(net, x), FirstLeader(net), |net.validators|);
    assert Ballot(net.Ids(), SigOf(net, x), FirstLeader(net)) in SigsAt(b, 0);
  }

  /** and commits the older stored one. */
  lemma StaleCommit(net: Net, x: Entry, y: Entry) returns (evs: seq<Event>, gs: seq<Engine>, b: Bus)
    requires Plain(net) && x.hash != y.hash && |x.hash| == 32 == |y.hash|
    ensures At(net, evs, gs, b)
    ensures var g, l := gs[FirstLeader(net)], FirstLeader(net);
      && |g.blocks| == 1 && g.leaders == [l] && g.phase == Cleanup(Hashes([x]))
      && g.owns == [Some(InsertAll(Zero, Dedup([x, y])))] && g.tree == InsertAll(Zero, Dedup([x, y]))
      && g.blocks[0].anchored == [x] && g.blocks[0].stateRoot == InsertAll(Zero, [x])
      && g.blocks[0].proposer == net.validators[l].id
      && x.hash in g.anchored && g.anchored[x.hash].blockIndex == 0
  {
    var own, d, f;
    evs, gs, own := Retries(net, x, y);
    OtherOwn(net, x, y, gs[FirstLeader(net)].phase.a, own);
    b := VotedBus(net, x, |net.validators|).(entries := [x, y]);
    evs, d, f := Concludes(net, x, |net.validators|, evs, gs, b);
    gs, b := gs[FirstLeader(net) := d], Finalised(b, f);
  }

  lemma OtherOwn(net: Net, x: Entry, y: Entry, a: Attempt, own: Block)
    requires 0 < |net.validators| && x.hash != y.hash && a.own == Some(own) && own.anchored == Dedup([x, y])
    ensures OwnRoot(a, First(net, x)) == Some(own.stateRoot)
  {
    TwoHashes(x, y);
    FirstFacts(net, x);
  }

  lemma TwoHashes(x: Entry, y: Entry)
    requires x.hash != y.hash
    ensures Dedup([x, y]) == [x, y] != [x]
  {
    assert [x, y][..1] == [x] && [x][..0] == [] && Dedup([]) == [] && [] + [x] == [x] && [x] + [y] == [x, y];
    assert x.hash in Hashes([x]) && y.hash !in Hashes([x]);
  }

  lemma RootsDiffer(x: Entry, y: Entry)
    requires x.hash != y.hash && |x.hash| == 32 == |y.hash|
    ensures InsertAll(Zero, Dedup([x, y])) != InsertAll(Zero, [x])
    ensures x.hash in Contents(InsertAll(Zero, Dedup([x, y])))
  {
    TwoHashes(x, y);
    assert [] + [x] == [x] && [x] + [y] == [x, y];
    HashesAppend([], x);
    HashesAppend([x], y);
    InsertAllContents(Zero, {}, [x]);
    InsertAllContents(Zero, {}, [x, y]);
    assert y.hash in Contents(InsertAll(Zero, [x, y])) && y.hash !in Contents(InsertAll(Zero, [x]));
  }

  /** The tree is not the block's, and the stored anchor proof does not verify against the block. */
  ghost predicate Stale(net: Net, l: nat, eng: Engine, x: Entry)
    requires l < |net.validators|
  {
    && eng.phase.Idle? && |eng.blocks| == 1 && eng.leaders == [l] && eng.blocks[0].proposer == net.validators[l].id
    && eng.blocks[0].anchored == [x] && eng.tree != eng.blocks[0].stateRoot && StaleAt(eng, 1)
    && x.hash in eng.anchored
    && !VerifyD(x.hash, x.hash, eng.blocks[0].stateRoot, eng.anchored[x.hash].proof, SMT_DEPTH)
  }

  /** For any two distinct hashes, in any network that is not below its minimum. */
  lemma StaleLeaderRun(net: Net, x: Entry, y: Entry) returns (evs: seq<Event>)
    requires Plain(net) && x.hash != y.hash && |x.hash| == 32 == |y.hash|
    ensures Elected(net, evs) && Stale(net, FirstLeader(net), Run(net, evs).engines[FirstLeader(net)], x)
  {
    var gs, b;
    evs, gs, b := StaleCommit(net, x, y);
    var l := FirstLeader(net);
    Next(net, evs, gs, b, Clean(l), gs[l].(phase := Idle), Removed(b, Hashes([x])));
    evs := evs + [Clean(l)];
    RootsDiffer(x, y);
    StaleProof(net, evs, l, x);
  }

  lemma StaleProof(net: Net, evs: seq<Event>, l: nat, x: Entry)
    requires NoDuplicates(net.Ids()) && l < |net.validators| && Sized(evs)
    requires var eng := Run(net, evs).engines[l];
      && |eng.blocks| == 1 && eng.blocks[0].anchored == [x] && x.hash in eng.anchored
      && |eng.owns| == 1 && eng.owns[0].Some? && eng.owns[0].value != eng.blocks[0].stateRoot
      && x.hash in Contents(eng.owns[0].value)
    ensures var eng := Run(net, evs).engines[l];
      !VerifyD(x.hash, x.hash, eng.blocks[0].stateRoot, eng.anchored[x.hash].proof, SMT_DEPTH)
  {
    var eng := Run(net, evs).engines[l];
    assert x in [x] && x.hash in Hashes([x]);
    AnchoredByAppend([], eng.blocks[0]);
    assert [] + [eng.blocks[0]] == eng.blocks;
    AnchorVerifiesIff(net, evs, l, x.hash);
  }

  /** With two or more validators that is the end of the chain: however the run goes on, nobody commits a second
      block. */
  lemma HaltedRun(net: Net, x: Entry, y: Entry) returns (evs: seq<Event>)
    requires Plain(net) && |net.validators| >= 2 && x.hash != y.hash && |x.hash| == 32 == |y.hash|
    ensures Elected(net, evs) && |Run(net, evs).engines[FirstLeader(net)].blocks| == 1
    ensures forall more, j {:trigger Run(net, evs + more).engines[j]} ::
              Elected(net, evs + more) && 0 <= j < |net.validators| ==> |Run(net, evs + more).engines[j].blocks| <= 1
  {
    evs := StaleLeaderRun(net, x, y);
    forall more, j | Elected(net, evs + more) && 0 <= j < |net.validators|
      ensures |Run(net, evs + more).engines[j].blocks| <= 1
    {
      StaleHalts(net, evs, more, FirstLeader(net), j);
    }
  }

  // ---- a chain clients follow, and one they refuse ---------------------------------------------------

  lemma PlainClient(net: Net, evs: seq<Event>, e: nat, cr: Crypto)
    requires Plain(net) && Elected(net, evs) && e < |net.validators|
    ensures var blocks := Run(net, evs).engines[e].blocks;
      LC.Walks(blocks, TrustIn(net, cr)) <==> blocks == [] || Compatible(net)
  {
    RegisteredResolves(net, e, cr);
    var eng := Run(net, evs).engines[e];
    forall i | 0 <= i < |eng.blocks| ensures NoForeignSignature(net, e, i, eng.blocks[i].blockHash) {
      PlainForeign(net, e, i, eng.blocks[i].blockHash);
    }
    LightClientFollowsElected(net, evs, e, TrustIn(net, cr));
    forall i | 0 <= i < |eng.blocks|
      ensures var h := eng.blocks[i].blockHash; net.Good(e, i, h)(e, net.sign(e, h))
    {
      GoodIff(net, e, i, eng.blocks[i].blockHash, e, e);
    }
  }

  /** A chain clients accept, its leader's tree notwithstanding. */
  lemma FollowedRun(net: Net, x: Entry, y: Entry, cr: Crypto) returns (evs: seq<Event>)
    requires Plain(net) && Compatible(net) && x.hash != y.hash && |x.hash| == 32 == |y.hash|
    ensures var eng := Run(net, evs).engines[FirstLeader(net)];
      Elected(net, evs) && Stale(net, FirstLeader(net), eng, x) && LC.Walks(eng.blocks, TrustIn(net, cr))
  {
    evs := StaleLeaderRun(net, x, y);
    PlainClient(net, evs, FirstLeader(net), cr);
  }

  lemma OneBlock(net: Net, x: Entry) returns (evs: seq<Event>)
    requires Plain(net) && |x.hash| == 32
    ensures Elected(net, evs) && |Run(net, evs).engines[FirstLeader(net)].blocks| == 1
  {
    var n := |net.validators|;
    var start := AllVote(net, x, n);
    LeaderPoised(net, x, n);
    var d, f;
    evs, d, f := Concludes(net, x, n, start, Lineup(net, x, n), VotedBus(net, x, n));
  }

  /** Two or three validators, not below their minimum: the block is not labelled, and clients refuse it. */
  lemma UnlabelledRun(net: Net, x: Entry, cr: Crypto) returns (evs: seq<Event>)
    requires Plain(net) && 2 <= |net.validators| <= 3 && |x.hash| == 32
    ensures var eng := Run(net, evs).engines[FirstLeader(net)];
      Elected(net, evs) && |eng.blocks| == 1 && !LC.Walks(eng.blocks, TrustIn(net, cr))
  {
    evs := OneBlock(net, x);
    PlainClient(net, evs, FirstLeader(net), cr);
  }

  // ---- such networks exist, with the shipped minimum -----------------------------------------------------

  /** Stands for validator j's identity, key and signatures. */
  function Mark(j: nat, length: nat): Bytes
  {
    seq(length, k => if k == j then 1 else 0)
  }

  function Sample(n: nat): Net
    requires n > 0
  {
    Net(seq(n, j requires 0 <= j => ValidatorInfo(Mark(j, 16), Mark(j, 16))), QuorumConfig(n, QuorumRequired(n)),
        DEFAULT_MIN_VALIDATORS, 0, true,
        (e: nat, h: BlockHash) => Mark(e, 16), (k: PublicKey, h: BlockHash, s: Sig) => k == s,
        (j: nat, c: nat, root: Digest) => (j + c) % n,
        (e: nat, j: nat, c: nat) => [Mark(j, 16)])
  }

  lemma MarksDiffer(i: nat, j: nat)
    requires i < 16 && j < 16
    ensures Mark(i, 16) == Mark(j, 16) <==> i == j
  {
    assert Mark(i, 16)[i] == 1;
    if i != j { assert Mark(j, 16)[i] == 0; }
  }

  lemma SamplePlain(n: nat)
    requires 4 <= n <= 16
    ensures Plain(Sample(n)) && Compatible(Sample(n)) && |Sample(n).validators| == n
  {
    var net := Sample(n);
    forall i, j | 0 <= i < j < |net.Ids()| ensures net.Ids()[i] != net.Ids()[j] { MarksDiffer(i, j); }
    forall p: nat, j: nat, h | p < n && j < n
      ensures net.ver(net.validators[j].pk, h, net.sign(p, h)) <==> p == j
    {
      MarksDiffer(j, p);
    }
  }
}
