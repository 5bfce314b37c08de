/**
 Finality in the protocol (pkg/consensus/prepare.go, commit.go): the votes of all but a third of the validators, rounded
 down, commit a block on every engine that voted; with one fewer the leader gives up.
*/
module ProtocolFinality {
  import opened Common
  import opened Smt
  import opened Chain
  import opened Codec
  import opened Degraded
  import opened Batch
  import opened GossipBus
  import opened KeyRotation
  import opened Protocol
  import opened ProtocolSafety
  import opened ProtocolAnchors
  import opened ProtocolElection
  import opened ProtocolRuns

  /** What the followers find on the bus. */
  ghost predicate Finished(net: Net, x: Entry, k: nat, b: Bus, f: Block)
    requires 0 < |net.validators|
  {
    && k <= |net.validators| && |net.validators| - Voters(net, k) <= |net.validators| / 3
    && b.proposals == map[0 := First(net, x)] && SigsAt(b, 0) == Votes(net, x, k)
    && ProofsAt(b, 0) == Proofs(net, |net.validators|) && 0 in b.finals && b.finals[0] == f && FinalOf(net, x, k, f)
  }

  lemma RefollowStep(net: Net, x: Entry, b: Bus, e: nat)
    requires Plain(net) && e < |net.validators| && e != FirstLeader(net) && b.proposals == map[0 := First(net, x)]
    requires |x.hash| == 32
    ensures OnFollow(net, e, Follower(net, x), b, Try(net, x), FirstLeader(net), true) ==
            Follower(net, x).(phase := Revoting(Try(net, x), First(net, x), FirstLeader(net)))
  {
    FirstFacts(net, x);
    InsertAllTwice(Zero, {}, [x]);
    GoodIff(net, e, 0, First(net, x).blockHash, FirstLeader(net), FirstLeader(net));
  }

  lemma {:induction false} BallotCast(ids: seq<Id>, sig: nat -> Sig, l: nat, k: nat, e: nat)
    requires l < |ids| && e < k <= |ids| && e != l
    ensures Ballot(ids, sig, e) in Ballots(ids, sig, l, k)
  {
    if e < k - 1 { BallotCast(ids, sig, l, k - 1, e); }
  }

  lemma VotesOnce(net: Net, x: Entry, k: nat, b: Bus, e: nat, sig: Sig)
    requires e < k <= |net.validators| && e != FirstLeader(net) && SigsAt(b, 0) == Votes(net, x, k)
    ensures SignedBy(net, e, b, 0, sig) == b
  {
    BallotCast(net.Ids(), SigOf(net, x), FirstLeader(net), k, e);
    assert Ballot(net.Ids(), SigOf(net, x), e) in SigsAt(b, 0);
  }

  /** The run so far, but for the phase of engine e, a follower. */
  ghost predicate Stage(net: Net, x: Entry, evs: seq<Event>, gs: seq<Engine>, b: Bus, e: nat, p: Phase)
    requires 0 < |net.validators|
  {
    e < |gs| && At(net, evs, gs[e := Follower(net, x).(phase := p)], b)
  }

  lemma NextStage(net: Net, x: Entry, evs: seq<Event>, gs: seq<Engine>, b: Bus, ev: Event, p: Phase, p': Phase)
    requires 0 < |net.validators| && Stage(net, x, evs, gs, b, ev.e, p)
    requires Local(net, ev.e, Follower(net, x).(phase := p), b, ev) == (Follower(net, x).(phase := p'), b)
    requires SizedEvent(ev)
    requires Choice(ev).Some? ==>
               InAttempt(p) && Elects(net, ev.e, Follower(net, x).(phase := p), b) == Choice(ev)
    ensures Stage(net, x, evs + [ev], gs, b, ev.e, p')
  {
    var e := ev.e;
    var g, g' := Follower(net, x).(phase := p), Follower(net, x).(phase := p');
    Next(net, evs, gs[e := g], b, ev, g', b);
    assert gs[e := g][e := g'] == gs[e := g'];
  }

  /** A follower checks the candidate again, */
  lemma Refollows(net: Net, x: Entry, k: nat, evs: seq<Event>, gs: seq<Engine>, b: Bus, f: Block, e: nat)
    requires Plain(net) && Finished(net, x, k, b, f) && |x.hash| == 32 && e < k && e != FirstLeader(net)
    requires Stage(net, x, evs, gs, b, e, Prepared(Try(net, x)))
    ensures Stage(net, x, evs + [Refollow(e, FirstLeader(net))], gs, b, e,
                  Revoting(Try(net, x), First(net, x), FirstLeader(net)))
  {
    var g := Follower(net, x);
    ElectsFirst(net, e, g, b);
    RefollowStep(net, x, b, e);
    NextStage(net, x, evs, gs, b, Refollow(e, FirstLeader(net)), g.phase,
              Revoting(Try(net, x), First(net, x), FirstLeader(net)));
  }

  /** has voted already, */
  lemma Revotes(net: Net, x: Entry, k: nat, evs: seq<Event>, gs: seq<Engine>, b: Bus, f: Block, e: nat)
    requires Plain(net) && Finished(net, x, k, b, f) && e < k && e != FirstLeader(net)
    requires Stage(net, x, evs, gs, b, e, Revoting(Try(net, x), First(net, x), FirstLeader(net)))
    ensures Stage(net, x, evs + [Vote(e)], gs, b, e, Collecting(Try(net, x), First(net, x), FirstLeader(net)))
  {
    VotesOnce(net, x, k, b, e, net.sign(e, First(net, x).blockHash));
    NextStage(net, x, evs, gs, b, Vote(e), Revoting(Try(net, x), First(net, x), FirstLeader(net)),
              Collecting(Try(net, x), First(net, x), FirstLeader(net)));
  }

  /** finds the quorum, */
  lemma Recounts(net: Net, x: Entry, k: nat, evs: seq<Event>, gs: seq<Engine>, b: Bus, f: Block, e: nat)
    requires Plain(net) && Finished(net, x, k, b, f) && e < k && e != FirstLeader(net)
    requires Stage(net, x, evs, gs, b, e, Collecting(Try(net, x), First(net, x), FirstLeader(net)))
    ensures Stage(net, x, evs + [Collect(e)], gs, b, e,
                  Checked(Try(net, x), First(net, x), FirstLeader(net), Counted(net, x, k, e)))
  {
    var p := Collecting(Try(net, x), First(net, x), FirstLeader(net));
    CollectStep(net, x, k, e, Follower(net, x).(phase := p), b, Try(net, x));
    NextStage(net, x, evs, gs, b, Collect(e), p,
              Checked(Try(net, x), First(net, x), FirstLeader(net), Counted(net, x, k, e)));
  }

  lemma FinalAdoptable(net: Net, x: Entry, k: nat, f: Block, e: nat)
    requires Plain(net) && e < |net.validators| && k <= |net.validators| && FinalOf(net, x, k, f)
    requires |net.validators| - Voters(net, k) <= |net.validators| / 3
    ensures AdoptAccepts(net, e, 0, f, FirstLeader(net))
  {
    var l, n, ids, h := FirstLeader(net), |net.validators|, net.Ids(), f.blockHash;
    var valid := Counted(net, x, k, l);
    FirstFacts(net, x);
    forall i | 0 <= i < n && ids[i] in valid ensures net.Good(e, 0, h)(i, valid[ids[i]]) {
      CountedAt(net, x, k, l, i);
      GoodIff(net, e, 0, h, i, i);
    }
    CountedSize(net, x, k, l);
    QuorumLeast(n, Voters(net, k));
    EncodedIsCertified(f.bitmap.value, f.prepareSigs.value, ids, valid, RequiredFor(IsDegradedBlock(f), n),
                       net.Good(e, 0, h));
    GoodIff(net, e, 0, h, l, l);
  }

  /** takes up the leader's final, */
  lemma Adopts(net: Net, x: Entry, k: nat, evs: seq<Event>, gs: seq<Engine>, b: Bus, f: Block, e: nat)
    requires Plain(net) && Finished(net, x, k, b, f) && e < k && e != FirstLeader(net)
    requires Stage(net, x, evs, gs, b, e,
                   Checked(Try(net, x), First(net, x), FirstLeader(net), Counted(net, x, k, e)))
    ensures Stage(net, x, evs + [Adopt(e)], gs, b, e, Ready(Try(net, x), First(net, x), FirstLeader(net), f))
  {
    FinalAdoptable(net, x, k, f, e);
    NextStage(net, x, evs, gs, b, Adopt(e),
              Checked(Try(net, x), First(net, x), FirstLeader(net), Counted(net, x, k, e)),
              Ready(Try(net, x), First(net, x), FirstLeader(net), f));
  }

  /** and commits it. */
  lemma FollowerCommits(net: Net, x: Entry, k: nat, evs: seq<Event>, gs: seq<Engine>, b: Bus, f: Block, e: nat)
    returns (evs': seq<Event>, d: Engine)
    requires Plain(net) && At(net, evs, gs, b) && Finished(net, x, k, b, f) && |x.hash| == 32
    requires e < k && e != FirstLeader(net) && gs[e] == Follower(net, x)
    ensures At(net, evs', gs[e := d], b) && d.blocks == [f]
  {
    var l, a, blk := FirstLeader(net), Try(net, x), First(net, x);
    assert gs[e := Follower(net, x)] == gs;
    Refollows(net, x, k, evs, gs, b, f, e);
    Revotes(net, x, k, evs + [Refollow(e, l)], gs, b, f, e);
    Recounts(net, x, k, evs + [Refollow(e, l)] + [Vote(e)], gs, b, f, e);
    evs' := evs + [Refollow(e, l)] + [Vote(e)] + [Collect(e)];
    Adopts(net, x, k, evs', gs, b, f, e);
    evs', d := EndsStage(net, x, evs' + [Adopt(e)], gs, b, f, e);
  }

  lemma EndsStage(net: Net, x: Entry, evs: seq<Event>, gs: seq<Engine>, b: Bus, f: Block, e: nat)
    returns (evs': seq<Event>, d: Engine)
    requires Plain(net) && e < |net.validators| && e != FirstLeader(net)
    requires Stage(net, x, evs, gs, b, e, Ready(Try(net, x), First(net, x), FirstLeader(net), f))
    ensures At(net, evs', gs[e := d], b) && d.blocks == [f]
  {
    var l, a, blk := FirstLeader(net), Try(net, x), First(net, x);
    var g := Follower(net, x).(phase := Ready(a, blk, l, f));
    d := Appended(e, g, a, blk, l, f, Mode(false, 0));
    assert NextMode(net, g) == Mode(false, 0);
    Next(net, evs, gs[e := g], b, Commit(e, Some(f), true), d, b);
    evs' := evs + [Commit(e, Some(f), true)];
    assert gs[e := g][e := d] == gs[e := d];
  }

  /** Among the leader and the first j of the k voters: holds the block.  Otherwise: where the vote left it. */
  ghost predicate HoldsAt(net: Net, x: Entry, k: nat, j: nat, g: Engine, f: Block, i: nat)
    requires 0 < |net.validators|
  {
    if i == FirstLeader(net) || (i < j && i < k) then g.blocks == [f]
    else g == if i < k then Follower(net, x) else Started(net, x, i)
  }

  ghost predicate Holding(net: Net, x: Entry, k: nat, j: nat, gs: seq<Engine>, f: Block)
    requires 0 < |net.validators|
  {
    |gs| == |net.validators| &&
    forall i {:trigger HoldsAt(net, x, k, j, gs[i], f, i)} :: 0 <= i < |gs| ==> HoldsAt(net, x, k, j, gs[i], f, i)
  }

  lemma HoldingMore(net: Net, x: Entry, k: nat, j: nat, gs: seq<Engine>, f: Block, d: Engine)
    requires 0 < |net.validators| && j < k <= |net.validators| && Holding(net, x, k, j, gs, f) && d.blocks == [f]
    ensures Holding(net, x, k, j + 1, gs[j := d], f)
    ensures j == FirstLeader(net) ==> Holding(net, x, k, j + 1, gs, f)
  {
    var gs' := gs[j := d];
    forall i | 0 <= i < |gs'| ensures HoldsAt(net, x, k, j + 1, gs'[i], f, i) {
      assert HoldsAt(net, x, k, j, gs[i], f, i);
    }
    if j == FirstLeader(net) {
      forall i | 0 <= i < |gs| ensures HoldsAt(net, x, k, j + 1, gs[i], f, i) {
        assert HoldsAt(net, x, k, j, gs[i], f, i);
      }
    }
  }

  lemma LeaderCommits(net: Net, x: Entry, k: nat)
    returns (evs: seq<Event>, gs: seq<Engine>, b: Bus, f: Block)
    requires Plain(net) && k <= |net.validators| && |x.hash| == 32
    requires |net.validators| - Voters(net, k) <= |net.validators| / 3
    ensures At(net, evs, gs, b) && Finished(net, x, k, b, f) && Holding(net, x, k, 0, gs, f)
  {
    var d;
    evs := AllVote(net, x, k);
    LeaderPoised(net, x, k);
    evs, d, f := Concludes(net, x, k, evs, Lineup(net, x, k), VotedBus(net, x, k));
    LeaderHolds(net, x, k, d, f);
    gs, b := Lineup(net, x, k)[FirstLeader(net) := d], Finalised(VotedBus(net, x, k), f);
  }

  lemma LeaderHolds(net: Net, x: Entry, k: nat, d: Engine, f: Block)
    requires Plain(net) && k <= |net.validators| && FinalOf(net, x, k, f) && d.blocks == [f]
    requires |net.validators| - Voters(net, k) <= |net.validators| / 3
    ensures Finished(net, x, k, Finalised(VotedBus(net, x, k), f), f)
    ensures Holding(net, x, k, 0, Lineup(net, x, k)[FirstLeader(net) := d], f)
  {
    FirstFacts(net, x);
    var gs := Lineup(net, x, k)[FirstLeader(net) := d];
    forall i | 0 <= i < |gs| ensures HoldsAt(net, x, k, 0, gs[i], f, i) {}
  }

  lemma LineupEmpty(net: Net, x: Entry, k: nat, j: nat)
    requires j < |net.validators|
    ensures Lineup(net, x, k)[j].blocks == []
  {
    assert NEW_ENGINE.blocks == [] && Leader(net, x).blocks == [] && Follower(net, x).blocks == [];
    assert Started(net, x, j).blocks == [];
  }

  /** One after the other, the voters commit the leader's block. */
  lemma {:induction false} AllCommit(net: Net, x: Entry, k: nat, j: nat)
    returns (evs: seq<Event>, gs: seq<Engine>, b: Bus, f: Block)
    requires Plain(net) && j <= k <= |net.validators| && |x.hash| == 32
    requires |net.validators| - Voters(net, k) <= |net.validators| / 3
    ensures At(net, evs, gs, b) && Finished(net, x, k, b, f) && Holding(net, x, k, j, gs, f)
  {
    if j == 0 {
      evs, gs, b, f := LeaderCommits(net, x, k);
    } else {
      evs, gs, b, f := AllCommit(net, x, k, j - 1);
      evs, gs := NextCommits(net, x, k, j - 1, evs, gs, b, f);
    }
  }

  lemma NextCommits(net: Net, x: Entry, k: nat, j: nat, evs: seq<Event>, gs: seq<Engine>, b: Bus, f: Block)
    returns (evs': seq<Event>, gs': seq<Engine>)
    requires Plain(net) && j < k <= |net.validators| && |x.hash| == 32
    requires At(net, evs, gs, b) && Finished(net, x, k, b, f) && Holding(net, x, k, j, gs, f)
    ensures At(net, evs', gs', b) && Holding(net, x, k, j + 1, gs', f)
  {
    assert HoldsAt(net, x, k, j, gs[j], f, j);
    if j == FirstLeader(net) {
      HoldingMore(net, x, k, j, gs, f, gs[j]);
      evs', gs' := evs, gs;
    } else {
      var d;
      evs', d := FollowerCommits(net, x, k, evs, gs, b, f, j);
      HoldingMore(net, x, k, j, gs, f, d);
      gs' := gs[j := d];
    }
  }

  lemma {:induction false} BallotsLength(ids: seq<Id>, sig: nat -> Sig, l: nat, k: nat)
    requires l < |ids| && k <= |ids|
    ensures |Ballots(ids, sig, l, k)| == if l < k then k else k + 1
  {
    if k > 0 { BallotsLength(ids, sig, l, k - 1); }
  }

  /** A third of the validators, rounded down, may be silent: in any network not below its minimum, and for any number
      m up to that, exactly n - m validators sign, and all of these, and no other, commit one block. */
  lemma SilentThirdRun(net: Net, x: Entry, m: nat) returns (evs: seq<Event>, k: nat)
    requires Plain(net) && |x.hash| == 32 && m <= |net.validators| / 3
    ensures Elected(net, evs) && |SigsAt(Run(net, evs).bus, 0)| == |net.validators| - m
    ensures var engs := Run(net, evs).engines;
      forall j :: 0 <= j < |engs| ==>
        engs[j].blocks == if Voter(net, k, j) then engs[FirstLeader(net)].blocks else []
    ensures |Run(net, evs).engines[FirstLeader(net)].blocks| == 1
  {
    var n := |net.validators|;
    k := if FirstLeader(net) < n - m then n - m else n - m - 1;
    var gs, b, f;
    evs, gs, b, f := AllCommit(net, x, k, k);
    BallotsLength(net.Ids(), SigOf(net, x), FirstLeader(net), k);
    forall j | 0 <= j < n ensures gs[j].blocks == if Voter(net, k, j) then [f] else [] {
      assert HoldsAt(net, x, k, k, gs[j], f, j);
    }
  }

  /** One more silent validator, and the leader gives up: nobody has a block, and the leader's entries are retained. */
  lemma SilentMoreRun(net: Net, x: Entry, k: nat) returns (evs: seq<Event>)
    requires Plain(net) && |x.hash| == 32 && k <= |net.validators|
    requires |net.validators| - Voters(net, k) > |net.validators| / 3
    ensures Elected(net, evs) && |SigsAt(Run(net, evs).bus, 0)| == Voters(net, k)
    ensures forall j :: 0 <= j < |net.validators| ==> Run(net, evs).engines[j].blocks == []
    ensures var g := Run(net, evs).engines[FirstLeader(net)]; g.phase.Idle? && g.retained == [x] && g.tree == Zero
  {
    var l := FirstLeader(net);
    var start := AllVote(net, x, k);
    LeaderPoised(net, x, k);
    Collects(net, x, k, start, Lineup(net, x, k), VotedBus(net, x, k));
    evs := start + [Recheck(l)] + [Collect(l)];
    BallotsLength(net.Ids(), SigOf(net, x), l, k);
    forall j | 0 <= j < |net.validators| ensures Run(net, evs).engines[j].blocks == [] { LineupEmpty(net, x, k, j); }
  }
}
