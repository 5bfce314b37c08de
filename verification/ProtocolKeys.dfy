/**
 Rotations during a protocol run (pkg/consensus/engine.go, key_rotation.go).  Here each engine checks signatures with
 the key state it holds at that moment, and folds the rotations of its batch into it when an attempt begins.  With a
 lead time of at least one cycle that is a run of `Protocol` under one fixed table of keys, so everything proved of
 those runs holds of these.
*/
module ProtocolKeys {
  import opened Common
  import opened Smt
  import opened Chain
  import opened Codec
  import opened Degraded
  import opened GossipBus
  import opened KeyRotation
  import opened Protocol
  import opened ProtocolSafety
  import opened ProtocolClients
  import opened ProtocolElection
  import Epochs
  import LC = LightClient

  /** The keys engine e was built with; at event k, the set it would synchronise and the rotation bodies it knows. */
  datatype Rotating = Rotating(
    cfg: Config,
    cr: Crypto,
    registered: nat -> map<Id, PublicKey>,
    sets: (nat, nat) -> map<Id, PublicKey>,
    known: (nat, nat) -> map<Bytes, Rotation>)

  function Registered(w: Rotating, e: nat): KeyState
  {
    KeyState(w.registered(e), map[])
  }

  datatype Live = Live(s: State, ks: seq<KeyState>)

  /** Engine e's keys are those its key state gives. */
  function WithKeys(net: Net, ks: seq<KeyState>): Net
  {
    net.(keys := (e: nat, j: nat, c: nat) =>
      if e < |ks| && j < |net.validators| then KeysFor(ks[e], net.validators[j].id, c) else [])
  }

  /** An attempt that begins synchronises the validator set, and judges the rotations of its batch at the counter. */
  function Learnt(w: Rotating, e: nat, k: nat, ks: KeyState, eng: Engine, ev: Event, eng': Engine): KeyState
  {
    Epochs.FoldBatch(Synced(w, e, k, ks, eng, ev), w.cfg, w.cr, eng.cycle, Judged(w, e, k, eng, eng'))
  }

  function Synced(w: Rotating, e: nat, k: nat, ks: KeyState, eng: Engine, ev: Event): KeyState
  {
    if ev.Begin? && eng.phase.Idle? then ks.(validators := w.sets(e, k)) else ks
  }

  function Judged(w: Rotating, e: nat, k: nat, eng: Engine, eng': Engine): seq<Rotation>
  {
    if eng.phase.Idle? && eng'.phase.Begun? then Epochs.Bodies(eng'.phase.a.batch, w.known(e, k)) else []
  }

  ghost function LiveStep(net: Net, w: Rotating, k: nat, l: Live, ev: Event): (l': Live)
    requires |l.s.engines| == |l.ks| == |net.validators|
    ensures |l'.s.engines| == |l'.ks| == |net.validators|
  {
    var s' := Step(WithKeys(net, l.ks), l.s, ev);
    var e := ev.e;
    Live(s', if e >= |l.ks| then l.ks
             else l.ks[e := Learnt(w, e, k, l.ks[e], l.s.engines[e], ev, s'.engines[e])])
  }

  ghost function LiveRun(net: Net, w: Rotating, evs: seq<Event>): (l: Live)
    ensures |l.s.engines| == |l.ks| == |net.validators|
  {
    if evs == [] then Live(Run(net, []), seq(|net.validators|, (e: nat) => Registered(w, e)))
    else
      var k := |evs| - 1;
      LiveStep(net, w, k, LiveRun(net, w, evs[..k]), evs[k])
  }

  /** A synchronisation leaves the keys of every cycle up to the counter alone. */
  ghost predicate Harmless(ks: KeyState, set': map<Id, PublicKey>, c: nat)
  {
    forall id: Id, i: nat {:trigger Epochs.ResetInvisible(ks, set', id, i)} ::
      i <= c ==> Epochs.ResetInvisible(ks, set', id, i)
  }

  ghost predicate SyncedWell(w: Rotating, k: nat, l: Live, ev: Event)
    requires |l.s.engines| == |l.ks|
  {
    ev.Begin? && ev.e < |l.ks| && l.s.engines[ev.e].phase.Idle? ==>
      Harmless(l.ks[ev.e], w.sets(ev.e, k), l.s.engines[ev.e].cycle)
  }

  /** All of a run do. */
  ghost predicate Steady(net: Net, w: Rotating, evs: seq<Event>)
  {
    evs == [] ||
    (var k := |evs| - 1; Steady(net, w, evs[..k]) && SyncedWell(w, k, LiveRun(net, w, evs[..k]), evs[k]))
  }

  /** As when nothing ever changes the set, which nothing in the engine does. */
  ghost predicate FixedSets(w: Rotating)
  {
    forall e: nat, k: nat :: w.sets(e, k) == w.registered(e)
  }

  lemma {:induction false} FixedKept(net: Net, w: Rotating, evs: seq<Event>, e: nat)
    requires FixedSets(w) && e < |net.validators|
    ensures LiveRun(net, w, evs).ks[e].validators == w.registered(e)
  {
    if evs != [] {
      var k := |evs| - 1;
      FixedKept(net, w, evs[..k], e);
      LiveKeys(net, w, evs, e);
      var l, l' := LiveRun(net, w, evs[..k]), LiveRun(net, w, evs);
      Epochs.FoldKeepsSet(Synced(w, e, k, l.ks[e], l.s.engines[e], evs[k]), w.cfg, w.cr, l.s.engines[e].cycle,
                          Judged(w, e, k, l.s.engines[e], l'.s.engines[e]));
    }
  }

  lemma {:induction false} FixedSteady(net: Net, w: Rotating, evs: seq<Event>)
    requires FixedSets(w)
    ensures Steady(net, w, evs)
  {
    if evs != [] {
      var k := |evs| - 1;
      FixedSteady(net, w, evs[..k]);
      if evs[k].e < |net.validators| { FixedKept(net, w, evs[..k], evs[k].e); }
    }
  }

  // ---- the attempt counter runs ahead of the chain ------------------------------------------

  ghost predicate CounterAhead(eng: Engine, eng': Engine)
  {
    eng.cycle <= eng'.cycle && |eng.blocks| <= |eng'.blocks| <= |eng.blocks| + (eng'.cycle - eng.cycle)
  }

  lemma LocalCounts(net: Net, e: nat, eng: Engine, bus: Bus, ev: Event)
    requires e < |net.validators|
    ensures CounterAhead(eng, Local(net, e, eng, bus, ev).0)
  {
  }

  lemma {:induction false} LiveCounts(net: Net, w: Rotating, evs: seq<Event>, e: nat)
    requires e < |net.validators|
    ensures var eng := LiveRun(net, w, evs).s.engines[e]; |eng.blocks| <= eng.cycle
  {
    if evs != [] {
      var k := |evs| - 1;
      LiveCounts(net, w, evs[..k], e);
      LiveMoves(net, w, evs, e);
    }
  }

  lemma LiveMoves(net: Net, w: Rotating, evs: seq<Event>, e: nat)
    requires e < |net.validators| && evs != []
    ensures var k := |evs| - 1;
      CounterAhead(LiveRun(net, w, evs[..k]).s.engines[e], LiveRun(net, w, evs).s.engines[e])
  {
    var k := |evs| - 1;
    var l := LiveRun(net, w, evs[..k]);
    if evs[k].e == e { LocalCounts(WithKeys(net, l.ks), e, l.s.engines[e], l.s.bus, evs[k]); }
  }

  // ---- keys once consulted never change -------------------------------------------------------

  ghost predicate SameUpTo(ks: KeyState, ks': KeyState, c: nat)
  {
    forall id: Id, i: nat {:trigger Active(ks, id, i)} {:trigger Active(ks', id, i)} ::
      i <= c ==> Active(ks, id, i) == Active(ks', id, i)
  }

  lemma LearntSame(w: Rotating, e: nat, k: nat, ks: KeyState, eng: Engine, ev: Event, eng': Engine)
    requires w.cfg.leadTime >= 1 && (ev.Begin? && eng.phase.Idle? ==> Harmless(ks, w.sets(e, k), eng.cycle))
    ensures SameUpTo(ks, Learnt(w, e, k, ks, eng, ev, eng'), eng.cycle)
  {
    var batch, synced := Judged(w, e, k, eng, eng'), Synced(w, e, k, ks, eng, ev);
    forall id: Id, i: nat | i <= eng.cycle
      ensures Active(ks, id, i) == Active(Epochs.FoldBatch(synced, w.cfg, w.cr, eng.cycle, batch), id, i)
    {
      assert ev.Begin? && eng.phase.Idle? ==> Epochs.ResetInvisible(ks, w.sets(e, k), id, i);
      Epochs.CycleKeepsIff(Epochs.NodeChain(ks, eng.cycle, []), w.cfg, w.cr,
                           Epochs.Attempt(synced.validators, batch, None), id, i);
      assert ks.(validators := synced.validators) == synced;
    }
  }

  lemma SameUpToTrans(a: KeyState, b: KeyState, c: KeyState, m: nat, n: nat)
    requires SameUpTo(a, b, m) && SameUpTo(b, c, n) && m <= n
    ensures SameUpTo(a, c, m)
  {
    forall id: Id, i: nat | i <= m ensures Active(a, id, i) == Active(c, id, i) {
      assert Active(a, id, i) == Active(b, id, i);
    }
  }

  lemma LiveKeys(net: Net, w: Rotating, evs: seq<Event>, e: nat)
    requires e < |net.validators| && evs != []
    ensures var k := |evs| - 1;
      var l, l' := LiveRun(net, w, evs[..k]), LiveRun(net, w, evs);
      l'.ks[e] == if evs[k].e != e then l.ks[e] else Learnt(w, e, k, l.ks[e], l.s.engines[e], evs[k], l'.s.engines[e])
  {
  }

  /** The keys of every cycle up to the attempt counter are settled from then on. */
  lemma {:induction false} LiveSettled(net: Net, w: Rotating, evs: seq<Event>, m: nat, e: nat)
    requires w.cfg.leadTime >= 1 && Steady(net, w, evs) && e < |net.validators| && m <= |evs|
    ensures var before, after := LiveRun(net, w, evs[..m]), LiveRun(net, w, evs);
      && before.s.engines[e].cycle <= after.s.engines[e].cycle
      && SameUpTo(before.ks[e], after.ks[e], before.s.engines[e].cycle)
  {
    if m == |evs| {
      assert evs[..m] == evs;
    } else {
      var k := |evs| - 1;
      LiveSettled(net, w, evs[..k], m, e);
      assert evs[..k][..m] == evs[..m];
      LiveMoves(net, w, evs, e);
      LiveKeys(net, w, evs, e);
      var l, l', l'' := LiveRun(net, w, evs[..m]), LiveRun(net, w, evs[..k]), LiveRun(net, w, evs);
      if evs[k].e == e { LearntSame(w, e, k, l'.ks[e], l'.s.engines[e], evs[k], l''.s.engines[e]); }
      SameUpToTrans(l.ks[e], l'.ks[e], l''.ks[e], l.s.engines[e].cycle, l'.s.engines[e].cycle);
    }
  }

  // ---- a step looks at the keys of the cycle it works on only ------------------------------------

  /** Two networks that differ at most in the keys of other engines and other cycles. */
  ghost predicate Alike(net: Net, net': Net, e: nat, c: nat)
  {
    && net'.(keys := net.keys) == net
    && forall j: nat {:trigger net.keys(e, j, c)} :: j < |net.validators| ==> net.keys(e, j, c) == net'.keys(e, j, c)
  }

  lemma GoodAlike(net: Net, net': Net, e: nat, c: nat, h: BlockHash, j: nat, sig: Sig)
    requires Alike(net, net', e, c)
    ensures net.Good(e, c, h)(j, sig) <==> net'.Good(e, c, h)(j, sig)
  {
    if j < |net.validators| { assert net.keys(e, j, c) == net'.keys(e, j, c); }
  }

  lemma ValidAlike(net: Net, net': Net, e: nat, c: nat, blk: Block, raw: map<Id, Sig>)
    requires Alike(net, net', e, c)
    ensures ValidSigs(net, e, c, blk, raw) == ValidSigs(net', e, c, blk, raw)
  {
    forall id | id in raw
      ensures net.Good(e, c, blk.blockHash)(IndexOf(net.Ids(), id), raw[id]) <==>
              net'.Good(e, c, blk.blockHash)(IndexOf(net.Ids(), id), raw[id])
    {
      GoodAlike(net, net', e, c, blk.blockHash, IndexOf(net.Ids(), id), raw[id]);
    }
  }

  lemma FollowAlike(net: Net, net': Net, e: nat, eng: Engine, bus: Bus, a: Attempt, leader: nat, again: bool)
    requires Alike(net, net', e, |eng.blocks|)
    ensures OnFollow(net, e, eng, bus, a, leader, again) == OnFollow(net', e, eng, bus, a, leader, again)
  {
    var c := |eng.blocks|;
    if c in bus.proposals {
      var blk := bus.proposals[c];
      GoodAlike(net, net', e, c, blk.blockHash, leader, FirstSig(blk));
    }
  }

  lemma CertifiedAlike(net: Net, net': Net, e: nat, c: nat, b: Block)
    requires Alike(net, net', e, c)
    ensures CertifiedAt(net, e, c, b) <==> CertifiedAt(net', e, c, b)
  {
    forall j: nat, sig ensures net.Good(e, c, b.blockHash)(j, sig) <==> net'.Good(e, c, b.blockHash)(j, sig) {
      GoodAlike(net, net', e, c, b.blockHash, j, sig);
    }
  }

  lemma AdoptAlike(net: Net, net': Net, e: nat, eng: Engine, bus: Bus, a: Attempt, blk: Block, leader: nat)
    requires Alike(net, net', e, |eng.blocks|)
    ensures OnAdopt(net, e, eng, bus, a, blk, leader) == OnAdopt(net', e, eng, bus, a, blk, leader)
  {
    var c := |eng.blocks|;
    if c in bus.finals {
      var f := bus.finals[c];
      CertifiedAlike(net, net', e, c, f);
      GoodAlike(net, net', e, c, f.blockHash, leader, f.commitSig);
    }
  }

  lemma ResultAlike(net: Net, net': Net, mode: bool, f: Block, r: Option<Block>)
    requires net'.(keys := net.keys) == net
    ensures DegradedResult(mode, f, |net.validators|, net.Registered(f.blockHash), r) <==>
            DegradedResult(mode, f, |net.validators|, net'.Registered(f.blockHash), r)
  {
    var n, good, good' := |net.validators|, net.Registered(f.blockHash), net'.Registered(f.blockHash);
    assert forall j: nat, sig :: good(j, sig) <==> good'(j, sig);
    forall i: nat ensures Usable(f, i, good) <==> Usable(f, i, good') {}
    if mode && r.Some? {
      forall i: nat ensures KeepsOnly(f, n, good, i, r.value) <==> KeepsOnly(f, n, good', i, r.value) {}
    }
  }

  lemma LocalAlike(net: Net, net': Net, e: nat, eng: Engine, bus: Bus, ev: Event)
    requires e < |net.validators| && Alike(net, net', e, |eng.blocks|)
    ensures Local(net, e, eng, bus, ev) == Local(net', e, eng, bus, ev)
  {
    var p := eng.phase;
    if ev.Follow? && p.Begun? { FollowAlike(net, net', e, eng, bus, p.a, ev.leader, false); }
    if ev.Refollow? && p.Prepared? { FollowAlike(net, net', e, eng, bus, p.a, ev.leader, true); }
    if ev.Collect? && p.Collecting? {
      var c := |eng.blocks|;
      ValidAlike(net, net', e, c, p.blk, RawSigs(net, e, p.blk, p.leader, SigsAt(bus, c)));
    }
    if ev.Adopt? && p.Checked? { AdoptAlike(net, net', e, eng, bus, p.a, p.blk, p.leader); }
    if ev.Commit? && p.Ready? { ResultAlike(net, net', NextMode(net, eng).inDegraded, p.final, ev.applied); }
  }

  // ---- one table for the whole run ----------------------------------------------------------

  lemma TablesAlike(net: Net, ks: seq<KeyState>, ks': seq<KeyState>, e: nat, c: nat)
    requires e < |ks| == |ks'| && SameUpTo(ks[e], ks'[e], c)
    ensures Alike(WithKeys(net, ks), WithKeys(net, ks'), e, c)
  {
    var a, b := WithKeys(net, ks), WithKeys(net, ks');
    forall j: nat | j < |net.validators| ensures a.keys(e, j, c) == b.keys(e, j, c) {
      assert Active(ks[e], net.validators[j].id, c) == Active(ks'[e], net.validators[j].id, c);
    }
  }

  lemma {:induction false} PrefixIsRun(net: Net, w: Rotating, evs: seq<Event>, m: nat)
    requires w.cfg.leadTime >= 1 && Steady(net, w, evs) && m <= |evs|
    ensures LiveRun(net, w, evs[..m]).s == Run(WithKeys(net, LiveRun(net, w, evs).ks), evs[..m])
  {
    if m > 0 {
      PrefixIsRun(net, w, evs, m - 1);
      assert evs[..m][..m - 1] == evs[..m - 1];
      var l, last := LiveRun(net, w, evs[..m - 1]), LiveRun(net, w, evs).ks;
      var ev := evs[m - 1];
      if ev.e < |net.validators| {
        LiveSettled(net, w, evs, m - 1, ev.e);
        LiveCounts(net, w, evs[..m - 1], ev.e);
        TablesAlike(net, l.ks, last, ev.e, |l.s.engines[ev.e].blocks|);
        LocalAlike(WithKeys(net, l.ks), WithKeys(net, last), ev.e, l.s.engines[ev.e], l.s.bus, ev);
      }
    }
  }

  /** A run in which every engine learns rotations as it goes is a run under one table: the keys held at the end. */
  lemma LiveIsRun(net: Net, w: Rotating, evs: seq<Event>)
    requires w.cfg.leadTime >= 1 && Steady(net, w, evs)
    ensures LiveRun(net, w, evs).s == Run(WithKeys(net, LiveRun(net, w, evs).ks), evs)
  {
    PrefixIsRun(net, w, evs, |evs|);
    assert evs[..|evs|] == evs;
  }

  /** So rotations break neither agreement nor linkage, whatever each engine knows and records; */
  lemma LiveAgreement(net: Net, w: Rotating, evs: seq<Event>, e1: nat, e2: nat, i: nat)
    requires w.cfg.leadTime >= 1 && Steady(net, w, evs) && NoDuplicates(net.Ids())
    requires e1 < |net.validators| && e2 < |net.validators|
    requires var engs := LiveRun(net, w, evs).s.engines; i < |engs[e1].blocks| && i < |engs[e2].blocks|
    ensures var engs := LiveRun(net, w, evs).s.engines;
      engs[e1].blocks[i].blockHash == engs[e2].blocks[i].blockHash && LinkedAt(engs[e1].blocks, i)
  {
    LiveIsRun(net, w, evs);
    var one := WithKeys(net, LiveRun(net, w, evs).ks);
    Agreement(one, evs, e1, e2, i);
    Linkage(one, evs, e1, i);
  }

  /** and every block an engine holds still passes its quorum check by the keys the engine holds now. */
  lemma LiveCertified(net: Net, w: Rotating, evs: seq<Event>, e: nat, i: nat)
    requires w.cfg.leadTime >= 1 && Steady(net, w, evs) && NoDuplicates(net.Ids())
    requires e < |net.validators| && i < |LiveRun(net, w, evs).s.engines[e].blocks|
    ensures var l := LiveRun(net, w, evs);
      Epochs.QuorumAnswer(l.s.engines[e].blocks[i], net.Ids(), i, l.ks[e], net.ver)
  {
    LiveIsRun(net, w, evs);
    var l := LiveRun(net, w, evs);
    EveryBlockCertified(WithKeys(net, l.ks), evs, e, i);
    forall j: nat | j < |net.validators|
      ensures WithKeys(net, l.ks).keys(e, j, i) == KeysFor(l.ks[e], net.Ids()[j], i) {}
  }

  /** Whatever is rotated, by whom and in which interleaving, every engine's histories are chains of trust. */
  lemma LiveTrusted(net: Net, w: Rotating, evs: seq<Event>, e: nat)
    requires FixedSets(w) && e < |net.validators|
    ensures Trusted(LiveRun(net, w, evs).ks[e], w.cr, w.cfg.minOverlap)
  {
    LiveStateIsLog(net, w, evs, e);
    LC.NodeTrusted(Registered(w, e), w.cfg, w.cr, LogOf(net, w, evs, e));
  }

  /** The run ends with engine e beginning an attempt on this batch. */
  ghost predicate BeginsOn(net: Net, w: Rotating, evs: seq<Event>, e: nat, batch: seq<Entry>)
  {
    && e < |net.validators| && evs != [] && evs[|evs| - 1] == Begin(e)
    && LiveRun(net, w, evs[..|evs| - 1]).s.engines[e].phase.Idle?
    && var p := LiveRun(net, w, evs).s.engines[e].phase; p.Begun? && p.a.batch == batch
  }

  /** Its key state when it has synchronised the validator set and judged these entries. */
  ghost function AtTurn(net: Net, w: Rotating, evs: seq<Event>, e: nat, judged: seq<Entry>): KeyState
    requires evs != [] && e < |net.validators|
  {
    var k := |evs| - 1;
    var l := LiveRun(net, w, evs[..k]);
    Epochs.FoldBatch(l.ks[e].(validators := w.sets(e, k)), w.cfg, w.cr, l.s.engines[e].cycle,
                     Epochs.Bodies(judged, w.known(e, k)))
  }

  /** And it records what it should: a known rotation of the batch that is due when its turn comes. */
  lemma LiveRecords(net: Net, w: Rotating, evs: seq<Event>, e: nat, a: seq<Entry>, x: Entry, b: seq<Entry>, r: Rotation)
    requires BeginsOn(net, w, evs, e, a + [x] + b)
    requires var known := w.known(e, |evs| - 1);
      x.lbl == "3cp:key-rotation:v1" && x.hash in known && known[x.hash] == r
    requires Due(AtTurn(net, w, evs, e, a), w.cfg, w.cr, LiveRun(net, w, evs[..|evs| - 1]).s.engines[e].cycle, r)
    ensures var ks := LiveRun(net, w, evs).ks[e];
      r in HistoryOf(ks, r.submitter) && ks.validators == w.sets(e, |evs| - 1)
  {
    var k := |evs| - 1;
    var l, known := LiveRun(net, w, evs[..k]), w.known(e, k);
    var synced, cycle := l.ks[e].(validators := w.sets(e, k)), l.s.engines[e].cycle;
    LiveKeys(net, w, evs, e);
    Epochs.BodiesExact(a, x, b, known);
    Epochs.BatchRecords(synced, w.cfg, w.cr, cycle, Epochs.Bodies(a, known), r, Epochs.Bodies(b, known));
    Epochs.FoldKeepsSet(synced, w.cfg, w.cr, cycle, Epochs.Bodies(a + [x] + b, known));
  }

  // ---- a light client that replays what an engine recorded -------------------------------------

  function Submitted(cycle: nat, rs: seq<Rotation>): seq<LC.Submission>
  {
    if rs == [] then [] else Submitted(cycle, rs[..|rs| - 1]) + [LC.Submission(cycle, rs[|rs| - 1])]
  }

  /** All the rotations engine e judged in a run, each with the attempt counter it was judged at. */
  ghost function LogOf(net: Net, w: Rotating, evs: seq<Event>, e: nat): seq<LC.Submission>
    requires e < |net.validators|
  {
    if evs == [] then []
    else
      var k := |evs| - 1;
      var eng, eng' := LiveRun(net, w, evs[..k]).s.engines[e], LiveRun(net, w, evs).s.engines[e];
      LogOf(net, w, evs[..k], e) +
      (if evs[k].e == e then Submitted(eng.cycle, Judged(w, e, k, eng, eng')) else [])
  }

  lemma {:induction false} FoldExtendsLog(ks: KeyState, cfg: Config, cr: Crypto, log: seq<LC.Submission>, cycle: nat,
                                          rs: seq<Rotation>)
    ensures Epochs.FoldBatch(LC.NodeState(ks, cfg, cr, log), cfg, cr, cycle, rs) ==
            LC.NodeState(ks, cfg, cr, log + Submitted(cycle, rs))
  {
    if rs == [] {
      assert log + [] == log;
    } else {
      var rest, s := Submitted(cycle, rs[..|rs| - 1]), LC.Submission(cycle, rs[|rs| - 1]);
      FoldExtendsLog(ks, cfg, cr, log, cycle, rs[..|rs| - 1]);
      assert log + Submitted(cycle, rs) == log + rest + [s];
      assert (log + rest + [s])[..|log + rest|] == log + rest;
    }
  }

  lemma {:induction false} LiveStateIsLog(net: Net, w: Rotating, evs: seq<Event>, e: nat)
    requires FixedSets(w) && e < |net.validators|
    ensures LiveRun(net, w, evs).ks[e] == LC.NodeState(Registered(w, e), w.cfg, w.cr, LogOf(net, w, evs, e))
  {
    if evs != [] {
      var k := |evs| - 1;
      LiveStateIsLog(net, w, evs[..k], e);
      var log := LogOf(net, w, evs[..k], e);
      var l, l' := LiveRun(net, w, evs[..k]), LiveRun(net, w, evs);
      LiveKeys(net, w, evs, e);
      if evs[k].e == e {
        FixedKept(net, w, evs[..k], e);
        assert Synced(w, e, k, l.ks[e], l.s.engines[e], evs[k]) == l.ks[e];
        FoldExtendsLog(Registered(w, e), w.cfg, w.cr, log, l.s.engines[e].cycle,
                       Judged(w, e, k, l.s.engines[e], l'.s.engines[e]));
      } else {
        assert log + [] == log;
      }
    }
  }

  /** The client that trusts the network's validators and is given the rotations engine e accepted. */
  ghost function ClientOf(net: Net, w: Rotating, evs: seq<Event>, e: nat, minOverlap: nat): LC.Trust
    requires e < |net.validators|
  {
    var rs := LC.AcceptedBy(Registered(w, e), w.cfg, w.cr, LogOf(net, w, evs, e));
    LC.Trust(net.validators, (i: nat) => rs, minOverlap, w.cr, net.ver)
  }

  lemma ClientResolves(net: Net, w: Rotating, evs: seq<Event>, e: nat, minOverlap: nat)
    requires FixedSets(w) && e < |net.validators| && w.registered(e) == LC.ValidatorMap(net.validators)
    requires LC.AllWide(LC.AcceptedBy(Registered(w, e), w.cfg, w.cr, LogOf(net, w, evs, e)), minOverlap)
    ensures Resolves(WithKeys(net, LiveRun(net, w, evs).ks), e, ClientOf(net, w, evs, e, minOverlap))
  {
    LiveStateIsLog(net, w, evs, e);
    LC.ReplayAgrees(Registered(w, e), w.cfg, w.cr, LogOf(net, w, evs, e), minOverlap);
    var t, ks := ClientOf(net, w, evs, e, minOverlap), LiveRun(net, w, evs).ks;
    forall i: nat ensures t.KeysAt(i) == ks[e] {}
  }

  // ---- elections in such a run ---------------------------------------------------------------------

  ghost predicate LiveElected(net: Net, w: Rotating, evs: seq<Event>)
  {
    evs == [] ||
    (var k := |evs| - 1; LiveElected(net, w, evs[..k]) && RuleAt(net, LiveRun(net, w, evs[..k]).s, evs[k]))
  }

  lemma {:induction false} LowestAlike(net: Net, net': Net, c: nat, root: Digest, k: nat)
    requires 0 < k && net'.(keys := net.keys) == net
    ensures LowestUpTo(net, c, root, k) == LowestUpTo(net', c, root, k)
  {
    if k > 1 { LowestAlike(net, net', c, root, k - 1); }
  }

  lemma RuleAlike(net: Net, net': Net, s: State, ev: Event)
    requires |s.engines| == |net.validators| && net'.(keys := net.keys) == net && RuleAt(net, s, ev)
    ensures RuleAt(net', s, ev)
  {
    if ev.e < |s.engines| && InAttempt(s.engines[ev.e].phase) { ElectsAlike(net, net', ev.e, s.engines[ev.e], s.bus); }
  }

  lemma ElectsAlike(net: Net, net': Net, e: nat, eng: Engine, bus: Bus)
    requires e < |net.validators| && InAttempt(eng.phase) && net'.(keys := net.keys) == net
    ensures Elects(net, e, eng, bus) == Elects(net', e, eng, bus)
  {
    var c, root, id := |eng.blocks|, eng.phase.a.snapshot, net.validators[e].id;
    var proofs := Collected(VrfMsg(c, VrfProof(id, c, root), id), ProofsAt(bus, c));
    assert forall j :: 0 <= j < |net.validators| ==>
      (Proves(net, c, root, proofs, j) <==> Proves(net', c, root, proofs, j));
    LowestAlike(net, net', c, root, |net.validators|);
  }

  /** Elections do not look at signing keys. */
  lemma {:induction false} PrefixElected(net: Net, w: Rotating, evs: seq<Event>, m: nat)
    requires w.cfg.leadTime >= 1 && Steady(net, w, evs) && m <= |evs| && LiveElected(net, w, evs[..m])
    ensures Elected(WithKeys(net, LiveRun(net, w, evs).ks), evs[..m])
  {
    if m > 0 {
      assert evs[..m][..m - 1] == evs[..m - 1];
      PrefixElected(net, w, evs, m - 1);
      PrefixIsRun(net, w, evs, m - 1);
      RuleAlike(net, WithKeys(net, LiveRun(net, w, evs).ks), LiveRun(net, w, evs[..m - 1]).s, evs[m - 1]);
    }
  }

  /** From an engine's submissions to a client's verdict: a client that replays the rotations an engine accepted, all
      as wide as its own overlap, walks the engine's chain iff the network is compatible and the engine led no block
      with a key that was no longer active. */
  lemma LiveFollows(net: Net, w: Rotating, evs: seq<Event>, e: nat, minOverlap: nat)
    requires w.cfg.leadTime >= 1 && FixedSets(w) && LiveElected(net, w, evs) && NoDuplicates(net.Ids())
    requires e < |net.validators| && w.registered(e) == LC.ValidatorMap(net.validators)
    requires LC.AllWide(LC.AcceptedBy(Registered(w, e), w.cfg, w.cr, LogOf(net, w, evs, e)), minOverlap)
    requires var l := LiveRun(net, w, evs);
      forall i :: 0 <= i < |l.s.engines[e].blocks| ==>
        NoForeignSignature(WithKeys(net, l.ks), e, i, l.s.engines[e].blocks[i].blockHash)
    ensures var l := LiveRun(net, w, evs);
      var eng := l.s.engines[e];
      && |eng.leaders| == |eng.blocks|
      && (LC.Walks(eng.blocks, ClientOf(net, w, evs, e, minOverlap)) <==>
          eng.blocks == [] || (Compatible(net) && OwnSignaturesPass(WithKeys(net, l.ks), e, eng)))
  {
    FixedSteady(net, w, evs);
    LiveIsRun(net, w, evs);
    ClientResolves(net, w, evs, e, minOverlap);
    assert evs[..|evs|] == evs;
    PrefixElected(net, w, evs, |evs|);
    LightClientFollowsElected(WithKeys(net, LiveRun(net, w, evs).ks), evs, e, ClientOf(net, w, evs, e, minOverlap));
  }
}
