/**
 Rotations folded into a running node (pkg/consensus/key_rotation.go, engine.go): the attempt
 counter runs ahead of the chain, so a rotation never reaches back to a committed or in-flight index.
*/
module Epochs {
  import opened Common
  import opened Chain
  import opened Codec
  import opened KeyRotation

  /** The rotations among a batch of pending entries whose bodies the node knows. */
  function Bodies(entries: seq<Entry>, known: map<Bytes, Rotation>): seq<Rotation>
  {
    if entries == [] then []
    else
      var e := entries[|entries| - 1];
      Bodies(entries[..|entries| - 1], known) +
      (if e.lbl == KEY_ROTATION_LABEL && e.hash in known then [known[e.hash]] else [])
  }

  lemma {:induction false} BodiesConcat(a: seq<Entry>, b: seq<Entry>, known: map<Bytes, Rotation>)
    ensures Bodies(a + b, known) == Bodies(a, known) + Bodies(b, known)
    decreases b
  {
    if b == [] {
      assert a + b == a;
    } else {
      var c := b[..|b| - 1];
      BodiesConcat(a, c, known);
      assert (a + b)[..|a + b| - 1] == a + c;
      assert forall last: seq<Rotation> ::
        Bodies(a, known) + Bodies(c, known) + last == Bodies(a, known) + (Bodies(c, known) + last);
    }
  }

  /** In batch order, the known body of every entry with the rotation label, and nothing else. */
  lemma BodiesExact(a: seq<Entry>, e: Entry, b: seq<Entry>, known: map<Bytes, Rotation>)
    ensures Bodies(a + [e] + b, known) ==
            Bodies(a, known)
            + (if e.lbl == "3cp:key-rotation:v1" && e.hash in known then [known[e.hash]] else [])
            + Bodies(b, known)
  {
    BodiesConcat(a + [e], b, known);
    BodiesConcat(a, [e], known);
    assert [e][..0] == [] && Bodies([], known) == [];
  }

  lemma {:induction false} BodiesIff(entries: seq<Entry>, known: map<Bytes, Rotation>, r: Rotation)
    ensures r in Bodies(entries, known) <==>
            exists e :: e in entries && e.lbl == "3cp:key-rotation:v1" && e.hash in known && known[e.hash] == r
  {
    if entries != [] {
      var rest, e := entries[..|entries| - 1], entries[|entries| - 1];
      BodiesIff(rest, known, r);
      assert forall x :: x in entries <==> x in rest || x == e;
    }
  }

  /** Each valid rotation is recorded, each invalid one skipped. */
  function FoldBatch(ks: KeyState, cfg: Config, cr: Crypto, cycle: nat, batch: seq<Rotation>): KeyState
  {
    if batch == [] then ks
    else
      var before, r := FoldBatch(ks, cfg, cr, cycle, batch[..|batch| - 1]), batch[|batch| - 1];
      if Accepts(before, cfg, cr, cycle, r) then Record(before, r) else before
  }

  /** A rotation joins its submitter's history exactly if it is authorised by what is recorded when its turn comes,
      and in due form and time; other histories stay. */
  lemma FoldNext(ks: KeyState, cfg: Config, cr: Crypto, cycle: nat, batch: seq<Rotation>, r: Rotation, id: Id)
    ensures var before, after := FoldBatch(ks, cfg, cr, cycle, batch), FoldBatch(ks, cfg, cr, cycle, batch + [r]);
      HistoryOf(after, id) ==
      HistoryOf(before, id) + (if r.submitter == id && Due(before, cfg, cr, cycle, r) then [r] else [])
  {
    assert (batch + [r])[..|batch|] == batch;
    var before := FoldBatch(ks, cfg, cr, cycle, batch);
    AcceptsIff(before, cfg, cr, cycle, r);
  }

  /** So a batch keeps every history a chain of trust. */
  lemma {:induction false} BatchTrusted(ks: KeyState, cfg: Config, cr: Crypto, cycle: nat, batch: seq<Rotation>)
    requires Trusted(ks, cr, cfg.minOverlap)
    ensures Trusted(FoldBatch(ks, cfg, cr, cycle, batch), cr, cfg.minOverlap)
  {
    if batch != [] {
      var before, r := FoldBatch(ks, cfg, cr, cycle, batch[..|batch| - 1]), batch[|batch| - 1];
      BatchTrusted(ks, cfg, cr, cycle, batch[..|batch| - 1]);
      AcceptsIff(before, cfg, cr, cycle, r);
      if Accepts(before, cfg, cr, cycle, r) { RecordTrusted(before, r, cr, cfg.minOverlap); }
    }
  }

  method ProcessKeyRotationEntries(v: KeyRotationValidator, entries: seq<Entry>, known: map<Bytes, Rotation>,
                                   cr: Crypto)
    requires v.Valid()
    modifies v`rotations
    ensures v.Valid()
    ensures v.State() == FoldBatch(old(v.State()), v.cfg, cr, v.currentCycle, Bodies(entries, known))
  {
    ghost var start := v.State();
    for i := 0 to |entries|
      invariant v.Valid() && v.State() == FoldBatch(start, v.cfg, cr, v.currentCycle, Bodies(entries[..i], known))
    {
      ghost var done := Bodies(entries[..i], known);
      var pe := entries[i];
      assert entries[..i + 1][..i] == entries[..i];
      if pe.lbl != KEY_ROTATION_LABEL || pe.hash !in known {
        assert Bodies(entries[..i + 1], known) == done;
        continue;
      }
      assert Bodies(entries[..i + 1], known)[..|done|] == done;
      var _ := v.ValidateAndRecord(Some(known[pe.hash]), cr);
    }
    assert entries[..|entries|] == entries;
  }

  // ---- whole runs ---------------------------------------------------------------------

  /** One RunCycle: the validator set it synchronises, the rotations in its batch, the block it commits if it does. */
  datatype Attempt = Attempt(validators: map<Id, PublicKey>, batch: seq<Rotation>, block: Option<Block>)

  datatype NodeChain = NodeChain(ks: KeyState, cycle: nat, blocks: seq<Block>)

  function RunCycle(s: NodeChain, cfg: Config, cr: Crypto, a: Attempt): NodeChain
  {
    NodeChain(FoldBatch(s.ks.(validators := a.validators), cfg, cr, s.cycle, a.batch),
              s.cycle + 1,
              if a.block.Some? then s.blocks + [a.block.value] else s.blocks)
  }

  function RunCycles(s: NodeChain, cfg: Config, cr: Crypto, run: seq<Attempt>): NodeChain
  {
    if run == [] then s
    else RunCycle(RunCycles(s, cfg, cr, run[..|run| - 1]), cfg, cr, run[|run| - 1])
  }

  /** The chain is never longer than the attempt counter. */
  lemma {:induction false} ChainBehindCounter(s: NodeChain, cfg: Config, cr: Crypto, run: seq<Attempt>)
    requires |s.blocks| <= s.cycle
    ensures |RunCycles(s, cfg, cr, run).blocks| <= RunCycles(s, cfg, cr, run).cycle
    ensures s.cycle <= RunCycles(s, cfg, cr, run).cycle
    ensures s.blocks <= RunCycles(s, cfg, cr, run).blocks
  {
    if run != [] { ChainBehindCounter(s, cfg, cr, run[..|run| - 1]); }
  }

  /** A batch judged at an attempt leaves the keys of every cycle up to that attempt alone. */
  lemma {:induction false} BatchKeepsPast(ks: KeyState, cfg: Config, cr: Crypto, cycle: nat, batch: seq<Rotation>,
                                          id: Id, c: nat)
    requires cfg.leadTime >= 1 && c <= cycle
    ensures Active(FoldBatch(ks, cfg, cr, cycle, batch), id, c) == Active(ks, id, c)
  {
    if batch != [] {
      var before, r := FoldBatch(ks, cfg, cr, cycle, batch[..|batch| - 1]), batch[|batch| - 1];
      BatchKeepsPast(ks, cfg, cr, cycle, batch[..|batch| - 1], id, c);
      if Accepts(before, cfg, cr, cycle, r) && id == r.submitter && id in before.validators {
        LaterRotationInvisible(before.validators[id], HistoryOf(before, id), r, c);
      }
    }
  }

  /** Synchronising the validator set leaves the keys of a validator in a cycle alone: it stays unknown, or its
      registered key stays, or its first recorded rotation has expired by then. */
  ghost predicate ResetInvisible(ks: KeyState, validators: map<Id, PublicKey>, id: Id, c: nat)
  {
    && (id in ks.validators <==> id in validators)
    && (id in ks.validators ==>
          var hist := HistoryOf(ks, id);
          ks.validators[id] == validators[id] || (hist != [] && hist[0].effective <= c && hist[0].expiry < c))
  }

  /** With a lead time of at least one cycle, an attempt keeps the authoritative keys of a committed or in-flight
      index exactly when its synchronisation of the validator set does; its rotations never touch them. */
  lemma CycleKeepsIff(s: NodeChain, cfg: Config, cr: Crypto, a: Attempt, id: Id, i: nat)
    requires cfg.leadTime >= 1 && i <= s.cycle
    ensures Active(RunCycle(s, cfg, cr, a).ks, id, i) == Active(s.ks, id, i) <==>
            ResetInvisible(s.ks, a.validators, id, i)
  {
    var reset := s.ks.(validators := a.validators);
    BatchKeepsPast(reset, cfg, cr, s.cycle, a.batch, id, i);
    if id in s.ks.validators && id in a.validators {
      ResetVisibleIff(s.ks.validators[id], a.validators[id], HistoryOf(s.ks, id), i);
    }
  }

  ghost predicate Undisturbed(s: NodeChain, cfg: Config, cr: Crypto, run: seq<Attempt>, id: Id, i: nat)
  {
    run == [] ||
    (var rest := run[..|run| - 1];
     Undisturbed(s, cfg, cr, rest, id, i) &&
     ResetInvisible(RunCycles(s, cfg, cr, rest).ks, run[|run| - 1].validators, id, i))
  }

  /** Hence over a whole run the keys of a committed or in-flight index never change, whatever is rotated. */
  lemma {:induction false} KeysSettled(s: NodeChain, cfg: Config, cr: Crypto, run: seq<Attempt>, id: Id, i: nat)
    requires cfg.leadTime >= 1 && |s.blocks| <= s.cycle && i <= |s.blocks|
    requires Undisturbed(s, cfg, cr, run, id, i)
    ensures Active(RunCycles(s, cfg, cr, run).ks, id, i) == Active(s.ks, id, i)
  {
    if run != [] {
      var rest := run[..|run| - 1];
      KeysSettled(s, cfg, cr, rest, id, i);
      ChainBehindCounter(s, cfg, cr, rest);
      CycleKeepsIff(RunCycles(s, cfg, cr, rest), cfg, cr, run[|run| - 1], id, i);
    }
  }

  /** A set that keeps the registered key of a validator never disturbs it. */
  lemma {:induction false} SameKeyUndisturbed(s: NodeChain, cfg: Config, cr: Crypto, run: seq<Attempt>, id: Id, i: nat)
    requires forall k :: 0 <= k < |run| ==> SameKey(s.ks.validators, run[k].validators, id)
    ensures Undisturbed(s, cfg, cr, run, id, i)
    ensures SameKey(s.ks.validators, RunCycles(s, cfg, cr, run).ks.validators, id)
  {
    if run != [] {
      var rest, a := run[..|run| - 1], run[|run| - 1];
      SameKeyUndisturbed(s, cfg, cr, rest, id, i);
      var before := RunCycles(s, cfg, cr, rest);
      FoldKeepsSet(before.ks.(validators := a.validators), cfg, cr, before.cycle, a.batch);
    }
  }

  ghost predicate SameKey(v: map<Id, PublicKey>, w: map<Id, PublicKey>, id: Id)
  {
    (id in v <==> id in w) && (id in v ==> v[id] == w[id])
  }

  lemma {:induction false} FoldKeepsSet(ks: KeyState, cfg: Config, cr: Crypto, cycle: nat, batch: seq<Rotation>)
    ensures FoldBatch(ks, cfg, cr, cycle, batch).validators == ks.validators
  {
    if batch != [] { FoldKeepsSet(ks, cfg, cr, cycle, batch[..|batch| - 1]); }
  }

  /** The verifyPrepareQuorum answer for a block at index i, under the keys of a node. */
  ghost predicate QuorumAnswer(b: Block, peers: seq<Id>, i: nat, ks: KeyState, ver: BlockVerifier)
  {
    Certified(b.bitmap, b.prepareSigs, |peers|, RequiredFor(IsDegradedBlock(b), |peers|),
              (j: nat, sig: Sig) => j < |peers| && VerifiesUnder(ver, KeysFor(ks, peers[j], i), b.blockHash, sig))
  }

  /** A committed or in-flight block re-verifies for ever: the answer never changes. */
  lemma ReverifiesForever(s: NodeChain, cfg: Config, cr: Crypto, run: seq<Attempt>, b: Block, peers: seq<Id>, i: nat,
                          ver: BlockVerifier)
    requires cfg.leadTime >= 1 && |s.blocks| <= s.cycle && i <= |s.blocks|
    requires forall j :: 0 <= j < |peers| ==> Undisturbed(s, cfg, cr, run, peers[j], i)
    ensures QuorumAnswer(b, peers, i, RunCycles(s, cfg, cr, run).ks, ver) <==> QuorumAnswer(b, peers, i, s.ks, ver)
  {
    var after := RunCycles(s, cfg, cr, run).ks;
    forall j | 0 <= j < |peers| ensures KeysFor(after, peers[j], i) == KeysFor(s.ks, peers[j], i) {
      KeysSettled(s, cfg, cr, run, peers[j], i);
    }
  }

  lemma {:induction false} BatchWellTimed(ks: KeyState, cfg: Config, cr: Crypto, cycle: nat, batch: seq<Rotation>)
    requires HistoriesWellTimed(ks)
    ensures HistoriesWellTimed(FoldBatch(ks, cfg, cr, cycle, batch))
  {
    if batch != [] {
      var before, r := FoldBatch(ks, cfg, cr, cycle, batch[..|batch| - 1]), batch[|batch| - 1];
      BatchWellTimed(ks, cfg, cr, cycle, batch[..|batch| - 1]);
      if Accepts(before, cfg, cr, cycle, r) { AcceptKeepsWellTimed(before, cfg, cr, cycle, r); }
    }
  }

  ghost predicate NotBefore(tail: History, cycle: nat)
  {
    forall i :: 0 <= i < |tail| ==> tail[i].effective >= cycle
  }

  lemma NotBeforeAppend(tail: History, r: Rotation, cycle: nat)
    requires NotBefore(tail, cycle) && r.effective >= cycle
    ensures NotBefore(tail + [r], cycle)
  {
  }

  /** A batch only appends to a validator's history, and nothing effective before the attempt and its lead time. */
  lemma {:induction false} BatchAppends(ks: KeyState, cfg: Config, cr: Crypto, cycle: nat, batch: seq<Rotation>, id: Id)
    returns (tail: History)
    ensures HistoryOf(FoldBatch(ks, cfg, cr, cycle, batch), id) == HistoryOf(ks, id) + tail
    ensures NotBefore(tail, cycle + cfg.leadTime)
  {
    tail := [];
    if batch != [] {
      var before, r := FoldBatch(ks, cfg, cr, cycle, batch[..|batch| - 1]), batch[|batch| - 1];
      tail := BatchAppends(ks, cfg, cr, cycle, batch[..|batch| - 1], id);
      if r.submitter == id && Accepts(before, cfg, cr, cycle, r) {
        NotBeforeAppend(tail, r, cycle + cfg.leadTime);
        assert HistoryOf(ks, id) + tail + [r] == HistoryOf(ks, id) + (tail + [r]);
        tail := tail + [r];
      }
    }
  }

  lemma {:induction false} FoldConcat(ks: KeyState, cfg: Config, cr: Crypto, cycle: nat, a: seq<Rotation>,
                                      b: seq<Rotation>)
    ensures FoldBatch(ks, cfg, cr, cycle, a + b) == FoldBatch(FoldBatch(ks, cfg, cr, cycle, a), cfg, cr, cycle, b)
    decreases b
  {
    if b == [] {
      assert a + b == a;
    } else {
      FoldConcat(ks, cfg, cr, cycle, a, b[..|b| - 1]);
      assert (a + b)[..|a + b| - 1] == a + b[..|b| - 1];
    }
  }

  /** A rotation that is due when its turn comes is in the history once the batch is done. */
  lemma BatchRecords(ks: KeyState, cfg: Config, cr: Crypto, cycle: nat, a: seq<Rotation>, r: Rotation, b: seq<Rotation>)
    requires Due(FoldBatch(ks, cfg, cr, cycle, a), cfg, cr, cycle, r)
    ensures r in HistoryOf(FoldBatch(ks, cfg, cr, cycle, a + [r] + b), r.submitter)
  {
    FoldNext(ks, cfg, cr, cycle, a, r, r.submitter);
    FoldConcat(ks, cfg, cr, cycle, a + [r], b);
    var after := FoldBatch(ks, cfg, cr, cycle, a + [r]);
    var h := HistoryOf(after, r.submitter);
    assert h[|h| - 1] == r;
    var tail := BatchAppends(after, cfg, cr, cycle, b, r.submitter);
  }

  /** Exactly when a batch changes the keys of the very block it belongs to: the first rotation it records for the
      validator is effective at once, and every earlier window has closed.  That takes a lead time of zero and a
      chain as long as the counter. */
  lemma InFlightChangesIff(s: NodeChain, cfg: Config, cr: Crypto, batch: seq<Rotation>, block: Option<Block>, id: Id)
    requires |s.blocks| <= s.cycle && HistoriesWellTimed(s.ks) && id in s.ks.validators
    ensures var after, c := RunCycle(s, cfg, cr, Attempt(s.ks.validators, batch, block)).ks, |s.blocks|;
      var hist, hist' := HistoryOf(s.ks, id), HistoryOf(after, id);
      && (Active(after, id, c) != Active(s.ks, id, c) <==>
            |hist| < |hist'| && hist'[|hist|].effective == c && AllClosed(hist, c))
      && (|hist| < |hist'| && hist'[|hist|].effective == c ==> cfg.leadTime == 0 && s.cycle == c)
  {
    assert s.ks.(validators := s.ks.validators) == s.ks;
    FoldKeepsSet(s.ks, cfg, cr, s.cycle, batch);
    BatchWellTimed(s.ks, cfg, cr, s.cycle, batch);
    var tail := BatchAppends(s.ks, cfg, cr, s.cycle, batch, id);
    assert WellTimed(HistoryOf(s.ks, id) + tail);
    TailChangesIff(s.ks.validators[id], HistoryOf(s.ks, id), tail, |s.blocks|);
  }
}
