/** Degraded mode (pkg/consensus/degraded.go): hysteresis over observations, and the 1-of-N block. */
module Degraded {
  import opened Common
  import opened Chain
  import opened Codec

  datatype Observation = Observation(validators: int, quorumReached: bool)

  function NonNegative(n: int): nat
  {
    if n < 0 then 0 else n
  }

  predicate Low(o: Observation, minValidators: nat)
  {
    NonNegative(o.validators) < minValidators
  }

  predicate Normal(o: Observation, minValidators: nat)
  {
    NonNegative(o.validators) >= minValidators && o.quorumReached
  }

  datatype Mode = Mode(inDegraded: bool, consecutiveNormal: nat)

  function StepMode(m: Mode, minValidators: nat, graceCycles: nat, o: Observation): Mode
  {
    if !m.inDegraded then
      if Low(o, minValidators) then Mode(true, 0) else m
    else if Normal(o, minValidators) then
      if m.consecutiveNormal + 1 >= graceCycles then Mode(false, 0)
      else m.(consecutiveNormal := m.consecutiveNormal + 1)
    else m.(consecutiveNormal := 0)
  }

  function RunMode(trace: seq<Observation>, minValidators: nat, graceCycles: nat): Mode
  {
    if trace == [] then Mode(false, 0)
    else StepMode(RunMode(trace[..|trace| - 1], minValidators, graceCycles),
                  minValidators, graceCycles, trace[|trace| - 1])
  }

  ghost predicate LastLow(trace: seq<Observation>, minValidators: nat, l: nat)
  {
    l < |trace| && Low(trace[l], minValidators) &&
    forall i :: l < i < |trace| ==> !Low(trace[i], minValidators)
  }

  ghost predicate NormalRun(trace: seq<Observation>, minValidators: nat, a: nat, len: nat)
  {
    a + len <= |trace| && forall i :: a <= i < a + len ==> Normal(trace[i], minValidators)
  }

  /** Some observation fell below the minimum, and since the latest such one no run of
      max(1, graceCycles) consecutive normal observations has completed. */
  ghost predicate ShouldBeDegraded(trace: seq<Observation>, minValidators: nat, graceCycles: nat)
  {
    exists l :: LastLow(trace, minValidators, l) && !Recovered(trace, minValidators, graceCycles, l)
  }

  function RunNeeded(graceCycles: nat): nat
  {
    if graceCycles == 0 then 1 else graceCycles
  }

  ghost predicate Recovered(trace: seq<Observation>, minValidators: nat, graceCycles: nat, l: nat)
  {
    exists a :: a > l && NormalRun(trace, minValidators, a, RunNeeded(graceCycles))
  }

  /** The length of the run of normal observations the trace ends with. */
  function NormalSuffix(trace: seq<Observation>, minValidators: nat): nat
  {
    if trace == [] || !Normal(trace[|trace| - 1], minValidators) then 0
    else 1 + NormalSuffix(trace[..|trace| - 1], minValidators)
  }

  lemma {:induction false} NormalSuffixMeaning(trace: seq<Observation>, minV: nat, len: nat)
    requires len <= |trace|
    ensures NormalSuffix(trace, minV) >= len <==> NormalRun(trace, minV, |trace| - len, len)
  {
    if len > 0 {
      NormalSuffixMeaning(trace[..|trace| - 1], minV, len - 1);
    }
  }

  lemma RecoveredStep(trace: seq<Observation>, o: Observation, minV: nat, grace: nat, l: nat)
    requires LastLow(trace + [o], minV, l)
    ensures Recovered(trace + [o], minV, grace, l) <==>
      (l < |trace| && Recovered(trace, minV, grace, l)) || NormalSuffix(trace + [o], minV) >= RunNeeded(grace)
  {
    var g := RunNeeded(grace);
    var t := trace + [o];
    if Recovered(t, minV, grace, l) {
      var a :| a > l && NormalRun(t, minV, a, g);
      if a + g == |t| {
        NormalSuffixMeaning(t, minV, g);
      } else {
        forall i | a <= i < a + g ensures Normal(trace[i], minV) { assert t[i] == trace[i]; }
        assert NormalRun(trace, minV, a, g);
      }
    }
    if NormalSuffix(t, minV) >= g {
      SuffixShort(t, minV);
      NormalSuffixMeaning(t, minV, g);
      var a := |t| - g;
      assert !Normal(t[l], minV);
      assert a > l;
    }
    if l < |trace| && Recovered(trace, minV, grace, l) {
      var a :| a > l && NormalRun(trace, minV, a, g);
      assert NormalRun(t, minV, a, g);
    }
  }

  lemma SuffixShort(trace: seq<Observation>, minV: nat)
    ensures NormalSuffix(trace, minV) <= |trace|
  {
  }

  /** Degraded mode over any trace of observations. */
  lemma {:induction false} HysteresisExact(trace: seq<Observation>, minV: nat, grace: nat)
    ensures RunMode(trace, minV, grace).inDegraded <==> ShouldBeDegraded(trace, minV, grace)
    ensures RunMode(trace, minV, grace).inDegraded ==>
      RunMode(trace, minV, grace).consecutiveNormal == NormalSuffix(trace, minV) <
      RunNeeded(grace)
  {
    if trace != [] {
      var pre, o := trace[..|trace| - 1], trace[|trace| - 1];
      assert trace == pre + [o];
      HysteresisExact(pre, minV, grace);
      if Low(o, minV) {
        assert LastLow(trace, minV, |pre|);
        RecoveredStep(pre, o, minV, grace, |pre|);
      } else {
        forall l: nat ensures LastLow(trace, minV, l) <==> LastLow(pre, minV, l) { LastLowStep(pre, o, minV, l); }
        if l: nat :| LastLow(pre, minV, l) {
          RecoveredStep(pre, o, minV, grace, l);
          OneLastLow(pre, minV, l);
          OneLastLow(trace, minV, l);
        }
      }
    }
  }

  lemma LastLowStep(pre: seq<Observation>, o: Observation, minV: nat, l: nat)
    requires !Low(o, minV)
    ensures LastLow(pre + [o], minV, l) <==> LastLow(pre, minV, l)
  {
    if LastLow(pre + [o], minV, l) {
      forall i | l < i < |pre| ensures !Low(pre[i], minV) { assert (pre + [o])[i] == pre[i]; }
    }
  }

  lemma OneLastLow(trace: seq<Observation>, minV: nat, l: nat)
    requires LastLow(trace, minV, l)
    ensures forall l' :: LastLow(trace, minV, l') ==> l' == l
  {
  }

  // ---- recovery in numbers ----------------------------------------------------------------

  /** k observations of exactly the minimum, with quorum. */
  function AtMinimum(minV: nat, k: nat): seq<Observation>
  {
    seq(k, _ => Observation(minV, true))
  }

  lemma RunModeAppend(trace: seq<Observation>, o: Observation, minV: nat, grace: nat)
    ensures RunMode(trace + [o], minV, grace) == StepMode(RunMode(trace, minV, grace), minV, grace, o)
  {
    assert (trace + [o])[..|trace|] == trace;
  }

  lemma {:induction false} RecoveryCount(trace: seq<Observation>, minV: nat, grace: nat, k: nat)
    requires RunMode(trace, minV, grace) == Mode(true, 0)
    ensures var m := RunMode(trace + AtMinimum(minV, k), minV, grace);
      && (m.inDegraded <==> k == 0 || k < grace)
      && (m.inDegraded ==> m.consecutiveNormal == k)
  {
    if k == 0 {
      assert trace + AtMinimum(minV, 0) == trace;
    } else {
      RecoveryCount(trace, minV, grace, k - 1);
      var before := trace + AtMinimum(minV, k - 1);
      assert trace + AtMinimum(minV, k) == before + [Observation(minV, true)];
      RunModeAppend(before, Observation(minV, true), minV, grace);
    }
  }

  /** After a dip below the minimum, however it came about, exactly max(1, grace) observations of just the minimum
      with quorum lead out of degraded mode. */
  lemma DipThenRecovery(trace: seq<Observation>, dip: Observation, minV: nat, grace: nat, k: nat)
    requires dip.validators < minV && minV > 0
    ensures RunMode(trace + [dip] + AtMinimum(minV, k), minV, grace).inDegraded <==>
            k < if grace == 0 then 1 else grace
  {
    RunModeAppend(trace, dip, minV, grace);
    RecoveryCount(trace + [dip], minV, grace, k);
  }

  /** And one observation without quorum on the way starts the count anew. */
  lemma LostQuorumRestarts(trace: seq<Observation>, dip: Observation, v: int, minV: nat, grace: nat, j: nat, k: nat)
    requires dip.validators < minV && minV > 0 && j < if grace == 0 then 1 else grace
    ensures var whole := trace + [dip] + AtMinimum(minV, j) + [Observation(v, false)] + AtMinimum(minV, k);
      RunMode(whole, minV, grace).inDegraded <==> k < if grace == 0 then 1 else grace
  {
    var first := trace + [dip] + AtMinimum(minV, j);
    DipThenRecovery(trace, dip, minV, grace, j);
    RunModeAppend(first, Observation(v, false), minV, grace);
    RecoveryCount(first + [Observation(v, false)], minV, grace, k);
  }

  class DegradedMode {
    const minValidators: nat
    const graceCycles: nat
    var consecutiveNormal: nat
    var inDegraded: bool

    function State(): Mode
      reads this
    {
      Mode(inDegraded, consecutiveNormal)
    }

    constructor (minValidators: nat, graceCycles: nat)
      ensures State() == RunMode([], minValidators, graceCycles)
      ensures this.minValidators == minValidators && this.graceCycles == graceCycles
    {
      this.minValidators, this.graceCycles := minValidators, graceCycles;
      consecutiveNormal, inDegraded := 0, false;
    }

    /** One observation extends the trace the mode stands for. */
    method CheckDegradedTransition(currentValidators: int, quorumReached: bool, ghost trace: seq<Observation>)
      returns (transitioned: bool, enteredDegraded: bool)
      requires State() == RunMode(trace, minValidators, graceCycles)
      modifies this
      ensures State() == RunMode(trace + [Observation(currentValidators, quorumReached)], minValidators, graceCycles)
      ensures transitioned <==> inDegraded != old(inDegraded)
      ensures enteredDegraded == inDegraded
    {
      ghost var o := Observation(currentValidators, quorumReached);
      assert (trace + [o])[..|trace|] == trace;
      var wasDegraded := inDegraded;
      if !inDegraded {
        if NonNegative(currentValidators) < minValidators {
          inDegraded, consecutiveNormal := true, 0;
          return true, true;
        }
      } else {
        if NonNegative(currentValidators) >= minValidators && quorumReached {
          consecutiveNormal := consecutiveNormal + 1;
          if consecutiveNormal >= graceCycles {
            inDegraded, consecutiveNormal := false, 0;
            return true, false;
          }
        } else {
          consecutiveNormal := 0;
        }
      }
      return inDegraded != wasDegraded, inDegraded;
    }

    /** In degraded mode the block keeps its first valid signature, if it has one; the result is
        labelled and still passes verifyPrepareQuorum.  Outside it the block is left alone. */
    method ApplyDegradedBlock(b: Block, n: nat, good: (nat, Sig) -> bool) returns (r: Option<Block>)
      ensures DegradedResult(inDegraded, b, n, good, r)
      ensures inDegraded && r.Some? ==>
        IsDegradedBlock(r.value) && Certified(r.value.bitmap, r.value.prepareSigs, n, 1, good)
    {
      if !inDegraded { return Some(b); }
      var bitmap := if b.bitmap.Some? then b.bitmap.value else [];
      var sigs := if b.prepareSigs.Some? then b.prepareSigs.value else [];
      var sigIdx, i := 0, 0;
      while i < n
        invariant 0 <= i <= n
        invariant sigIdx == Rank(bitmap, i)
        invariant forall j :: 0 <= j < i ==> !Usable(b, j, good)
      {
        if i / 8 >= |bitmap| { break; }
        if BitAt(bitmap[i / 8], i % 8) {
          if sigIdx >= |sigs| { break; }
          var sig := sigs[sigIdx];
          sigIdx := sigIdx + 1;
          if |sig| != 0 && good(i, sig) {
            var single := BuildSingle(n, i);
            r := Some(Trimmed(b, i, Some(single)));
            assert KeepsOnly(b, n, good, i, r.value);
            KeptIsCertified(b, n, good, i, r.value);
            return;
          }
        }
        i := i + 1;
      }
      forall j | i <= j < n ensures !Usable(b, j, good) { RankMonotone(bitmap, i, j); }
      return None;
    }
  }

  /** Peer i is marked and its signature, found by rank, is present and good. */
  predicate Usable(b: Block, i: nat, good: (nat, Sig) -> bool)
  {
    && b.bitmap.Some? && b.prepareSigs.Some?
    && BitSet(b.bitmap.value, i) && Rank(b.bitmap.value, i) < |b.prepareSigs.value|
    && var sig := b.prepareSigs.value[Rank(b.bitmap.value, i)];
    |sig| != 0 && good(i, sig)
  }

  function Trimmed(b: Block, i: nat, bitmap: Option<Bytes>): Block
    requires b.bitmap.Some? && b.prepareSigs.Some? && Rank(b.bitmap.value, i) < |b.prepareSigs.value|
  {
    b.(bitmap := bitmap,
       prepareSigs := Some([b.prepareSigs.value[Rank(b.bitmap.value, i)]]),
       metadata := b.metadata[DEGRADED_LABEL := "true"])
  }

  /** Peer i is the first usable signer, and the block is cut down to it. */
  ghost predicate KeepsOnly(b: Block, n: nat, good: (nat, Sig) -> bool, i: nat, r: Block)
  {
    && i < n && Usable(b, i, good) && (forall j :: 0 <= j < i ==> !Usable(b, j, good))
    && r.bitmap.Some? && OnlyBit(r.bitmap.value, i)
    && r == Trimmed(b, i, r.bitmap)
  }

  /** What ApplyDegradedBlock may return; None is its error. */
  ghost predicate DegradedResult(inDegraded: bool, b: Block, n: nat, good: (nat, Sig) -> bool, r: Option<Block>)
  {
    if !inDegraded then r == Some(b)
    else if r.None? then forall i :: 0 <= i < n ==> !Usable(b, i, good)
    else exists i :: KeepsOnly(b, n, good, i, r.value)
  }

  /** A trimmed block still passes verifyPrepareQuorum under the keys it was trimmed with. */
  lemma KeptIsCertified(b: Block, n: nat, good: (nat, Sig) -> bool, i: nat, r: Block)
    requires KeepsOnly(b, n, good, i, r)
    ensures IsDegradedBlock(r) && Certified(r.bitmap, r.prepareSigs, n, 1, good)
    ensures ComputeBlockHash(r) == ComputeBlockHash(b) && r.blockHash == b.blockHash
  {
    SingleIsCertified(r.bitmap.value, r.prepareSigs.value[0], i, n, good);
  }

  method BuildSingle(n: nat, i: nat) returns (bitmap: Bytes)
    requires i < n
    ensures |bitmap| == (n + 7) / 8 && OnlyBit(bitmap, i)
  {
    var buf := new bv8[(n + 7) / 8](_ => 0);
    ghost var before := buf[..];
    buf[i / 8] := buf[i / 8] | (1 << (i % 8));
    bitmap := buf[..];
    forall j: nat ensures BitSet(bitmap, j) <==> j == i {
      if j / 8 == i / 8 { SetBitLemma(0, i % 8, j % 8); }
      assert !BitAt(0, j % 8);
    }
  }
}
