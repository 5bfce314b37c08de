/**
 The PREPARE certificate of a block: a bitmap of signers and a payload compacted to them, in
 ascending validator order.  One encoder (pkg/consensus/prepare.go and commit.go) and three
 decoders: countBitsBefore, the running index of ApplyDegradedBlock, and bitmapSigners.
*/
module Codec {
  import opened Common
  import opened Chain

  predicate BitSet(bitmap: Bytes, i: nat)
  {
    i / 8 < |bitmap| && BitAt(bitmap[i / 8], i % 8)
  }

  /** The number of set bits below position i: where the signature of validator i sits. */
  function Rank(bitmap: Bytes, i: nat): nat
  {
    if i == 0 then 0 else Rank(bitmap, i - 1) + (if BitSet(bitmap, i - 1) then 1 else 0)
  }

  /** The set positions below n, ascending. */
  function Positions(bitmap: Bytes, n: nat): seq<nat>
  {
    if n == 0 then []
    else Positions(bitmap, n - 1) + (if BitSet(bitmap, n - 1) then [n - 1] else [])
  }

  lemma {:induction false} RankMonotone(bitmap: Bytes, i: nat, j: nat)
    requires i <= j
    ensures Rank(bitmap, i) <= Rank(bitmap, j)
    ensures i < j && BitSet(bitmap, i) ==> Rank(bitmap, i) < Rank(bitmap, j)
    decreases j
  {
    if i < j { RankMonotone(bitmap, i, j - 1); }
  }

  lemma PositionsLength(bitmap: Bytes, n: nat)
    ensures |Positions(bitmap, n)| == Rank(bitmap, n)
  {
  }

  lemma {:induction false} PositionAt(bitmap: Bytes, n: nat, k: nat)
    requires k < |Positions(bitmap, n)|
    ensures var i := Positions(bitmap, n)[k]; i < n && BitSet(bitmap, i) && Rank(bitmap, i) == k
  {
    PositionsLength(bitmap, n - 1);
    if k < |Positions(bitmap, n - 1)| { PositionAt(bitmap, n - 1, k); }
  }

  lemma {:induction false} RankAt(bitmap: Bytes, n: nat, i: nat)
    requires i < n && BitSet(bitmap, i)
    ensures Rank(bitmap, i) < |Positions(bitmap, n)| && Positions(bitmap, n)[Rank(bitmap, i)] == i
  {
    PositionsLength(bitmap, n - 1);
    if i < n - 1 { RankAt(bitmap, n - 1, i); }
  }

  /** Positions and Rank are inverse to each other. */
  lemma PositionsRank(bitmap: Bytes, n: nat)
    ensures |Positions(bitmap, n)| == Rank(bitmap, n)
    ensures forall k :: 0 <= k < |Positions(bitmap, n)| ==>
      var i := Positions(bitmap, n)[k]; i < n && BitSet(bitmap, i) && Rank(bitmap, i) == k
    ensures forall i :: 0 <= i < n && BitSet(bitmap, i) ==>
      Rank(bitmap, i) < |Positions(bitmap, n)| && Positions(bitmap, n)[Rank(bitmap, i)] == i
  {
    PositionsLength(bitmap, n);
    forall k | 0 <= k < |Positions(bitmap, n)|
      ensures var i := Positions(bitmap, n)[k]; i < n && BitSet(bitmap, i) && Rank(bitmap, i) == k
    {
      PositionAt(bitmap, n, k);
    }
    forall i | 0 <= i < n && BitSet(bitmap, i)
      ensures Rank(bitmap, i) < |Positions(bitmap, n)| && Positions(bitmap, n)[Rank(bitmap, i)] == i
    {
      RankAt(bitmap, n, i);
    }
  }

  lemma PositionsAscend(bitmap: Bytes, n: nat)
    ensures forall k :: 0 <= k < |Positions(bitmap, n)| ==>
      Positions(bitmap, n)[k] < n && BitSet(bitmap, Positions(bitmap, n)[k])
    ensures forall k, m :: 0 <= k < m < |Positions(bitmap, n)| ==> Positions(bitmap, n)[k] < Positions(bitmap, n)[m]
  {
  }

  lemma {:induction false} NoBitsPast(bitmap: Bytes, n: nat, m: nat)
    requires n <= m && forall i :: n <= i ==> !BitSet(bitmap, i)
    ensures Positions(bitmap, m) == Positions(bitmap, n) && Rank(bitmap, m) == Rank(bitmap, n)
    decreases m
  {
    if n < m { NoBitsPast(bitmap, n, m - 1); }
  }

  // ---- encoder ---------------------------------------------------------------------

  /** Bitmap and payload together say: these peers signed, with these signatures. */
  ghost predicate Encodes(bitmap: Bytes, sigs: seq<Sig>, peers: seq<Id>, valid: map<Id, Sig>)
  {
    && (forall i: nat :: BitSet(bitmap, i) <==> i < |peers| && peers[i] in valid)
    && |sigs| == Rank(bitmap, |peers|)
    && (forall i :: 0 <= i < |peers| && BitSet(bitmap, i) ==>
          Rank(bitmap, i) < |sigs| && sigs[Rank(bitmap, i)] == valid[peers[i]])
  }

  method BuildBitmap(peers: seq<Id>, valid: map<Id, Sig>) returns (bitmap: Bytes)
    ensures |bitmap| == (|peers| + 7) / 8
    ensures forall i: nat :: BitSet(bitmap, i) <==> i < |peers| && peers[i] in valid
  {
    var buf := new bv8[(|peers| + 7) / 8](_ => 0);
    forall j: nat | j < 8 * buf.Length ensures !BitSet(buf[..], j) { assert !BitAt(0, j % 8); }
    for i := 0 to |peers|
      invariant forall j: nat :: BitSet(buf[..], j) <==> j < i && peers[j] in valid
    {
      if peers[i] in valid {
        ghost var before := buf[..];
        buf[i / 8] := buf[i / 8] | (1 << (i % 8));
        forall j: nat ensures BitSet(buf[..], j) <==> BitSet(before, j) || j == i {
          if j / 8 == i / 8 { SetBitLemma(before[i / 8], i % 8, j % 8); }
        }
      }
    }
    return buf[..];
  }

  /** The payload loop of the COMMIT phase. */
  method CompactPayload(peers: seq<Id>, valid: map<Id, Sig>, bitmap: Bytes) returns (sigs: seq<Sig>)
    ensures (forall i: nat :: BitSet(bitmap, i) <==> i < |peers| && peers[i] in valid) ==>
            Encodes(bitmap, sigs, peers, valid)
  {
    sigs := [];
    ghost var exact := forall i: nat :: BitSet(bitmap, i) <==> i < |peers| && peers[i] in valid;
    var i := 0;
    while i < |peers|
      invariant 0 <= i <= |peers|
      invariant exact ==> |sigs| == Rank(bitmap, i)
      invariant exact ==> forall j :: 0 <= j < i && BitSet(bitmap, j) ==>
        Rank(bitmap, j) < |sigs| && sigs[Rank(bitmap, j)] == valid[peers[j]]
    {
      if i / 8 >= |bitmap| { break; }
      if BitAt(bitmap[i / 8], i % 8) {
        if peers[i] in valid {
          sigs := sigs + [valid[peers[i]]];
        }
      }
      i := i + 1;
    }
    if exact {
      forall j: nat | i <= j ensures !BitSet(bitmap, j) {
        if j < |peers| { assert j / 8 >= |bitmap|; }
      }
      NoBitsPast(bitmap, i, |peers|);
    }
  }

  // ---- decoders --------------------------------------------------------------------

  method CountBitsBefore(bitmap: Bytes, pos: nat) returns (count: nat)
    requires pos <= 8 * |bitmap|
    ensures count == Rank(bitmap, pos)
  {
    count := 0;
    for i := 0 to pos
      invariant count == Rank(bitmap, i)
    {
      if BitAt(bitmap[i / 8], i % 8) { count := count + 1; }
    }
  }

  /** None is the bitmap-payload mismatch error. */
  method BitmapSigners(bitmap: Bytes, sigs: seq<Sig>) returns (r: Option<seq<nat>>)
    ensures r == if Rank(bitmap, 8 * |bitmap|) == |sigs| then Some(Positions(bitmap, 8 * |bitmap|)) else None
  {
    var signers: seq<nat> := [];
    for i := 0 to 8 * |bitmap|
      invariant signers == Positions(bitmap, i)
    {
      if BitSet(bitmap, i) { signers := signers + [i]; }
    }
    PositionsLength(bitmap, 8 * |bitmap|);
    if |signers| != |sigs| { return None; }
    return Some(signers);
  }

  /** bitmapSigners and the rank-based decoders read an encoded certificate alike: the k-th signer is
      the peer whose rank is k, its signature is the k-th, and every signer is listed. */
  lemma DecodersAgree(bitmap: Bytes, sigs: seq<Sig>, peers: seq<Id>, valid: map<Id, Sig>)
    requires Encodes(bitmap, sigs, peers, valid)
    ensures Rank(bitmap, 8 * |bitmap|) == |sigs|
    ensures var ps := Positions(bitmap, 8 * |bitmap|);
      && |ps| == |sigs|
      && (forall k :: 0 <= k < |ps| ==>
            && ps[k] < |peers| && Rank(bitmap, ps[k]) == k
            && peers[ps[k]] in valid && sigs[k] == valid[peers[ps[k]]])
      && (forall i :: 0 <= i < |peers| && peers[i] in valid ==> i in ps)
  {
    var top := 8 * |bitmap|;
    PositionsRank(bitmap, top);
    if |peers| <= top {
      NoBitsPast(bitmap, |peers|, top);
    } else {
      assert forall i :: top <= i ==> !BitSet(bitmap, i);
      NoBitsPast(bitmap, top, |peers|);
    }
    forall i | 0 <= i < |peers| && peers[i] in valid ensures i in Positions(bitmap, top) {
      assert BitSet(bitmap, i);
    }
  }

  // ---- verifyPrepareQuorum ---------------------------------------------------------

  /** Enough validators are marked, and each marked one has a signature that is good for it. */
  ghost predicate Certified(bitmap: Option<Bytes>, sigs: Option<seq<Sig>>, n: nat, required: nat,
                            good: (nat, Sig) -> bool)
  {
    && bitmap.Some? && sigs.Some?
    && (forall i :: 0 <= i < n && BitSet(bitmap.value, i) ==>
          Rank(bitmap.value, i) < |sigs.value| && good(i, sigs.value[Rank(bitmap.value, i)]))
    && Rank(bitmap.value, n) >= required
  }

  function RequiredFor(degraded: bool, n: nat): nat
  {
    if degraded then 1 else QuorumRequired(n)
  }

  /** n is the number of peers; good(i, sig) says sig verifies for peer i over the block hash. */
  method VerifyPrepareQuorum(b: Block, n: nat, good: (nat, Sig) -> bool) returns (ok: bool)
    ensures ok <==> Certified(b.bitmap, b.prepareSigs, n, RequiredFor(IsDegradedBlock(b), n), good)
    ensures ok <==>
      && b.bitmap.Some? && b.prepareSigs.Some?
      && (forall i :: 0 <= i < n && BitSet(b.bitmap.value, i) ==>
            var k := Rank(b.bitmap.value, i);
            k < |b.prepareSigs.value| && good(i, b.prepareSigs.value[k]))
      && (if DEGRADED_LABEL in b.metadata && b.metadata[DEGRADED_LABEL] == "true" then Rank(b.bitmap.value, n) >= 1
          else 3 * Rank(b.bitmap.value, n) >= 2 * n)
  {
    if b.bitmap.None? || b.prepareSigs.None? { return false; }
    var bitmap, sigs := b.bitmap.value, b.prepareSigs.value;
    var required := QuorumRequired(n);
    if IsDegradedBlock(b) { required := 1; }
    var verified := 0;
    for i := 0 to n
      invariant verified == Rank(bitmap, i)
      invariant forall j :: 0 <= j < i && BitSet(bitmap, j) ==>
        Rank(bitmap, j) < |sigs| && good(j, sigs[Rank(bitmap, j)])
    {
      if i >= 8 * |bitmap| { continue; }
      if !BitAt(bitmap[i / 8], i % 8) { continue; }
      var sigIndex := CountBitsBefore(bitmap, i);
      assert BitSet(bitmap, i);
      if sigIndex >= |sigs| { return false; }
      if !good(i, sigs[sigIndex]) { return false; }
      verified := verified + 1;
    }
    return verified >= required;
  }

  /** The identities the bitmap marks among the first n peers. */
  function MarkedIds(bitmap: Bytes, peers: seq<Id>, n: nat): set<Id>
    requires n <= |peers|
  {
    if n == 0 then {}
    else MarkedIds(bitmap, peers, n - 1) + (if BitSet(bitmap, n - 1) then {peers[n - 1]} else {})
  }

  lemma {:induction false} MarkedIdsMeaning(bitmap: Bytes, peers: seq<Id>, n: nat, id: Id)
    requires n <= |peers|
    ensures id in MarkedIds(bitmap, peers, n) <==> exists i :: 0 <= i < n && BitSet(bitmap, i) && peers[i] == id
  {
    if n > 0 { MarkedIdsMeaning(bitmap, peers, n - 1, id); }
  }

  ghost predicate NoDuplicates(s: seq<Id>)
  {
    forall i, j :: 0 <= i < j < |s| ==> s[i] != s[j]
  }

  lemma {:induction false} MarkedAtMost(bitmap: Bytes, peers: seq<Id>, n: nat)
    requires n <= |peers|
    ensures |MarkedIds(bitmap, peers, n)| <= Rank(bitmap, n)
  {
    if n > 0 { MarkedAtMost(bitmap, peers, n - 1); }
  }

  lemma MarkStep(bitmap: Bytes, peers: seq<Id>, n: nat)
    requires 0 < n <= |peers| && NoDuplicates(peers)
    requires |MarkedIds(bitmap, peers, n - 1)| == Rank(bitmap, n - 1)
    ensures |MarkedIds(bitmap, peers, n)| == Rank(bitmap, n)
  {
    NotMarkedYet(bitmap, peers, n - 1);
    var before := MarkedIds(bitmap, peers, n - 1);
    assert |before + {peers[n - 1]}| == |before| + 1 && before + {} == before;
  }

  lemma {:induction false} MarkedCount(bitmap: Bytes, peers: seq<Id>, n: nat)
    requires n <= |peers| && NoDuplicates(peers)
    ensures |MarkedIds(bitmap, peers, n)| == Rank(bitmap, n)
  {
    if n > 0 {
      MarkedCount(bitmap, peers, n - 1);
      MarkStep(bitmap, peers, n);
    }
  }

  lemma NotMarkedYet(bitmap: Bytes, peers: seq<Id>, n: nat)
    requires n < |peers| && NoDuplicates(peers)
    ensures peers[n] !in MarkedIds(bitmap, peers, n)
  {
    MarkedIdsMeaning(bitmap, peers, n, peers[n]);
  }

  /** What the leader encodes passes verifyPrepareQuorum, whenever it collected enough signatures. */
  lemma EncodedIsCertified(bitmap: Bytes, sigs: seq<Sig>, peers: seq<Id>, valid: map<Id, Sig>,
                           required: nat, good: (nat, Sig) -> bool)
    requires Encodes(bitmap, sigs, peers, valid)
    requires forall id :: id in valid ==> id in peers
    requires forall i :: 0 <= i < |peers| && peers[i] in valid ==> good(i, valid[peers[i]])
    requires |valid| >= required
    ensures Certified(Some(bitmap), Some(sigs), |peers|, required, good)
  {
    var ids := MarkedIds(bitmap, peers, |peers|);
    forall id ensures id in ids <==> id in valid {
      MarkedIdsMeaning(bitmap, peers, |peers|, id);
      if id in valid {
        var i :| 0 <= i < |peers| && peers[i] == id;
        assert BitSet(bitmap, i);
      }
    }
    assert ids == valid.Keys;
    MarkedAtMost(bitmap, peers, |peers|);
  }

  /** An unlabelled block with good signatures passes exactly if no more than a third of the validators is missing. */
  lemma QuorumIffFewSilent(b: Block, peers: seq<Id>, valid: map<Id, Sig>, good: (nat, Sig) -> bool)
    requires b.bitmap.Some? && b.prepareSigs.Some? && !IsDegradedBlock(b) && NoDuplicates(peers)
    requires Encodes(b.bitmap.value, b.prepareSigs.value, peers, valid) && forall id :: id in valid ==> id in peers
    requires forall i :: 0 <= i < |peers| && peers[i] in valid ==> good(i, valid[peers[i]])
    ensures var n := |peers|;
      Certified(b.bitmap, b.prepareSigs, n, RequiredFor(IsDegradedBlock(b), n), good) <==> n - |valid| <= n / 3
  {
    EncodedCount(b.bitmap.value, b.prepareSigs.value, peers, valid);
    QuorumLeast(|peers|, |valid|);
  }

  /** The number of marks is the number of signers. */
  lemma EncodedCount(bitmap: Bytes, sigs: seq<Sig>, peers: seq<Id>, valid: map<Id, Sig>)
    requires Encodes(bitmap, sigs, peers, valid) && NoDuplicates(peers) && forall id :: id in valid ==> id in peers
    ensures Rank(bitmap, |peers|) == |valid|
  {
    var ids := MarkedIds(bitmap, peers, |peers|);
    forall id ensures id in ids <==> id in valid {
      MarkedIdsMeaning(bitmap, peers, |peers|, id);
      if id in valid {
        var i :| 0 <= i < |peers| && peers[i] == id;
        assert BitSet(bitmap, i);
      }
    }
    assert ids == valid.Keys;
    MarkedCount(bitmap, peers, |peers|);
  }

  /** The trimmed certificate: one signer, one signature. */
  ghost predicate OnlyBit(bitmap: Bytes, i: nat)
  {
    forall j: nat :: BitSet(bitmap, j) <==> j == i
  }

  lemma SingleIsCertified(bitmap: Bytes, sig: Sig, i: nat, n: nat, good: (nat, Sig) -> bool)
    requires OnlyBit(bitmap, i) && i < n && good(i, sig)
    ensures Certified(Some(bitmap), Some([sig]), n, 1, good)
  {
    RankMonotone(bitmap, i, n);
    forall m: nat | m <= i ensures Rank(bitmap, m) == 0 { NoneBelow(bitmap, m); }
  }

  lemma {:induction false} NoneBelow(bitmap: Bytes, m: nat)
    requires forall j :: 0 <= j < m ==> !BitSet(bitmap, j)
    ensures Rank(bitmap, m) == 0
  {
    if m > 0 { NoneBelow(bitmap, m - 1); }
  }

  lemma SingleRank(bitmap: Bytes, i: nat, n: nat)
    requires OnlyBit(bitmap, i) && i < n
    ensures Rank(bitmap, n) == 1
    decreases n
  {
    if n == i + 1 { NoneBelow(bitmap, i); } else { SingleRank(bitmap, i, n - 1); }
  }
}
