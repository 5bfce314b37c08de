/**
 Key rotation (3CP v2.0 section 8.2): the per-validator rotation history, the keys it makes
 authoritative in a cycle, and the admission rules (pkg/validation/key_rotation.go).
*/
module KeyRotation {
  import opened Common
  import opened Chain

  datatype Rotation = Rotation(
    hash: Bytes,
    submitter: Id,
    timestamp: int,
    lbl: string,
    newKey: PublicKey,
    newVrfKey: Bytes,
    effective: nat,
    expiry: nat,
    sigOld: Sig,
    sigNew: Sig)

  /** The fields both rotation signatures cover. */
  datatype Payload = Payload(submitter: Id, newKey: PublicKey, newVrfKey: Bytes, effective: nat, expiry: nat)

  function PayloadOf(r: Rotation): Payload
  {
    Payload(r.submitter, r.newKey, r.newVrfKey, r.effective, r.expiry)
  }

  /** What the verifier is given: does the stored hash commit to the entry, does a signature verify. */
  datatype Crypto = Crypto(hashOk: Rotation -> bool, verifies: (PublicKey, Payload, Sig) -> bool)

  const KEY_ROTATION_LABEL := "3cp:key-rotation:v1"
  const SIGNATURE_SIZE := 3309

  type History = seq<Rotation>

  // ---- active keys --------------------------------------------------------------

  /** The keys authoritative in a cycle, given the registered key and the history. */
  function ActiveKeys(base: PublicKey, hist: History, cycle: nat): seq<PublicKey>
    decreases hist
  {
    if hist == [] || cycle < hist[0].effective then [base]
    else if cycle <= hist[0].expiry then [base, hist[0].newKey]
    else ActiveKeys(hist[0].newKey, hist[1..], cycle)
  }

  /** K_j: the registered key, then the incoming key of each rotation. */
  function KeyAt(base: PublicKey, hist: History, j: nat): PublicKey
    requires j <= |hist|
  {
    if j == 0 then base else hist[j - 1].newKey
  }

  ghost predicate Sorted(hist: History)
  {
    forall i, j :: 0 <= i < j < |hist| ==> hist[i].effective < hist[j].effective
  }

  /** What rules 4 and 5 leave behind. */
  ghost predicate WellTimed(hist: History)
  {
    Sorted(hist) && forall i :: 0 <= i < |hist| ==> hist[i].effective <= hist[i].expiry
  }

  /** The first rotation whose window has not closed by the cycle. */
  ghost predicate FirstOpen(hist: History, cycle: nat, j: nat)
  {
    && j <= |hist|
    && (forall i :: 0 <= i < j ==> hist[i].expiry < cycle)
    && (j < |hist| ==> cycle <= hist[j].expiry)
  }

  /** The active set is [K_j] or [K_j, K_j+1], for the one j FirstOpen names. */
  lemma {:induction false} ActiveShape(base: PublicKey, hist: History, cycle: nat, j: nat)
    requires WellTimed(hist) && FirstOpen(hist, cycle, j)
    ensures ActiveKeys(base, hist, cycle) ==
            if j < |hist| && hist[j].effective <= cycle
            then [KeyAt(base, hist, j), KeyAt(base, hist, j + 1)]
            else [KeyAt(base, hist, j)]
    decreases j
  {
    if j > 0 {
      assert hist[0].expiry < cycle;
      ActiveShape(hist[0].newKey, hist[1..], cycle, j - 1);
    }
  }

  lemma {:induction false} SomeFirstOpen(hist: History, cycle: nat) returns (j: nat)
    ensures FirstOpen(hist, cycle, j)
  {
    if hist == [] || cycle <= hist[0].expiry {
      j := 0;
    } else {
      j := SomeFirstOpen(hist[1..], cycle);
      forall i | 0 <= i < j + 1 ensures hist[i].expiry < cycle {
        if i > 0 { assert hist[i] == hist[1..][i - 1]; }
      }
      j := j + 1;
    }
  }

  ghost predicate KeysDistinct(base: PublicKey, hist: History)
  {
    forall i, j :: 0 <= i < j <= |hist| ==> KeyAt(base, hist, i) != KeyAt(base, hist, j)
  }

  ghost predicate ExpiriesIncrease(hist: History)
  {
    forall i, j :: 0 <= i < j < |hist| ==> hist[i].expiry < hist[j].expiry
  }

  ghost predicate Share(s: seq<PublicKey>, t: seq<PublicKey>)
  {
    exists k :: k in s && k in t
  }

  /** No cycle boundary leaves a validator without a key valid on both sides. */
  ghost predicate Continuous(base: PublicKey, hist: History)
  {
    forall c: nat :: Share(ActiveKeys(base, hist, c), ActiveKeys(base, hist, c + 1))
  }

  lemma ContinuousStep(base: PublicKey, hist: History, c: nat)
    requires WellTimed(hist) && ExpiriesIncrease(hist)
    ensures Share(ActiveKeys(base, hist, c), ActiveKeys(base, hist, c + 1))
  {
    var j := SomeFirstOpen(hist, c);
    ActiveShape(base, hist, c, j);
    if j < |hist| && hist[j].expiry == c {
      assert FirstOpen(hist, c + 1, j + 1);
      ActiveShape(base, hist, c + 1, j + 1);
      assert KeyAt(base, hist, j + 1) in ActiveKeys(base, hist, c + 1);
    } else {
      assert FirstOpen(hist, c + 1, j);
      ActiveShape(base, hist, c + 1, j);
      assert KeyAt(base, hist, j) in ActiveKeys(base, hist, c);
    }
  }

  /** Where an expiry first fails to exceed the ones before it, two adjacent cycles share no key. */
  lemma GapWhere(base: PublicKey, hist: History, m: nat)
    requires WellTimed(hist) && KeysDistinct(base, hist)
    requires m + 1 < |hist| && hist[m + 1].expiry <= hist[m].expiry
    requires ExpiriesIncrease(hist[..m + 1])
    ensures !Share(ActiveKeys(base, hist, hist[m].expiry), ActiveKeys(base, hist, hist[m].expiry + 1))
  {
    var c := hist[m].expiry;
    EarlierExpired(hist, m);
    ActiveShape(base, hist, c, m);
    var j := SomeFirstOpen(hist, c + 1);
    assert j < |hist| ==> c + 1 <= hist[j].expiry;
    ActiveShape(base, hist, c + 1, j);
    NoSharedKey(base, hist, m, j);
  }

  lemma EarlierExpired(hist: History, m: nat)
    requires m + 1 < |hist| && hist[m + 1].expiry <= hist[m].expiry && ExpiriesIncrease(hist[..m + 1])
    ensures FirstOpen(hist, hist[m].expiry, m)
    ensures forall i :: 0 <= i <= m + 1 ==> hist[i].expiry <= hist[m].expiry
  {
    var t := hist[..m + 1];
    assert forall i :: 0 <= i < m ==> t[i].expiry < t[m].expiry;
    assert forall i :: 0 <= i <= m ==> t[i] == hist[i];
  }

  lemma NoSharedKey(base: PublicKey, hist: History, m: nat, j: nat)
    requires KeysDistinct(base, hist) && m + 2 <= j <= |hist|
    ensures forall i, k :: m <= i <= m + 1 && j <= k <= |hist| ==> KeyAt(base, hist, i) != KeyAt(base, hist, k)
  {
  }

  lemma {:induction false} FirstDrop(hist: History, i: nat, j: nat) returns (m: nat)
    requires i < j < |hist| && hist[j].expiry <= hist[i].expiry
    ensures m + 1 < |hist| && hist[m + 1].expiry <= hist[m].expiry
    ensures ExpiriesIncrease(hist[..m + 1])
    decreases j
  {
    if a, b :| 0 <= a < b < j && hist[b].expiry <= hist[a].expiry {
      m := FirstDrop(hist, a, b);
    } else {
      m := j - 1;
      assert i < m ==> hist[i].expiry < hist[m].expiry;
    }
  }

  /** Adjacent cycles always share a key exactly when expiries strictly increase. */
  lemma ContinuityIff(base: PublicKey, hist: History)
    requires WellTimed(hist) && KeysDistinct(base, hist)
    ensures Continuous(base, hist) <==> ExpiriesIncrease(hist)
  {
    if ExpiriesIncrease(hist) {
      forall c: nat ensures Share(ActiveKeys(base, hist, c), ActiveKeys(base, hist, c + 1)) {
        ContinuousStep(base, hist, c);
      }
    } else {
      var i, j :| 0 <= i < j < |hist| && hist[j].expiry <= hist[i].expiry;
      var m := FirstDrop(hist, i, j);
      GapWhere(base, hist, m);
    }
  }

  ghost predicate DisjointWindows(hist: History)
  {
    forall i, j :: 0 <= i < j < |hist| ==> hist[i].expiry < hist[j].effective
  }

  /** The documented table of a rotation: before its window the outgoing key, in it both, after it the incoming
      key.  The first and last lines reach as far as the neighbouring windows. */
  ghost predicate TableHolds(base: PublicKey, hist: History)
  {
    forall i, c: nat :: 0 <= i < |hist| ==> TableLine(base, hist, i, c)
  }

  ghost predicate TableLine(base: PublicKey, hist: History, i: nat, c: nat)
    requires i < |hist|
  {
    var outgoing, incoming := KeyAt(base, hist, i), KeyAt(base, hist, i + 1);
    && ((i > 0 ==> hist[i - 1].expiry < c) && c < hist[i].effective ==> ActiveKeys(base, hist, c) == [outgoing])
    && (hist[i].effective <= c <= hist[i].expiry ==> ActiveKeys(base, hist, c) == [outgoing, incoming])
    && (hist[i].expiry < c && (i + 1 < |hist| ==> c < hist[i + 1].effective) ==>
          ActiveKeys(base, hist, c) == [incoming])
  }

  /** Between two windows, before the first and after the last, exactly one key is active. */
  lemma OutsideWindows(base: PublicKey, hist: History, i: nat, c: nat)
    requires WellTimed(hist) && i <= |hist|
    requires forall k :: 0 <= k < i ==> hist[k].expiry < c
    requires i < |hist| ==> c < hist[i].effective
    ensures ActiveKeys(base, hist, c) == [KeyAt(base, hist, i)]
  {
    ActiveShape(base, hist, c, i);
  }

  /** The documented table holds in every cycle exactly when no two windows overlap. */
  lemma TableIffDisjoint(base: PublicKey, hist: History)
    requires WellTimed(hist) && KeysDistinct(base, hist)
    ensures TableHolds(base, hist) <==> DisjointWindows(hist)
  {
    if DisjointWindows(hist) {
      forall i, c: nat | 0 <= i < |hist| ensures TableLine(base, hist, i, c) {
        DisjointLine(base, hist, i, c);
      }
    } else {
      var n, i :| 0 <= n < i < |hist| && hist[i].effective <= hist[n].expiry;
      var c := hist[i].effective;
      var j := SomeFirstOpen(hist, c);
      assert j <= n;
      ActiveShape(base, hist, c, j);
      assert hist[i].effective <= c <= hist[i].expiry;
      assert ActiveKeys(base, hist, c) != [KeyAt(base, hist, i), KeyAt(base, hist, i + 1)];
      assert !TableLine(base, hist, i, c);
    }
  }

  lemma DisjointLine(base: PublicKey, hist: History, i: nat, c: nat)
    requires WellTimed(hist) && DisjointWindows(hist) && i < |hist|
    ensures TableLine(base, hist, i, c)
  {
    assert i > 0 ==> forall k :: 0 <= k < i - 1 ==> hist[k].expiry < hist[i - 1].effective;
    if hist[i].effective <= c <= hist[i].expiry {
      ActiveShape(base, hist, c, i);
    } else if (i > 0 ==> hist[i - 1].expiry < c) && c < hist[i].effective {
      OutsideWindows(base, hist, i, c);
    } else if hist[i].expiry < c && (i + 1 < |hist| ==> c < hist[i + 1].effective) {
      OutsideWindows(base, hist, i + 1, c);
    }
  }

  /** A rotation that takes effect later does not touch a cycle. */
  lemma {:induction false} LaterRotationInvisible(base: PublicKey, hist: History, r: Rotation, c: nat)
    requires c < r.effective
    ensures ActiveKeys(base, hist + [r], c) == ActiveKeys(base, hist, c)
    decreases hist
  {
    if hist != [] {
      assert (hist + [r])[1..] == hist[1..] + [r];
      LaterRotationInvisible(hist[0].newKey, hist[1..], r, c);
    }
  }

  /** Exactly which cycles a newly recorded rotation touches: those from its effective cycle on at which every
      earlier window has closed. */
  lemma {:induction false} AppendVisibleIff(base: PublicKey, hist: History, r: Rotation, c: nat)
    requires WellTimed(hist + [r]) && r.newKey != KeyAt(base, hist, |hist|)
    ensures ActiveKeys(base, hist + [r], c) != ActiveKeys(base, hist, c) <==> r.effective <= c && AllClosed(hist, c)
    decreases hist
  {
    var all := hist + [r];
    if hist != [] {
      assert all[0] == hist[0] && all[1..] == hist[1..] + [r];
      assert WellTimed(hist[1..] + [r]) by {
        assert forall i :: 0 <= i < |all| - 1 ==> all[1..][i] == all[i + 1];
      }
      assert all[0].effective < all[|hist|].effective == r.effective;
      AppendVisibleIff(hist[0].newKey, hist[1..], r, c);
      ClosedTail(hist, c);
    }
  }

  /** In its effective cycle itself, whatever its key. */
  lemma {:induction false} AppendNowIff(base: PublicKey, hist: History, r: Rotation)
    requires WellTimed(hist + [r])
    ensures ActiveKeys(base, hist + [r], r.effective) != ActiveKeys(base, hist, r.effective) <==>
            AllClosed(hist, r.effective)
    decreases hist
  {
    var all := hist + [r];
    assert all[|hist|] == r;
    if hist != [] {
      assert all[0] == hist[0] && all[1..] == hist[1..] + [r];
      assert WellTimed(hist[1..] + [r]) by {
        assert forall i :: 0 <= i < |all| - 1 ==> all[1..][i] == all[i + 1];
      }
      assert all[0].effective < all[|hist|].effective;
      AppendNowIff(hist[0].newKey, hist[1..], r);
      ClosedTail(hist, r.effective);
    }
  }

  /** Several rotations recorded, none effective before c: only the first can touch c, and only if it is effective
      in c and all earlier windows have closed. */
  lemma TailChangesIff(base: PublicKey, hist: History, tail: History, c: nat)
    requires WellTimed(hist + tail) && forall i :: 0 <= i < |tail| ==> tail[i].effective >= c
    ensures ActiveKeys(base, hist + tail, c) != ActiveKeys(base, hist, c) <==>
            tail != [] && tail[0].effective == c && AllClosed(hist, c)
  {
    var all := hist + tail;
    if tail == [] {
      assert all == hist;
    } else {
      var first := hist + [tail[0]];
      assert all == first + tail[1..];
      forall i | 0 <= i < |tail[1..]| ensures tail[1..][i].effective > c {
        assert all[|hist|].effective < all[|hist| + 1 + i].effective;
      }
      TailInvisible(base, first, tail[1..], c);
      assert WellTimed(first) by { assert forall i :: 0 <= i < |first| ==> first[i] == all[i]; }
      if tail[0].effective == c {
        AppendNowIff(base, hist, tail[0]);
      } else {
        LaterRotationInvisible(base, hist, tail[0], c);
      }
    }
  }

  lemma {:induction false} TailInvisible(base: PublicKey, hist: History, tail: History, c: nat)
    requires forall i :: 0 <= i < |tail| ==> tail[i].effective > c
    ensures ActiveKeys(base, hist + tail, c) == ActiveKeys(base, hist, c)
    decreases tail
  {
    if tail == [] {
      assert hist + tail == hist;
    } else {
      var init, last := tail[..|tail| - 1], tail[|tail| - 1];
      TailInvisible(base, hist, init, c);
      assert hist + tail == (hist + init) + [last];
      LaterRotationInvisible(base, hist + init, last, c);
    }
  }

  ghost predicate AllClosed(hist: History, c: nat)
  {
    forall i :: 0 <= i < |hist| ==> hist[i].expiry < c
  }

  lemma {:induction false} SomeClosedCycle(hist: History, from: nat) returns (c: nat)
    ensures c >= from && AllClosed(hist, c)
  {
    if hist == [] {
      c := from;
    } else {
      c := SomeClosedCycle(hist[1..], if from > hist[0].expiry then from else hist[0].expiry + 1);
      ClosedTail(hist, c);
    }
  }

  lemma ClosedTail(hist: History, c: nat)
    requires hist != []
    ensures AllClosed(hist, c) <==> hist[0].expiry < c && AllClosed(hist[1..], c)
  {
    if hist[0].expiry < c && AllClosed(hist[1..], c) {
      forall i | 0 <= i < |hist| ensures hist[i].expiry < c {
        if i > 0 { assert hist[i] == hist[1..][i - 1]; }
      }
    }
  }

  /** A re-registered key matters exactly until the first recorded rotation has expired. */
  lemma ResetVisibleIff(base: PublicKey, base': PublicKey, hist: History, c: nat)
    ensures ActiveKeys(base, hist, c) != ActiveKeys(base', hist, c) <==>
            base != base' && (hist == [] || c < hist[0].effective || c <= hist[0].expiry)
  {
    if hist == [] || c < hist[0].effective {
      assert ActiveKeys(base, hist, c)[0] == base && ActiveKeys(base', hist, c)[0] == base';
    } else if c <= hist[0].expiry {
      assert ActiveKeys(base, hist, c)[0] == base && ActiveKeys(base', hist, c)[0] == base';
    }
  }

  // ---- validator state and admission --------------------------------------------

  datatype KeyState = KeyState(validators: map<Id, PublicKey>, rotations: map<Id, History>)

  datatype Config = Config(leadTime: nat, minOverlap: nat)

  function HistoryOf(ks: KeyState, id: Id): History
  {
    if id in ks.rotations then ks.rotations[id] else []
  }

  /** None for an unknown validator. */
  function Active(ks: KeyState, id: Id, cycle: nat): Option<seq<PublicKey>>
  {
    if id in ks.validators then Some(ActiveKeys(ks.validators[id], HistoryOf(ks, id), cycle)) else None
  }

  /** Does a signature over a block hash verify under a public key. */
  type BlockVerifier = (PublicKey, BlockHash, Sig) -> bool

  function KeysFor(ks: KeyState, id: Id, cycle: nat): seq<PublicKey>
  {
    OrEmpty(Active(ks, id, cycle))
  }

  predicate VerifiesUnder(ver: BlockVerifier, keys: seq<PublicKey>, h: BlockHash, sig: Sig)
  {
    exists k :: k in keys && ver(k, h, sig)
  }

  method VerifyUnder(ver: BlockVerifier, keys: seq<PublicKey>, h: BlockHash, sig: Sig) returns (ok: bool)
    ensures ok <==> VerifiesUnder(ver, keys, h, sig)
  {
    for i := 0 to |keys|
      invariant forall j :: 0 <= j < i ==> !ver(keys[j], h, sig)
    {
      if ver(keys[i], h, sig) { return true; }
    }
    return false;
  }

  predicate SignedByActive(ks: KeyState, cr: Crypto, r: Rotation, cycle: nat)
  {
    Active(ks, r.submitter, cycle).Some? &&
    exists k :: k in Active(ks, r.submitter, cycle).value && cr.verifies(k, PayloadOf(r), r.sigOld)
  }

  /** Rule 5: strictly newer than everything recorded for the submitter. */
  predicate Newest(ks: KeyState, r: Rotation)
  {
    var h := HistoryOf(ks, r.submitter);
    h == [] || h[|h| - 1].effective < r.effective
  }

  function AuthorisingCycle(r: Rotation): nat
  {
    if r.effective == 0 then 0 else r.effective - 1
  }

  /** The five admission rules and the well-formedness checks before them. */
  predicate Accepts(ks: KeyState, cfg: Config, cr: Crypto, cycle: nat, r: Rotation)
  {
    && r.lbl == KEY_ROTATION_LABEL
    && cr.hashOk(r)
    && r.submitter in ks.validators
    && |r.sigOld| == SIGNATURE_SIZE && |r.sigNew| == SIGNATURE_SIZE
    && SignedByActive(ks, cr, r, AuthorisingCycle(r))              // rule 1
    && cr.verifies(r.newKey, PayloadOf(r), r.sigNew)               // rule 2
    && r.effective >= cycle + cfg.leadTime                         // rule 3
    && r.expiry >= r.effective + cfg.minOverlap                    // rule 4
    && Newest(ks, r)                                               // rule 5
  }

  function Record(ks: KeyState, r: Rotation): KeyState
  {
    ks.(rotations := ks.rotations[r.submitter := HistoryOf(ks, r.submitter) + [r]])
  }

  ghost predicate HistoriesWellTimed(ks: KeyState)
  {
    forall id :: id in ks.rotations ==> WellTimed(ks.rotations[id])
  }

  /** Accepting a rotation keeps every history well timed. */
  lemma AcceptKeepsWellTimed(ks: KeyState, cfg: Config, cr: Crypto, cycle: nat, r: Rotation)
    requires HistoriesWellTimed(ks) && Accepts(ks, cfg, cr, cycle, r)
    ensures HistoriesWellTimed(Record(ks, r))
  {
    var h := HistoryOf(ks, r.submitter);
    assert WellTimed(h);
    forall i | 0 <= i < |h| ensures h[i].effective < r.effective {
      if i < |h| - 1 { assert h[i].effective < h[|h| - 1].effective; }
    }
    assert WellTimed(h + [r]);
  }

  // ---- chain of trust -------------------------------------------------------------

  /** r is authorised after hist, for a validator registered with base: its hash commits to it, a key active in the
      cycle before it takes effect signed all of it, the incoming key did as well, it is wide enough and newer. */
  ghost predicate Vouched(base: PublicKey, hist: History, r: Rotation, cr: Crypto, minOverlap: nat)
  {
    var signed := Payload(r.submitter, r.newKey, r.newVrfKey, r.effective, r.expiry);
    && cr.hashOk(r)
    && (exists k :: k in ActiveKeys(base, hist, if r.effective == 0 then 0 else r.effective - 1) &&
          cr.verifies(k, signed, r.sigOld))
    && cr.verifies(r.newKey, signed, r.sigNew)
    && r.expiry - r.effective >= minOverlap
    && (hist == [] || hist[|hist| - 1].effective < r.effective)
  }

  /** Every rotation of the history is the validator's and authorised by what stands before it. */
  ghost predicate ChainOfTrust(base: PublicKey, id: Id, hist: History, cr: Crypto, minOverlap: nat)
  {
    forall k {:trigger hist[k]} :: 0 <= k < |hist| ==>
      hist[k].submitter == id && Vouched(base, hist[..k], hist[k], cr, minOverlap)
  }

  lemma ChainExtends(base: PublicKey, id: Id, hist: History, r: Rotation, cr: Crypto, minOverlap: nat)
    requires ChainOfTrust(base, id, hist, cr, minOverlap)
    requires r.submitter == id && Vouched(base, hist, r, cr, minOverlap)
    ensures ChainOfTrust(base, id, hist + [r], cr, minOverlap)
  {
    var all := hist + [r];
    forall k | 0 <= k < |all| ensures all[k].submitter == id && Vouched(base, all[..k], all[k], cr, minOverlap) {
      assert all[..k] == hist[..k];
      if k == |hist| { assert hist[..k] == hist; }
    }
  }

  /** Only registered validators have rotations, and each history is a chain of trust from the registered key. */
  ghost predicate Trusted(ks: KeyState, cr: Crypto, minOverlap: nat)
  {
    forall id {:trigger HistoryOf(ks, id)} :: HistoryOf(ks, id) != [] ==>
      id in ks.validators && ChainOfTrust(ks.validators[id], id, HistoryOf(ks, id), cr, minOverlap)
  }

  lemma RecordTrusted(ks: KeyState, r: Rotation, cr: Crypto, minOverlap: nat)
    requires Trusted(ks, cr, minOverlap) && r.submitter in ks.validators
    requires Vouched(ks.validators[r.submitter], HistoryOf(ks, r.submitter), r, cr, minOverlap)
    ensures Trusted(Record(ks, r), cr, minOverlap)
  {
    var after, hist := Record(ks, r), HistoryOf(ks, r.submitter);
    ChainExtends(ks.validators[r.submitter], r.submitter, hist, r, cr, minOverlap);
    forall id | HistoryOf(after, id) != []
      ensures id in after.validators && ChainOfTrust(after.validators[id], id, HistoryOf(after, id), cr, minOverlap)
    {
      if id != r.submitter { assert HistoryOf(after, id) == HistoryOf(ks, id); }
    }
  }

  /** An authorised rotation of a registered validator, labelled, with signatures of the right size, and announced
      early enough. */
  ghost predicate Due(ks: KeyState, cfg: Config, cr: Crypto, cycle: nat, r: Rotation)
  {
    && r.submitter in ks.validators
    && Vouched(ks.validators[r.submitter], HistoryOf(ks, r.submitter), r, cr, cfg.minOverlap)
    && r.lbl == "3cp:key-rotation:v1" && |r.sigOld| == 3309 == |r.sigNew| && cycle + cfg.leadTime <= r.effective
  }

  /** Those, all of them and no others, a node accepts. */
  lemma AcceptsIff(ks: KeyState, cfg: Config, cr: Crypto, cycle: nat, r: Rotation)
    ensures Accepts(ks, cfg, cr, cycle, r) <==> Due(ks, cfg, cr, cycle, r)
  {
  }

  ghost function LatestKey(ks: KeyState, id: Id): PublicKey
    requires id in ks.validators
  {
    KeyAt(ks.validators[id], HistoryOf(ks, id), |HistoryOf(ks, id)|)
  }

  /** Exactly which cycles of its submitter an accepted rotation touches. */
  lemma RecordVisibleIff(ks: KeyState, cfg: Config, cr: Crypto, cycle: nat, r: Rotation, c: nat)
    requires HistoriesWellTimed(ks) && Accepts(ks, cfg, cr, cycle, r) && r.newKey != LatestKey(ks, r.submitter)
    ensures Active(Record(ks, r), r.submitter, c) != Active(ks, r.submitter, c) <==>
            r.effective <= c && AllClosed(HistoryOf(ks, r.submitter), c)
  {
    AcceptKeepsWellTimed(ks, cfg, cr, cycle, r);
    assert WellTimed(Record(ks, r).rotations[r.submitter]);
    AppendVisibleIff(ks.validators[r.submitter], HistoryOf(ks, r.submitter), r, c);
  }

  /** The rules let an expiry fail to increase: two accepted rotations, and two adjacent cycles without a common key. */
  lemma AcceptedGap(ks: KeyState, cfg: Config, cr: Crypto, first: nat, second: nat, r1: Rotation, r2: Rotation)
    requires r1.submitter == r2.submitter && HistoryOf(ks, r1.submitter) == []
    requires Accepts(ks, cfg, cr, first, r1) && Accepts(Record(ks, r1), cfg, cr, second, r2)
    requires r1.newKey != r2.newKey && ks.validators[r1.submitter] !in {r1.newKey, r2.newKey}
    requires r2.expiry <= r1.expiry
    ensures var keys := Record(Record(ks, r1), r2);
      !Share(KeysFor(keys, r1.submitter, r1.expiry), KeysFor(keys, r1.submitter, r1.expiry + 1))
  {
    assert HistoryOf(Record(ks, r1), r1.submitter) == [r1];
    assert HistoryOf(Record(Record(ks, r1), r2), r1.submitter) == [r1, r2];
    PairGap(ks.validators[r1.submitter], r1, r2);
  }

  lemma PairGap(base: PublicKey, r1: Rotation, r2: Rotation)
    requires r1.effective < r2.effective <= r2.expiry <= r1.expiry
    requires r1.newKey != r2.newKey && base !in {r1.newKey, r2.newKey}
    ensures !Share(ActiveKeys(base, [r1, r2], r1.expiry), ActiveKeys(base, [r1, r2], r1.expiry + 1))
  {
    assert [r1, r2][1..] == [r2] && [r2][1..] == [];
    assert ActiveKeys(base, [r1, r2], r1.expiry) == [base, r1.newKey];
    assert ActiveKeys(r1.newKey, [r2], r1.expiry + 1) == [r2.newKey];
  }

  /** What it takes to make a rotation: a signer, and the hash that commits to an entry. */
  ghost predicate Makes(cr: Crypto, sign: (PublicKey, Payload) -> Sig, hashOf: Rotation -> Bytes)
  {
    && (forall k, p :: |sign(k, p)| == SIGNATURE_SIZE && cr.verifies(k, p, sign(k, p)))
    && (forall r: Rotation :: cr.hashOk(r.(hash := hashOf(r))))
  }

  function Made(id: Id, outgoing: PublicKey, incoming: PublicKey, effective: nat, expiry: nat,
                sign: (PublicKey, Payload) -> Sig, hashOf: Rotation -> Bytes): Rotation
  {
    var p := Payload(id, incoming, [], effective, expiry);
    var r := Rotation([], id, 0, KEY_ROTATION_LABEL, incoming, [], effective, expiry,
                      sign(outgoing, p), sign(incoming, p));
    r.(hash := hashOf(r))
  }

  lemma MadeAccepted(ks: KeyState, cfg: Config, cr: Crypto, cycle: nat, id: Id, outgoing: PublicKey,
                     incoming: PublicKey, effective: nat, expiry: nat,
                     sign: (PublicKey, Payload) -> Sig, hashOf: Rotation -> Bytes)
    requires Makes(cr, sign, hashOf) && id in ks.validators && effective > 0
    requires outgoing in Active(ks, id, effective - 1).value
    requires effective >= cycle + cfg.leadTime && expiry >= effective + cfg.minOverlap
    requires Newest(ks, Made(id, outgoing, incoming, effective, expiry, sign, hashOf))
    ensures Accepts(ks, cfg, cr, cycle, Made(id, outgoing, incoming, effective, expiry, sign, hashOf))
  {
    var r := Made(id, outgoing, incoming, effective, expiry, sign, hashOf);
    assert cr.verifies(outgoing, PayloadOf(r), r.sigOld);
  }

  lemma FirstRecorded(ks: KeyState, r: Rotation)
    requires r.submitter in ks.validators && HistoryOf(ks, r.submitter) == [] && r.effective <= r.expiry
    ensures HistoryOf(Record(ks, r), r.submitter) == [r] && r.submitter in Record(ks, r).validators
    ensures Active(Record(ks, r), r.submitter, r.effective) == Some([ks.validators[r.submitter], r.newKey])
  {
  }

  /** Whatever the lead time and the overlap, and whichever the cycle, a validator can submit two such rotations. */
  lemma GapReachable(ks: KeyState, cfg: Config, cr: Crypto, cycle: nat, id: Id, k1: PublicKey, k2: PublicKey,
                     sign: (PublicKey, Payload) -> Sig, hashOf: Rotation -> Bytes) returns (r1: Rotation, r2: Rotation)
    requires Makes(cr, sign, hashOf) && id in ks.validators && HistoryOf(ks, id) == []
    requires k1 != k2 && ks.validators[id] !in {k1, k2}
    ensures r1.submitter == id == r2.submitter
    ensures Accepts(ks, cfg, cr, cycle, r1) && Accepts(Record(ks, r1), cfg, cr, cycle, r2)
    ensures var keys := Record(Record(ks, r1), r2);
      !Share(KeysFor(keys, id, r1.expiry), KeysFor(keys, id, r1.expiry + 1))
  {
    var e := cycle + cfg.leadTime + 1;
    r1, r2 := MadeTwice(ks, cfg, cr, cycle, id, k1, k2, e, e + cfg.minOverlap + 1, sign, hashOf);
    AcceptedGap(ks, cfg, cr, cycle, cycle, r1, r2);
  }

  lemma MadeTwice(ks: KeyState, cfg: Config, cr: Crypto, cycle: nat, id: Id, k1: PublicKey, k2: PublicKey,
                  e: nat, expiry: nat, sign: (PublicKey, Payload) -> Sig, hashOf: Rotation -> Bytes)
    returns (r1: Rotation, r2: Rotation)
    requires Makes(cr, sign, hashOf) && id in ks.validators && HistoryOf(ks, id) == []
    requires e > 0 && e >= cycle + cfg.leadTime && expiry >= e + cfg.minOverlap + 1
    ensures Accepts(ks, cfg, cr, cycle, r1) && Accepts(Record(ks, r1), cfg, cr, cycle, r2)
    ensures r1.submitter == id == r2.submitter && r1.newKey == k1 && r2.newKey == k2 && r1.expiry == expiry == r2.expiry
  {
    var base := ks.validators[id];
    r1 := Made(id, base, k1, e, expiry, sign, hashOf);
    r2 := Made(id, base, k2, e + 1, expiry, sign, hashOf);
    assert Active(ks, id, e - 1) == Some([base]);
    MadeAccepted(ks, cfg, cr, cycle, id, base, k1, e, expiry, sign, hashOf);
    FirstRecorded(ks, r1);
    MadeAccepted(Record(ks, r1), cfg, cr, cycle, id, base, k2, e + 1, expiry, sign, hashOf);
  }

  // ---- histories that lack some rotations -----------------------------------------

  /** The rotations of a history that are kept. */
  function Kept(hist: History, keep: seq<bool>): History
    requires |keep| == |hist|
  {
    if hist == [] then []
    else (if keep[0] then [hist[0]] else []) + Kept(hist[1..], keep[1..])
  }

  /** A rotation no cycle shows: a longer window stays open over its own, and over the start of the next one's. */
  ghost predicate Buried(hist: History, i: nat)
  {
    i + 1 < |hist| && Covered(hist, i) && Covered(hist, i + 1)
  }

  ghost predicate Covered(hist: History, i: nat)
    requires i < |hist|
  {
    exists k :: 0 <= k < i && hist[i].expiry <= hist[k].expiry
  }

  /** Seen from one cycle: once all earlier windows have closed, so have its own and the next one's. */
  ghost predicate HiddenAt(hist: History, i: nat, c: nat)
  {
    AllClosed(hist[..if i < |hist| then i else |hist|], c) ==>
      i + 1 < |hist| && hist[i].expiry < c && hist[i + 1].expiry < c
  }

  lemma BuriedHidden(hist: History, i: nat, c: nat)
    requires i < |hist| && Buried(hist, i)
    ensures HiddenAt(hist, i, c)
  {
    if AllClosed(hist[..i], c) {
      var k :| 0 <= k < i && hist[i].expiry <= hist[k].expiry;
      assert hist[..i][k].expiry < c;
      var m :| 0 <= m < i + 1 && hist[i + 1].expiry <= hist[m].expiry;
      assert m < i ==> hist[..i][m].expiry < c;
    }
  }

  /** Without rotations hidden in a cycle the keys of that cycle are the same. */
  lemma {:induction false} KeptAgrees(base: PublicKey, base': PublicKey, hist: History, keep: seq<bool>, c: nat)
    requires WellTimed(hist) && |keep| == |hist|
    requires forall i :: 0 <= i < |hist| && !keep[i] ==> HiddenAt(hist, i, c)
    requires base == base' || (hist != [] && hist[0].expiry < c)
    ensures ActiveKeys(base', Kept(hist, keep), c) == ActiveKeys(base, hist, c)
    decreases hist
  {
    if hist != [] {
      var rest := hist[1..];
      if !keep[0] { assert HiddenAt(hist, 0, c); }
      if hist[0].expiry < c {
        forall i | 0 <= i < |rest| && !keep[1..][i] ensures HiddenAt(rest, i, c) {
          HiddenTail(hist, i, c);
        }
        assert keep[0] ==> Kept(hist, keep)[1..] == Kept(rest, keep[1..]);
        assert !keep[0] ==> Kept(hist, keep) == Kept(rest, keep[1..]);
        KeptAgrees(hist[0].newKey, if keep[0] then hist[0].newKey else base', rest, keep[1..], c);
      }
    }
  }

  lemma HiddenTail(hist: History, i: nat, c: nat)
    requires i + 1 < |hist| && HiddenAt(hist, i + 1, c) && hist[0].expiry < c
    ensures HiddenAt(hist[1..], i, c)
  {
    if AllClosed(hist[1..][..i], c) {
      ClosedTail(hist[..i + 1], c);
      assert hist[..i + 1][1..] == hist[1..][..i];
    }
  }

  /** The keys of a history are the base and the incoming ones. */
  lemma {:induction false} KeysFrom(base: PublicKey, hist: History, c: nat, k: PublicKey)
    requires k in ActiveKeys(base, hist, c)
    ensures k == base || exists i :: 0 <= i < |hist| && hist[i].newKey == k
    decreases hist
  {
    if hist != [] && hist[0].effective <= c && hist[0].expiry < c {
      KeysFrom(hist[0].newKey, hist[1..], c, k);
      if k != hist[0].newKey {
        var i :| 0 <= i < |hist[1..]| && hist[1..][i].newKey == k;
        assert hist[i + 1].newKey == k;
      }
    }
  }

  /** A rotation that is not buried has a cycle in which its incoming key is active. */
  lemma SomeCycleShows(base: PublicKey, hist: History, i: nat) returns (c: nat)
    requires WellTimed(hist) && i < |hist| && !Buried(hist, i)
    ensures hist[i].newKey in ActiveKeys(base, hist, c)
  {
    if !Covered(hist, i) {
      c := hist[i].expiry;
      assert FirstOpen(hist, c, i);
      ActiveShape(base, hist, c, i);
    } else if i + 1 < |hist| {
      c := hist[i + 1].expiry;
      assert FirstOpen(hist, c, i + 1);
      ActiveShape(base, hist, c, i + 1);
    } else {
      c := SomeClosedCycle(hist, 0);
      assert FirstOpen(hist, c, i + 1);
      ActiveShape(base, hist, c, i + 1);
    }
  }

  lemma {:induction false} KeptIsIn(hist: History, keep: seq<bool>, r: Rotation)
    requires |keep| == |hist|
    ensures r in Kept(hist, keep) <==> exists i :: 0 <= i < |hist| && keep[i] && hist[i] == r
  {
    if hist != [] {
      KeptIsIn(hist[1..], keep[1..], r);
      if i :| 0 <= i < |hist| && keep[i] && hist[i] == r && i > 0 {
        assert keep[1..][i - 1] && hist[1..][i - 1] == r;
      }
      if i :| 0 <= i < |hist[1..]| && keep[1..][i] && hist[1..][i] == r {
        assert keep[i + 1] && hist[i + 1] == r;
      }
    }
  }

  /** Two histories make the same keys authoritative in every cycle. */
  ghost predicate SameKeys(base: PublicKey, h1: History, h2: History)
  {
    forall c: nat :: ActiveKeys(base, h1, c) == ActiveKeys(base, h2, c)
  }

  /** A history and a part of it agree in every cycle iff all they differ in is buried. */
  lemma KeptAgreesIff(base: PublicKey, hist: History, keep: seq<bool>)
    requires WellTimed(hist) && KeysDistinct(base, hist) && |keep| == |hist|
    ensures SameKeys(base, Kept(hist, keep), hist) <==>
            (forall i :: 0 <= i < |hist| && !keep[i] ==> Buried(hist, i))
  {
    if forall i :: 0 <= i < |hist| && !keep[i] ==> Buried(hist, i) {
      forall c: nat ensures ActiveKeys(base, Kept(hist, keep), c) == ActiveKeys(base, hist, c) {
        forall i | 0 <= i < |hist| && !keep[i] ensures HiddenAt(hist, i, c) { BuriedHidden(hist, i, c); }
        KeptAgrees(base, base, hist, keep, c);
      }
    } else {
      var i :| 0 <= i < |hist| && !keep[i] && !Buried(hist, i);
      LostKeyShows(base, hist, keep, i);
    }
  }

  lemma OneIndex(base: PublicKey, hist: History, i: nat, m: nat)
    requires KeysDistinct(base, hist) && i < |hist| && m < |hist| && hist[i].newKey == hist[m].newKey
    ensures i == m
  {
    assert KeyAt(base, hist, i + 1) == KeyAt(base, hist, m + 1);
  }

  lemma LostKeyShows(base: PublicKey, hist: History, keep: seq<bool>, i: nat)
    requires WellTimed(hist) && KeysDistinct(base, hist) && |keep| == |hist|
    requires i < |hist| && !keep[i] && !Buried(hist, i)
    ensures !SameKeys(base, Kept(hist, keep), hist)
  {
    var c := SomeCycleShows(base, hist, i);
    var key := hist[i].newKey;
    assert KeyAt(base, hist, i + 1) == key && KeyAt(base, hist, 0) == base;
    if key in ActiveKeys(base, Kept(hist, keep), c) {
      KeysFrom(base, Kept(hist, keep), c, key);
      var k :| 0 <= k < |Kept(hist, keep)| && Kept(hist, keep)[k].newKey == key;
      KeptIsIn(hist, keep, Kept(hist, keep)[k]);
      var m :| 0 <= m < |hist| && keep[m] && hist[m] == Kept(hist, keep)[k];
      OneIndex(base, hist, i, m);
      assert false;
    }
    assert ActiveKeys(base, Kept(hist, keep), c) != ActiveKeys(base, hist, c);
  }

  datatype RotationError =
    InvalidEntry | UnknownSubmitter | InvalidOldSig | InvalidNewSig | TooSoon | OverlapTooShort | Duplicate

  class KeyRotationValidator {
    var validators: map<Id, PublicKey>
    var currentCycle: nat
    const cfg: Config
    var rotations: map<Id, History>

    ghost function State(): KeyState
      reads this
    {
      KeyState(validators, rotations)
    }

    ghost predicate Valid()
      reads this
    {
      forall id :: id in rotations ==> Sorted(rotations[id])
    }

    constructor (validators: map<Id, PublicKey>, currentCycle: nat, cfg: Config)
      ensures Valid() && State() == KeyState(validators, map[])
      ensures this.currentCycle == currentCycle && this.cfg == cfg
    {
      this.validators, this.currentCycle, this.cfg := validators, currentCycle, cfg;
      rotations := map[];
    }

    method SetValidatorSet(validators: map<Id, PublicKey>)
      requires Valid()
      modifies this`validators
      ensures Valid() && State() == old(State()).(validators := validators)
    {
      this.validators := validators;
    }

    method SetCycle(cycle: nat)
      requires Valid()
      modifies this`currentCycle
      ensures Valid() && currentCycle == cycle && State() == old(State())
    {
      currentCycle := cycle;
    }

    /** The loop over the history. */
    method GetActivePublicKey(id: Id, cycle: nat) returns (r: Option<seq<PublicKey>>)
      ensures r == Active(State(), id, cycle)
    {
      if id !in validators { return None; }
      var current := validators[id];
      var hist := if id in rotations then rotations[id] else [];
      for i := 0 to |hist|
        invariant ActiveKeys(current, hist[i..], cycle) == ActiveKeys(validators[id], hist, cycle)
      {
        var rot := hist[i];
        assert hist[i..][0] == rot && hist[i..][1..] == hist[i + 1..];
        if cycle < rot.effective { return Some([current]); }
        if rot.effective <= cycle <= rot.expiry { return Some([current, rot.newKey]); }
        current := rot.newKey;
      }
      return Some([current]);
    }

    /** The overlap-aware signature check of the PREPARE and COMMIT phases. */
    method VerifySignatureWithOverlap(id: Id, h: BlockHash, sig: Sig, cycle: nat, ver: BlockVerifier)
      returns (ok: bool)
      ensures ok <==> VerifiesUnder(ver, KeysFor(State(), id, cycle), h, sig)
    {
      var keys := GetActivePublicKey(id, cycle);
      if keys.None? { return false; }
      ok := VerifyUnder(ver, keys.value, h, sig);
    }

    /** Accepts exactly the entries that meet every rule; an error names a check that failed. */
    method Validate(entry: Option<Rotation>, cr: Crypto) returns (err: Option<RotationError>)
      ensures err.None? <==> entry.Some? && Accepts(State(), cfg, cr, currentCycle, entry.value)
      ensures err.Some? && err.value !in {InvalidEntry, UnknownSubmitter} ==> entry.Some?
      ensures err == Some(UnknownSubmitter) ==> entry.Some? && entry.value.submitter !in validators
      ensures err == Some(InvalidOldSig) ==>
        || |entry.value.sigOld| != SIGNATURE_SIZE
        || !SignedByActive(State(), cr, entry.value, AuthorisingCycle(entry.value))
      ensures err == Some(InvalidNewSig) ==>
        || |entry.value.sigNew| != SIGNATURE_SIZE
        || !cr.verifies(entry.value.newKey, PayloadOf(entry.value), entry.value.sigNew)
      ensures err == Some(TooSoon) ==> entry.value.effective < currentCycle + cfg.leadTime
      ensures err == Some(OverlapTooShort) ==> entry.value.expiry < entry.value.effective + cfg.minOverlap
      ensures err == Some(Duplicate) ==> !Newest(State(), entry.value)
    {
      if entry.None? { return Some(InvalidEntry); }
      var e := entry.value;
      if e.lbl != KEY_ROTATION_LABEL { return Some(InvalidEntry); }
      if !cr.hashOk(e) { return Some(InvalidEntry); }
      if e.submitter !in validators { return Some(UnknownSubmitter); }
      if |e.sigOld| != SIGNATURE_SIZE { return Some(InvalidOldSig); }
      if |e.sigNew| != SIGNATURE_SIZE { return Some(InvalidNewSig); }
      var keys := GetActivePublicKey(e.submitter, AuthorisingCycle(e));
      var signed := VerifyAgainst(keys.value, cr, e);
      if !signed { return Some(InvalidOldSig); }
      if !cr.verifies(e.newKey, PayloadOf(e), e.sigNew) { return Some(InvalidNewSig); }
      if e.effective < currentCycle + cfg.leadTime { return Some(TooSoon); }
      if e.expiry < e.effective + cfg.minOverlap { return Some(OverlapTooShort); }
      var hist := if e.submitter in rotations then rotations[e.submitter] else [];
      if hist != [] && e.effective <= hist[|hist| - 1].effective { return Some(Duplicate); }
      return None;
    }

    static method VerifyAgainst(keys: seq<PublicKey>, cr: Crypto, r: Rotation) returns (ok: bool)
      ensures ok <==> exists k :: k in keys && cr.verifies(k, PayloadOf(r), r.sigOld)
    {
      for i := 0 to |keys|
        invariant forall j :: 0 <= j < i ==> !cr.verifies(keys[j], PayloadOf(r), r.sigOld)
      {
        if cr.verifies(keys[i], PayloadOf(r), r.sigOld) { return true; }
      }
      return false;
    }

    static predicate EffectiveAt(hist: History, i: nat, cycle: nat)
    {
      i < |hist| && hist[i].effective == cycle
    }

    /** sort.Search finds the place; rule 5 makes it the end, so recording appends. */
    method RecordRotation(entry: Option<Rotation>) returns (err: Option<RotationError>)
      requires Valid()
      modifies this`rotations
      ensures Valid()
      ensures err.None? <==> entry.Some? && Newest(old(State()), entry.value)
      ensures State() == if err.None? then Record(old(State()), entry.value) else old(State())
    {
      if entry.None? { return Some(InvalidEntry); }
      var e := entry.value;
      var hist := if e.submitter in rotations then rotations[e.submitter] else [];
      if hist != [] && e.effective <= hist[|hist| - 1].effective { return Some(Duplicate); }
      assert Sorted(hist);
      assert forall i :: 0 <= i < |hist| ==> hist[i].effective < e.effective;
      var lo, hi := 0, |hist|;
      while lo < hi
        invariant 0 <= lo <= hi == |hist|
      {
        var mid := (lo + hi) / 2;
        if hist[mid].effective < e.effective { lo := mid + 1; } else { hi := mid; }
      }
      if EffectiveAt(hist, lo, e.effective) { return Some(Duplicate); }
      var inserted := hist[..lo] + [e] + hist[lo..];
      assert inserted == hist + [e];
      rotations := rotations[e.submitter := inserted];
      return None;
    }

    method ValidateAndRecord(entry: Option<Rotation>, cr: Crypto) returns (err: Option<RotationError>)
      requires Valid()
      modifies this`rotations
      ensures Valid()
      ensures err.None? <==> entry.Some? && Accepts(old(State()), cfg, cr, currentCycle, entry.value)
      ensures State() == if err.None? then Record(old(State()), entry.value) else old(State())
    {
      err := Validate(entry, cr);
      if err.None? { err := RecordRotation(entry); }
    }
  }
}
