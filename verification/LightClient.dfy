/**
 The light client of 3CP v2.0 section 12.2 (pkg/lightclient/service.go): verification of a block
 against a trust anchor, key resolution by replaying rotations, and what two clients that end up
 on different chains can prove.
*/
module LightClient {
  import opened Common
  import opened Smt
  import opened Chain
  import opened Codec
  import opened KeyRotation

  const DEGRADED_THRESHOLD := 4
  const MAX_UINT64: nat := 0xFFFF_FFFF_FFFF_FFFF

  datatype TrustAnchor = TrustAnchor(
    blockIndex: nat,
    blockHash: Option<BlockHash>,            // None: nothing verified yet
    validators: seq<ValidatorInfo>,
    rotations: seq<Option<Rotation>>)        // None is a nil pointer

  datatype LcError =
    | BlockNotFound | UnsupportedVersion | NoValidatorSet | ChainBreak | ValidatorSetMismatch
    | BlockHashMismatch | UnknownProposer | BitmapMismatch | DegradedNotAnnounced | QuorumNotMet
    | BadSignature | CreditedTwice

  /** Panic: the code indexes the trusted set with a bit position past its end. */
  datatype Verdict = Accepted | Rejected(error: LcError) | Panic

  // ---- rotations ----------------------------------------------------------------------

  /** EffectiveCycle - 1 in uint64 arithmetic. */
  function CycleBefore(r: Rotation): nat
  {
    if r.effective == 0 then MAX_UINT64 else r.effective - 1
  }

  /** Rule 4, with the client's own minimum. */
  predicate Wide(r: Rotation, minOverlap: nat)
  {
    r.expiry >= r.effective + minOverlap
  }

  /** Rules 1, 2, 4 and 5; the lead-time rule is not checked. */
  predicate Admits(ks: KeyState, minOverlap: nat, cr: Crypto, r: Rotation)
  {
    && cr.hashOk(r)
    && SignedByActive(ks, cr, r, CycleBefore(r))
    && cr.verifies(r.newKey, PayloadOf(r), r.sigNew)
    && Wide(r, minOverlap)
    && Newest(ks, r)
  }

  function AdmitAll(ks: KeyState, minOverlap: nat, cr: Crypto, rs: seq<Option<Rotation>>): KeyState
  {
    if rs == [] then ks
    else
      var before := AdmitAll(ks, minOverlap, cr, rs[..|rs| - 1]);
      match rs[|rs| - 1]
      case None => before
      case Some(r) => if Admits(before, minOverlap, cr, r) then Record(before, r) else before
  }

  function ValidatorMap(vs: seq<ValidatorInfo>): map<Id, PublicKey>
  {
    if vs == [] then map[] else ValidatorMap(vs[..|vs| - 1])[vs[|vs| - 1].id := vs[|vs| - 1].pk]
  }

  /** The key state a client resolves keys with. */
  function Resolved(a: TrustAnchor, minOverlap: nat, cr: Crypto): KeyState
  {
    AdmitAll(KeyState(ValidatorMap(a.validators), map[]), minOverlap, cr, a.rotations)
  }

  /** A client admits exactly the rotations of registered validators that are authorised by what it has admitted. */
  lemma AdmitsIff(ks: KeyState, minOverlap: nat, cr: Crypto, r: Rotation)
    ensures Admits(ks, minOverlap, cr, r) <==>
      r.submitter in ks.validators &&
      Vouched(ks.validators[r.submitter], HistoryOf(ks, r.submitter), r, cr, minOverlap)
  {
    if r.submitter in ks.validators && (r.effective > 0 || HistoryOf(ks, r.submitter) == []) {
      SameOutgoing(ks.validators[r.submitter], HistoryOf(ks, r.submitter), r);
    }
  }

  /** The wrapped cycle before 0 makes no difference where nothing has been recorded. */
  lemma SameOutgoing(base: PublicKey, hist: History, r: Rotation)
    requires r.effective > 0 || hist == []
    ensures ActiveKeys(base, hist, CycleBefore(r)) ==
            ActiveKeys(base, hist, if r.effective == 0 then 0 else r.effective - 1)
  {
  }

  lemma AdmitNext(ks: KeyState, minOverlap: nat, cr: Crypto, rs: seq<Option<Rotation>>, r: Rotation, id: Id)
    ensures var before, after := AdmitAll(ks, minOverlap, cr, rs), AdmitAll(ks, minOverlap, cr, rs + [Some(r)]);
      HistoryOf(after, id) == HistoryOf(before, id) +
        (if && r.submitter == id && id in before.validators
            && Vouched(before.validators[id], HistoryOf(before, id), r, cr, minOverlap)
         then [r] else [])
  {
    assert (rs + [Some(r)])[..|rs|] == rs;
    AdmitsIff(AdmitAll(ks, minOverlap, cr, rs), minOverlap, cr, r);
  }

  lemma {:induction false} AdmitAllTrusted(ks: KeyState, minOverlap: nat, cr: Crypto, rs: seq<Option<Rotation>>)
    requires Trusted(ks, cr, minOverlap)
    ensures var after := AdmitAll(ks, minOverlap, cr, rs);
      Trusted(after, cr, minOverlap) && after.validators == ks.validators
  {
    if rs != [] {
      var before := AdmitAll(ks, minOverlap, cr, rs[..|rs| - 1]);
      AdmitAllTrusted(ks, minOverlap, cr, rs[..|rs| - 1]);
      match rs[|rs| - 1]
      case None =>
      case Some(r) =>
        AdmitsIff(before, minOverlap, cr, r);
        if Admits(before, minOverlap, cr, r) { RecordTrusted(before, r, cr, minOverlap); }
    }
  }

  lemma {:induction false} ValidatorMapKeys(vs: seq<ValidatorInfo>, id: Id)
    ensures id in ValidatorMap(vs) <==> id in Ids(vs)
  {
    if vs != [] {
      var rest := vs[..|vs| - 1];
      ValidatorMapKeys(rest, id);
      assert Ids(vs) == Ids(rest) + [vs[|vs| - 1].id];
    }
  }

  /** Whatever rotations an anchor carries, those a client resolves keys with are chains of trust from the keys of the
      trusted set, and nobody outside the set has any. */
  lemma ResolvedTrusted(a: TrustAnchor, minOverlap: nat, cr: Crypto, id: Id)
    ensures var ks := Resolved(a, minOverlap, cr);
      && (HistoryOf(ks, id) != [] ==> id in Ids(a.validators))
      && (id in Ids(a.validators) <==> id in ks.validators)
      && (id in ks.validators ==> ChainOfTrust(ks.validators[id], id, HistoryOf(ks, id), cr, minOverlap))
  {
    AdmitAllTrusted(KeyState(ValidatorMap(a.validators), map[]), minOverlap, cr, a.rotations);
    ValidatorMapKeys(a.validators, id);
  }

  method AdmitRotation(v: KeyRotationValidator, r: Rotation, cr: Crypto) returns (admitted: bool)
    requires v.Valid()
    modifies v`rotations
    ensures v.Valid()
    ensures admitted <==> Admits(old(v.State()), v.cfg.minOverlap, cr, r)
    ensures v.State() == if admitted then Record(old(v.State()), r) else old(v.State())
  {
    if !cr.hashOk(r) { return false; }
    var outgoing := v.GetActivePublicKey(r.submitter, CycleBefore(r));
    if outgoing.None? { return false; }
    var oldOk := KeyRotationValidator.VerifyAgainst(outgoing.value, cr, r);
    if !oldOk { return false; }
    if !cr.verifies(r.newKey, PayloadOf(r), r.sigNew) { return false; }
    if r.expiry < r.effective + v.cfg.minOverlap { return false; }
    var err := v.RecordRotation(Some(r));
    return err.None?;
  }

  method NewKeyResolver(a: TrustAnchor, cfg: Config, cr: Crypto) returns (v: KeyRotationValidator)
    ensures fresh(v) && v.Valid()
    ensures v.State() == Resolved(a, cfg.minOverlap, cr)
  {
    var vm: map<Id, PublicKey> := map[];
    for i := 0 to |a.validators|
      invariant vm == ValidatorMap(a.validators[..i])
    {
      assert a.validators[..i + 1][..i] == a.validators[..i];
      vm := vm[a.validators[i].id := a.validators[i].pk];
    }
    assert a.validators[..|a.validators|] == a.validators;
    v := new KeyRotationValidator(vm, a.blockIndex, cfg);
    for i := 0 to |a.rotations|
      invariant fresh(v) && v.Valid() && v.cfg == cfg
      invariant v.State() == AdmitAll(KeyState(vm, map[]), cfg.minOverlap, cr, a.rotations[..i])
    {
      assert a.rotations[..i + 1][..i] == a.rotations[..i];
      if a.rotations[i].Some? {
        var _ := AdmitRotation(v, a.rotations[i].value, cr);
      }
    }
    assert a.rotations[..|a.rotations|] == a.rotations;
  }

  // ---- replaying a full node's rotations ------------------------------------------------

  /** A full node's rotation history: submissions with the attempt counter they were judged at. */
  datatype Submission = Submission(cycle: nat, rotation: Rotation)

  function NodeState(ks: KeyState, cfg: Config, cr: Crypto, log: seq<Submission>): KeyState
  {
    if log == [] then ks
    else
      var before, s := NodeState(ks, cfg, cr, log[..|log| - 1]), log[|log| - 1];
      if Accepts(before, cfg, cr, s.cycle, s.rotation) then Record(before, s.rotation) else before
  }

  /** The rotations the node accepted, in order. */
  function AcceptedBy(ks: KeyState, cfg: Config, cr: Crypto, log: seq<Submission>): seq<Option<Rotation>>
  {
    if log == [] then []
    else
      var rest, s := log[..|log| - 1], log[|log| - 1];
      AcceptedBy(ks, cfg, cr, rest) +
      (if Accepts(NodeState(ks, cfg, cr, rest), cfg, cr, s.cycle, s.rotation) then [Some(s.rotation)] else [])
  }

  /** What a node accepts, a client in the same key state admits iff the overlap is wide enough for it. */
  lemma AcceptedIsAdmitted(ks: KeyState, cfg: Config, cr: Crypto, cycle: nat, r: Rotation, minOverlap: nat)
    requires Accepts(ks, cfg, cr, cycle, r)
    ensures Admits(ks, minOverlap, cr, r) <==> Wide(r, minOverlap)
  {
    if r.effective == 0 {
      assert HistoryOf(ks, r.submitter) == [];
    }
  }

  ghost predicate AllWide(rs: seq<Option<Rotation>>, minOverlap: nat)
  {
    forall i :: 0 <= i < |rs| && rs[i].Some? ==> Wide(rs[i].value, minOverlap)
  }

  /** The client's overlap is a constant of its own (pkg/lightclient/config.go), the node's is configured:
      replaying the accepted rotations reproduces the node's key state, hence its active keys for every
      validator and cycle, iff each of them is wide enough for the client. */
  lemma ReplayAgrees(ks: KeyState, cfg: Config, cr: Crypto, log: seq<Submission>, minOverlap: nat)
    ensures AdmitAll(ks, minOverlap, cr, AcceptedBy(ks, cfg, cr, log)) == NodeState(ks, cfg, cr, log)
       <==> AllWide(AcceptedBy(ks, cfg, cr, log), minOverlap)
  {
    var rs := AcceptedBy(ks, cfg, cr, log);
    if AllWide(rs, minOverlap) {
      WideReplay(ks, cfg, cr, log, minOverlap);
    } else {
      var i :| 0 <= i < |rs| && rs[i].Some? && !Wide(rs[i].value, minOverlap);
      ReplayShorter(ks, cfg, cr, log, minOverlap, rs[i].value.submitter);
      assert NarrowOf(rs, minOverlap, rs[i].value.submitter);
    }
  }

  /** A node that starts from its registered keys has, after any log, chains of trust only. */
  lemma {:induction false} NodeTrusted(ks: KeyState, cfg: Config, cr: Crypto, log: seq<Submission>)
    requires Trusted(ks, cr, cfg.minOverlap)
    ensures var after := NodeState(ks, cfg, cr, log);
      Trusted(after, cr, cfg.minOverlap) && after.validators == ks.validators
  {
    if log != [] {
      var before, s := NodeState(ks, cfg, cr, log[..|log| - 1]), log[|log| - 1];
      NodeTrusted(ks, cfg, cr, log[..|log| - 1]);
      AcceptsIff(before, cfg, cr, s.cycle, s.rotation);
      if Accepts(before, cfg, cr, s.cycle, s.rotation) { RecordTrusted(before, s.rotation, cr, cfg.minOverlap); }
    }
  }

  /** In particular a client that asks for no more overlap than the node follows it. */
  lemma {:induction false} SmallerOverlapReplays(ks: KeyState, cfg: Config, cr: Crypto, log: seq<Submission>,
                                                 minOverlap: nat)
    requires minOverlap <= cfg.minOverlap
    ensures AllWide(AcceptedBy(ks, cfg, cr, log), minOverlap)
  {
    if log != [] { SmallerOverlapReplays(ks, cfg, cr, log[..|log| - 1], minOverlap); }
  }

  /** The client's history of a validator is the node's without the rotations it did not admit. */
  lemma {:induction false} ReplayKeeps(ks: KeyState, cfg: Config, cr: Crypto, log: seq<Submission>, minOverlap: nat,
                                       id: Id) returns (keep: seq<bool>)
    requires HistoriesWellTimed(ks)
    ensures var client, node := AdmitAll(ks, minOverlap, cr, AcceptedBy(ks, cfg, cr, log)), NodeState(ks, cfg, cr, log);
      && client.validators == ks.validators == node.validators && HistoriesWellTimed(node)
      && |keep| == |HistoryOf(node, id)| && HistoryOf(client, id) == Kept(HistoryOf(node, id), keep)
  {
    if log == [] {
      keep := seq(|HistoryOf(ks, id)|, _ => true);
      KeptAll(HistoryOf(ks, id));
    } else {
      var rest, s := log[..|log| - 1], log[|log| - 1];
      keep := ReplayKeeps(ks, cfg, cr, rest, minOverlap, id);
      var acc, before := AcceptedBy(ks, cfg, cr, rest), NodeState(ks, cfg, cr, rest);
      if Accepts(before, cfg, cr, s.cycle, s.rotation) {
        AcceptKeepsWellTimed(before, cfg, cr, s.cycle, s.rotation);
        assert (acc + [Some(s.rotation)])[..|acc|] == acc;
        if s.rotation.submitter == id {
          var admitted := Admits(AdmitAll(ks, minOverlap, cr, acc), minOverlap, cr, s.rotation);
          KeptAppend(HistoryOf(before, id), keep, s.rotation, admitted);
          keep := keep + [admitted];
        }
      } else {
        assert acc + [] == acc;
      }
    }
  }

  lemma {:induction false} KeptAll(hist: History)
    ensures Kept(hist, seq(|hist|, _ => true)) == hist
  {
    if hist != [] {
      KeptAll(hist[1..]);
      assert seq(|hist|, _ => true)[1..] == seq(|hist[1..]|, _ => true);
    }
  }

  lemma {:induction false} KeptAppend(hist: History, keep: seq<bool>, r: Rotation, admitted: bool)
    requires |keep| == |hist|
    ensures Kept(hist + [r], keep + [admitted]) == Kept(hist, keep) + if admitted then [r] else []
    decreases hist
  {
    if hist != [] {
      KeptAppend(hist[1..], keep[1..], r, admitted);
      assert (hist + [r])[1..] == hist[1..] + [r] && (keep + [admitted])[1..] == keep[1..] + [admitted];
    }
  }

  /** Over a whole log, whatever the overlaps: client and node resolve the same keys of a validator in every cycle
      iff each rotation the client did not admit is buried in the node's history. */
  lemma ReplayKeysIff(ks: KeyState, cfg: Config, cr: Crypto, log: seq<Submission>, minOverlap: nat, id: Id)
    requires HistoriesWellTimed(ks) && id in ks.validators
    requires KeysDistinct(ks.validators[id], HistoryOf(NodeState(ks, cfg, cr, log), id))
    ensures var client, node := AdmitAll(ks, minOverlap, cr, AcceptedBy(ks, cfg, cr, log)), NodeState(ks, cfg, cr, log);
      SameActive(client, node, id) <==>
      (forall i :: 0 <= i < |HistoryOf(node, id)| && HistoryOf(node, id)[i] !in HistoryOf(client, id) ==>
         Buried(HistoryOf(node, id), i))
  {
    var keep := ReplayKeeps(ks, cfg, cr, log, minOverlap, id);
    var client, node := AdmitAll(ks, minOverlap, cr, AcceptedBy(ks, cfg, cr, log)), NodeState(ks, cfg, cr, log);
    var base, hist := ks.validators[id], HistoryOf(node, id);
    assert WellTimed(hist);
    forall i | 0 <= i < |hist| ensures keep[i] <==> hist[i] in HistoryOf(client, id) {
      KeptAt(base, hist, keep, i);
    }
    KeptAgreesIff(base, hist, keep);
    SameActiveIff(client, node, id);
  }

  /** Two key states resolve a validator to the same keys in every cycle. */
  ghost predicate SameActive(k1: KeyState, k2: KeyState, id: Id)
  {
    forall c: nat :: Active(k1, id, c) == Active(k2, id, c)
  }

  lemma SameActiveIff(k1: KeyState, k2: KeyState, id: Id)
    requires id in k1.validators && id in k2.validators && k1.validators[id] == k2.validators[id]
    ensures SameActive(k1, k2, id) <==> SameKeys(k1.validators[id], HistoryOf(k1, id), HistoryOf(k2, id))
  {
    var base := k1.validators[id];
    forall c: nat
      ensures Active(k1, id, c) == Active(k2, id, c) <==>
              ActiveKeys(base, HistoryOf(k1, id), c) == ActiveKeys(base, HistoryOf(k2, id), c)
    {
    }
    if SameActive(k1, k2, id) {
      forall c: nat ensures ActiveKeys(base, HistoryOf(k1, id), c) == ActiveKeys(base, HistoryOf(k2, id), c) {
        assert Active(k1, id, c) == Active(k2, id, c);
      }
    }
  }

  lemma KeptAt(base: PublicKey, hist: History, keep: seq<bool>, i: nat)
    requires KeysDistinct(base, hist) && |keep| == |hist| && i < |hist|
    ensures keep[i] <==> hist[i] in Kept(hist, keep)
  {
    KeptIsIn(hist, keep, hist[i]);
    if m :| 0 <= m < |hist| && keep[m] && hist[m] == hist[i] { OneIndex(base, hist, i, m); }
  }

  /** One accepted rotation too narrow for the client, and it resolves other keys than the node in some cycle. */
  lemma NarrowRotationLost(ks: KeyState, cfg: Config, cr: Crypto, s: Submission, minOverlap: nat) returns (c: nat)
    requires HistoriesWellTimed(ks) && Accepts(ks, cfg, cr, s.cycle, s.rotation) && !Wide(s.rotation, minOverlap)
    requires s.rotation.newKey != LatestKey(ks, s.rotation.submitter)
    ensures var r := s.rotation;
      Active(AdmitAll(ks, minOverlap, cr, AcceptedBy(ks, cfg, cr, [s])), r.submitter, c) !=
      Active(NodeState(ks, cfg, cr, [s]), r.submitter, c)
  {
    var r := s.rotation;
    assert [s][..0] == [] && [Some(r)][..0] == [];
    assert AcceptedBy(ks, cfg, cr, []) + [Some(r)] == [Some(r)];
    AcceptedIsAdmitted(ks, cfg, cr, s.cycle, r, minOverlap);
    c := SomeClosedCycle(HistoryOf(ks, r.submitter), r.effective);
    RecordVisibleIff(ks, cfg, cr, s.cycle, r, c);
  }

  lemma {:induction false} WideReplay(ks: KeyState, cfg: Config, cr: Crypto, log: seq<Submission>, minOverlap: nat)
    requires AllWide(AcceptedBy(ks, cfg, cr, log), minOverlap)
    ensures AdmitAll(ks, minOverlap, cr, AcceptedBy(ks, cfg, cr, log)) == NodeState(ks, cfg, cr, log)
  {
    if log != [] {
      var rest, s := log[..|log| - 1], log[|log| - 1];
      var acc := AcceptedBy(ks, cfg, cr, rest);
      var before, all := NodeState(ks, cfg, cr, rest), AcceptedBy(ks, cfg, cr, log);
      assert acc == all[..|acc|];
      assert forall i :: 0 <= i < |acc| ==> acc[i] == all[i];
      WideReplay(ks, cfg, cr, rest, minOverlap);
      if Accepts(before, cfg, cr, s.cycle, s.rotation) {
        assert all[|acc|] == Some(s.rotation);
        AcceptedIsAdmitted(before, cfg, cr, s.cycle, s.rotation, minOverlap);
      } else {
        assert all == acc;
      }
    }
  }

  ghost predicate NarrowOf(rs: seq<Option<Rotation>>, minOverlap: nat, id: Id)
  {
    exists i :: 0 <= i < |rs| && rs[i].Some? && rs[i].value.submitter == id && !Wide(rs[i].value, minOverlap)
  }

  /** The client records at most what the node does, and less for a validator with a narrow rotation. */
  lemma {:induction false} ReplayShorter(ks: KeyState, cfg: Config, cr: Crypto, log: seq<Submission>, minOverlap: nat,
                                         id: Id)
    ensures var rs := AcceptedBy(ks, cfg, cr, log);
      var client, node := HistoryOf(AdmitAll(ks, minOverlap, cr, rs), id), HistoryOf(NodeState(ks, cfg, cr, log), id);
      |client| <= |node| && (NarrowOf(rs, minOverlap, id) ==> |client| < |node|)
  {
    if log != [] {
      var rest, s := log[..|log| - 1], log[|log| - 1];
      ReplayShorter(ks, cfg, cr, rest, minOverlap, id);
      var acc, all := AcceptedBy(ks, cfg, cr, rest), AcceptedBy(ks, cfg, cr, log);
      if Accepts(NodeState(ks, cfg, cr, rest), cfg, cr, s.cycle, s.rotation) {
        assert all[..|acc|] == acc && all[|acc|] == Some(s.rotation);
        assert NarrowOf(all, minOverlap, id) ==>
               NarrowOf(acc, minOverlap, id) || (s.rotation.submitter == id && !Wide(s.rotation, minOverlap));
      } else {
        assert all == acc;
      }
    }
  }

  // ---- the validator set -------------------------------------------------------------------

  predicate SameSet(declared: seq<ValidatorInfo>, trusted: seq<ValidatorInfo>)
  {
    |declared| == |trusted| && forall id :: id in Ids(trusted) ==> id in Ids(declared)
  }

  method CheckValidatorSet(declared: seq<ValidatorInfo>, trusted: seq<ValidatorInfo>) returns (ok: bool)
    ensures ok <==> SameSet(declared, trusted)
  {
    if |declared| != |trusted| { return false; }
    var present: set<Id> := {};
    for i := 0 to |declared|
      invariant forall id :: id in present <==> exists j :: 0 <= j < i && Ids(declared)[j] == id
    {
      assert Ids(declared)[i] == declared[i].id;
      present := present + {declared[i].id};
    }
    for i := 0 to |trusted|
      invariant forall j :: 0 <= j < i ==> Ids(trusted)[j] in present
    {
      assert Ids(trusted)[i] == trusted[i].id;
      if trusted[i].id !in present {
        assert Ids(trusted)[i] in Ids(trusted) && Ids(trusted)[i] !in Ids(declared);
        return false;
      }
    }
    return true;
  }

  function SetOf(s: seq<Id>): (r: set<Id>)
    ensures forall x :: x in r <==> x in s
  {
    if s == [] then {} else SetOf(s[..|s| - 1]) + {s[|s| - 1]}
  }

  lemma NoDuplicatesStep(s: seq<Id>)
    requires s != []
    ensures NoDuplicates(s) <==> NoDuplicates(s[..|s| - 1]) && s[|s| - 1] !in s[..|s| - 1]
  {
  }

  lemma {:induction false} SetOfSize(s: seq<Id>)
    ensures |SetOf(s)| <= |s|
    ensures |SetOf(s)| == |s| <==> NoDuplicates(s)
  {
    if s != [] {
      SetOfSize(s[..|s| - 1]);
      NoDuplicatesStep(s);
    }
  }

  lemma {:induction false} SetOfMultiset(s: seq<Id>)
    requires NoDuplicates(s)
    ensures multiset(s) == multiset(SetOf(s))
  {
    if s != [] {
      var t, x := s[..|s| - 1], s[|s| - 1];
      NoDuplicatesStep(s);
      SetOfMultiset(t);
      assert s == t + [x];
      assert multiset(SetOf(t) + {x}) == multiset(SetOf(t)) + multiset{x};
    }
  }

  /** Equal length and inclusion of a duplicate-free trusted set make the declared identities a
      permutation of the trusted ones. */
  lemma SameSetIsPermutation(declared: seq<ValidatorInfo>, trusted: seq<ValidatorInfo>)
    requires SameSet(declared, trusted) && NoDuplicates(Ids(trusted))
    ensures multiset(Ids(declared)) == multiset(Ids(trusted))
  {
    var d, t := SetOf(Ids(declared)), SetOf(Ids(trusted));
    SetOfSize(Ids(declared));
    SetOfSize(Ids(trusted));
    assert t <= d;
    SubsetSameSize(t, d);
    SetOfMultiset(Ids(declared));
    SetOfMultiset(Ids(trusted));
  }

  lemma SubsetSameSize(a: set<Id>, b: set<Id>)
    requires a <= b && |b| <= |a|
    ensures a == b
  {
    assert |b - a| == |b| - |a|;
  }

  // ---- block verification ---------------------------------------------------------------------

  function RequiredQuorum(n: nat): nat
  {
    if n < DEGRADED_THRESHOLD then 1 else QuorumRequired(n)
  }

  predicate ChainsOnto(b: Block, a: TrustAnchor)
  {
    match a.blockHash
    case None => b.index == 0
    case Some(h) => b.index == a.blockIndex + 1 && h == b.prevHash
  }

  /** Checks 1 to 6. */
  predicate WellFormed(b: Block, a: TrustAnchor)
  {
    var bitmap, sigs, n := OrEmpty(b.bitmap), OrEmpty(b.prepareSigs), |a.validators|;
    && b.version == 2 && n > 0
    && ChainsOnto(b, a)
    && SameSet(b.validators, a.validators)
    && ComputeBlockHash(b) == b.blockHash
    && b.proposer in Ids(a.validators)
    && Rank(bitmap, 8 * |bitmap|) == |sigs|
    && (n < DEGRADED_THRESHOLD ==> IsDegradedBlock(b))
    && |sigs| >= RequiredQuorum(n)
  }

  /** Payload position k belongs to a trusted validator that signed the block with an active key. */
  predicate PositionGood(b: Block, a: TrustAnchor, ks: KeyState, ver: BlockVerifier, k: nat)
    requires k < |OrEmpty(b.prepareSigs)| <= |Positions(OrEmpty(b.bitmap), 8 * |OrEmpty(b.bitmap)|)|
  {
    var bitmap := OrEmpty(b.bitmap);
    var claimed := Positions(bitmap, 8 * |bitmap|)[k];
    claimed < |a.validators| &&
    VerifiesUnder(ver, KeysFor(ks, a.validators[claimed].id, b.index), b.blockHash, OrEmpty(b.prepareSigs)[k])
  }

  /** A marked position lies past the trusted set, and every one inside it carries a good signature. */
  ghost predicate Overruns(b: Block, a: TrustAnchor, ks: KeyState, ver: BlockVerifier)
    requires |Positions(OrEmpty(b.bitmap), 8 * |OrEmpty(b.bitmap)|)| == |OrEmpty(b.prepareSigs)|
  {
    var signers := Positions(OrEmpty(b.bitmap), 8 * |OrEmpty(b.bitmap)|);
    && (exists k :: 0 <= k < |signers| && signers[k] >= |a.validators|)
    && (forall k :: 0 <= k < |signers| && signers[k] < |a.validators| ==> PositionGood(b, a, ks, ver, k))
  }

  /** Positions ascend, so the first one past the set comes after all those inside it. */
  lemma FirstPastTheSet(b: Block, a: TrustAnchor, ks: KeyState, ver: BlockVerifier, i: nat)
    requires |Positions(OrEmpty(b.bitmap), 8 * |OrEmpty(b.bitmap)|)| == |OrEmpty(b.prepareSigs)| > i
    requires forall k :: 0 <= k < i ==> PositionGood(b, a, ks, ver, k)
    requires Positions(OrEmpty(b.bitmap), 8 * |OrEmpty(b.bitmap)|)[i] >= |a.validators|
    ensures Overruns(b, a, ks, ver) && !PositionGood(b, a, ks, ver, i)
  {
    PositionsAscend(OrEmpty(b.bitmap), 8 * |OrEmpty(b.bitmap)|);
    var signers := Positions(OrEmpty(b.bitmap), 8 * |OrEmpty(b.bitmap)|);
    assert forall k :: i < k < |signers| ==> signers[i] < signers[k];
  }

  lemma BadInsideTheSet(b: Block, a: TrustAnchor, ks: KeyState, ver: BlockVerifier, i: nat)
    requires |Positions(OrEmpty(b.bitmap), 8 * |OrEmpty(b.bitmap)|)| == |OrEmpty(b.prepareSigs)| > i
    requires var j := Positions(OrEmpty(b.bitmap), 8 * |OrEmpty(b.bitmap)|)[i];
      j < |a.validators|
      && !VerifiesUnder(ver, KeysFor(ks, a.validators[j].id, b.index), b.blockHash, OrEmpty(b.prepareSigs)[i])
    ensures !PositionGood(b, a, ks, ver, i) && !Overruns(b, a, ks, ver)
  {
  }

  lemma AllGoodInside(b: Block, a: TrustAnchor, ks: KeyState, ver: BlockVerifier)
    requires |Positions(OrEmpty(b.bitmap), 8 * |OrEmpty(b.bitmap)|)| == |OrEmpty(b.prepareSigs)|
    requires forall k :: 0 <= k < |OrEmpty(b.prepareSigs)| ==> PositionGood(b, a, ks, ver, k)
    ensures !Overruns(b, a, ks, ver)
  {
    var signers := Positions(OrEmpty(b.bitmap), 8 * |OrEmpty(b.bitmap)|);
    forall k | 0 <= k < |signers| ensures signers[k] < |a.validators| { assert PositionGood(b, a, ks, ver, k); }
  }

  ghost predicate Acceptable(b: Block, a: TrustAnchor, ks: KeyState, ver: BlockVerifier)
  {
    && WellFormed(b, a)
    && |Positions(OrEmpty(b.bitmap), 8 * |OrEmpty(b.bitmap)|)| == |OrEmpty(b.prepareSigs)|
    && (forall k :: 0 <= k < |OrEmpty(b.prepareSigs)| ==> PositionGood(b, a, ks, ver, k))
    && VerifiesUnder(ver, KeysFor(ks, b.proposer, b.index), b.blockHash, b.commitSig)
  }

  /** The checks before the signatures, in order, with what each asks for. */
  const HEADER_CHECKS := [UnsupportedVersion, NoValidatorSet, ChainBreak, ValidatorSetMismatch, BlockHashMismatch,
                          UnknownProposer, BitmapMismatch, DegradedNotAnnounced, QuorumNotMet]

  ghost predicate Passes(b: Block, a: TrustAnchor, check: LcError)
  {
    var n := |a.validators|;
    match check
    case UnsupportedVersion => b.version == 2
    case NoValidatorSet => n > 0
    case ChainBreak =>
      if a.blockHash.None? then b.index == 0 else b.index == a.blockIndex + 1 && b.prevHash == a.blockHash.value
    case ValidatorSetMismatch => |b.validators| == n && forall id :: id in Ids(a.validators) ==> id in Ids(b.validators)
    case BlockHashMismatch => b.blockHash == ComputeBlockHash(b)
    case UnknownProposer => b.proposer in Ids(a.validators)
    case BitmapMismatch => |Positions(OrEmpty(b.bitmap), 8 * |OrEmpty(b.bitmap)|)| == |OrEmpty(b.prepareSigs)|
    case DegradedNotAnnounced => n >= 4 || (DEGRADED_LABEL in b.metadata && b.metadata[DEGRADED_LABEL] == "true")
    case QuorumNotMet => if n < 4 then |OrEmpty(b.prepareSigs)| >= 1 else 3 * |OrEmpty(b.prepareSigs)| >= 2 * n
    case _ => true
  }

  /** Check k is the first that fails. */
  ghost predicate FailsFirst(b: Block, a: TrustAnchor, k: nat)
  {
    && k < |HEADER_CHECKS| && !Passes(b, a, HEADER_CHECKS[k])
    && forall i :: 0 <= i < k ==> Passes(b, a, HEADER_CHECKS[i])
  }

  lemma FirstFailure(b: Block, a: TrustAnchor, k: nat)
    requires k < |HEADER_CHECKS| && !Passes(b, a, HEADER_CHECKS[k])
    requires forall i :: 0 <= i < k ==> Passes(b, a, HEADER_CHECKS[i])
    ensures FailsFirst(b, a, k)
  {
  }

  /** Where the block stands: the checks before its certificate. */
  method CheckPlace(b: Block, a: TrustAnchor) returns (err: Option<LcError>)
    ensures err.None? <==> forall i :: 0 <= i < 6 ==> Passes(b, a, HEADER_CHECKS[i])
    ensures err.Some? ==> exists k: nat :: FailsFirst(b, a, k) && err.value == HEADER_CHECKS[k]
  {
    if b.version != 2 { FirstFailure(b, a, 0); return Some(UnsupportedVersion); }
    if |a.validators| == 0 { FirstFailure(b, a, 1); return Some(NoValidatorSet); }
    if !ChainsOnto(b, a) { FirstFailure(b, a, 2); return Some(ChainBreak); }
    var same := CheckValidatorSet(b.validators, a.validators);
    if !same { FirstFailure(b, a, 3); return Some(ValidatorSetMismatch); }
    if ComputeBlockHash(b) != b.blockHash { FirstFailure(b, a, 4); return Some(BlockHashMismatch); }
    if b.proposer !in Ids(a.validators) { FirstFailure(b, a, 5); return Some(UnknownProposer); }
    return None;
  }

  lemma WellFormedIff(b: Block, a: TrustAnchor)
    ensures WellFormed(b, a) <==> forall i :: 0 <= i < |HEADER_CHECKS| ==> Passes(b, a, HEADER_CHECKS[i])
  {
    PositionsLength(OrEmpty(b.bitmap), 8 * |OrEmpty(b.bitmap)|);
    if forall i :: 0 <= i < |HEADER_CHECKS| ==> Passes(b, a, HEADER_CHECKS[i]) {
      assert Passes(b, a, HEADER_CHECKS[0]) && Passes(b, a, HEADER_CHECKS[1]) && Passes(b, a, HEADER_CHECKS[2]);
      assert Passes(b, a, HEADER_CHECKS[3]) && Passes(b, a, HEADER_CHECKS[4]) && Passes(b, a, HEADER_CHECKS[5]);
      assert Passes(b, a, HEADER_CHECKS[6]) && Passes(b, a, HEADER_CHECKS[7]) && Passes(b, a, HEADER_CHECKS[8]);
    }
  }

  /** Checks 1 to 6: the error names the first that fails. */
  method CheckHeader(b: Block, a: TrustAnchor) returns (err: Option<LcError>, signers: seq<nat>)
    ensures err.None? <==> WellFormed(b, a)
    ensures err.None? <==> forall i :: 0 <= i < |HEADER_CHECKS| ==> Passes(b, a, HEADER_CHECKS[i])
    ensures err.Some? ==> exists k: nat :: FailsFirst(b, a, k) && err.value == HEADER_CHECKS[k]
    ensures err.None? ==> signers == Positions(OrEmpty(b.bitmap), 8 * |OrEmpty(b.bitmap)|)
  {
    signers := [];
    PositionsLength(OrEmpty(b.bitmap), 8 * |OrEmpty(b.bitmap)|);
    WellFormedIff(b, a);
    err := CheckPlace(b, a);
    if err.Some? { return; }
    var positions := BitmapSigners(OrEmpty(b.bitmap), OrEmpty(b.prepareSigs));
    if positions.None? { FirstFailure(b, a, 6); return Some(BitmapMismatch), []; }
    signers := positions.value;
    if |a.validators| < DEGRADED_THRESHOLD && !IsDegradedBlock(b) {
      FirstFailure(b, a, 7);
      return Some(DegradedNotAnnounced), [];
    }
    if |signers| < RequiredQuorum(|a.validators|) { FirstFailure(b, a, 8); return Some(QuorumNotMet), []; }
    return None, signers;
  }

  /** Check 7: every payload position, credited to its validator. */
  method CheckSignatures(b: Block, a: TrustAnchor, resolver: KeyRotationValidator, ver: BlockVerifier,
                         signers: seq<nat>, required: nat)
    returns (v: Verdict)
    requires signers == Positions(OrEmpty(b.bitmap), 8 * |OrEmpty(b.bitmap)|)
    requires |signers| == |OrEmpty(b.prepareSigs)| >= required
    ensures v == Accepted <==>
      forall k :: 0 <= k < |signers| ==> PositionGood(b, a, resolver.State(), ver, k)
    ensures v != Accepted ==> v == Panic || v == Rejected(BadSignature)
    ensures v == Panic <==> Overruns(b, a, resolver.State(), ver)
  {
    var sigs := OrEmpty(b.prepareSigs);
    PositionsAscend(OrEmpty(b.bitmap), 8 * |OrEmpty(b.bitmap)|);
    var credited := seq(|a.validators|, _ => false);
    var distinct := 0;
    for i := 0 to |sigs|
      invariant |credited| == |a.validators| && distinct == i
      invariant forall k :: 0 <= k < i ==> PositionGood(b, a, resolver.State(), ver, k)
      invariant forall j :: 0 <= j < |credited| && credited[j] ==> exists k :: 0 <= k < i && signers[k] == j
    {
      var claimed := signers[i];
      if claimed >= |a.validators| {
        FirstPastTheSet(b, a, resolver.State(), ver, i);
        return Panic;
      }
      var keys := resolver.GetActivePublicKey(a.validators[claimed].id, b.index);
      var verified := VerifyUnder(ver, OrEmpty(keys), b.blockHash, sigs[i]);
      if !verified {
        BadInsideTheSet(b, a, resolver.State(), ver, i);
        return Rejected(BadSignature);
      }
      if credited[claimed] { return Rejected(CreditedTwice); }
      credited := credited[claimed := true];
      distinct := distinct + 1;
    }
    if distinct < required { return Rejected(QuorumNotMet); }
    AllGoodInside(b, a, resolver.State(), ver);
    return Accepted;
  }

  /** Accepts exactly the acceptable blocks; the "credited twice" branch is never taken; and it panics
      exactly on a well-formed block with a bit set at or past the validator count whose other marks are good. */
  method VerifyBlock(block: Option<Block>, a: TrustAnchor, cfg: Config, cr: Crypto, ver: BlockVerifier)
    returns (v: Verdict)
    ensures v == Accepted <==> block.Some? && Acceptable(block.value, a, Resolved(a, cfg.minOverlap, cr), ver)
    ensures v != Rejected(CreditedTwice)
    ensures v == Panic <==>
      && block.Some? && WellFormed(block.value, a)
      && |Positions(OrEmpty(block.value.bitmap), 8 * |OrEmpty(block.value.bitmap)|)|
         == |OrEmpty(block.value.prepareSigs)|
      && Overruns(block.value, a, Resolved(a, cfg.minOverlap, cr), ver)
    ensures block.Some? && WellFormed(block.value, a) ==> v in {Accepted, Panic, Rejected(BadSignature)}
    ensures v.Rejected? && v.error != BadSignature ==>
      if block.None? then v.error == BlockNotFound
      else exists k: nat :: FailsFirst(block.value, a, k) && v.error == HEADER_CHECKS[k]
    ensures v == Accepted && NoDuplicates(Ids(a.validators)) ==> Endorsed(block.value, a)
  {
    if block.None? { return Rejected(BlockNotFound); }
    var b := block.value;
    var err, signers := CheckHeader(b, a);
    if err.Some? { return Rejected(err.value); }
    PositionsLength(OrEmpty(b.bitmap), 8 * |OrEmpty(b.bitmap)|);
    var resolver := NewKeyResolver(a, cfg, cr);
    v := CheckSignatures(b, a, resolver, ver, signers, RequiredQuorum(|a.validators|));
    if v != Accepted { return; }
    var proposerKeys := resolver.GetActivePublicKey(b.proposer, b.index);
    var commitOk := VerifyUnder(ver, OrEmpty(proposerKeys), b.blockHash, b.commitSig);
    if !commitOk { return Rejected(BadSignature); }
    if NoDuplicates(Ids(a.validators)) { AcceptableEndorsed(b, a, resolver.State(), ver); }
  }

  /** What a client knows of a block it accepts: the version, the validators it declares, its proposer, its place. */
  ghost predicate Endorsed(b: Block, a: TrustAnchor)
  {
    && b.version == 2 && multiset(Ids(b.validators)) == multiset(Ids(a.validators)) && b.proposer in Ids(a.validators)
    && (if a.blockHash.None? then b.index == 0 else b.index == a.blockIndex + 1 && b.prevHash == a.blockHash.value)
    && b.blockHash == Sha(b.index, b.prevHash, b.stateRoot, b.proposer, b.anchored, b.timestamp, b.quorum)
  }

  lemma AcceptableEndorsed(b: Block, a: TrustAnchor, ks: KeyState, ver: BlockVerifier)
    requires Acceptable(b, a, ks, ver) && NoDuplicates(Ids(a.validators))
    ensures Endorsed(b, a)
  {
    SameSetIsPermutation(b.validators, a.validators);
  }

  lemma {:induction false} ValidatorMapAt(vs: seq<ValidatorInfo>, j: nat)
    requires j < |vs| && NoDuplicates(Ids(vs))
    ensures vs[j].id in ValidatorMap(vs) && ValidatorMap(vs)[vs[j].id] == vs[j].pk
  {
    var n := |vs| - 1;
    if j < n {
      assert Ids(vs)[j] != Ids(vs)[n];
      assert forall a :: 0 <= a < n ==> Ids(vs[..n])[a] == Ids(vs)[a];
      ValidatorMapAt(vs[..n], j);
    }
  }

  /** A well-formed block that marks only positions past the set is not rejected: no signature is looked at before
      the index is out of range. */
  lemma MarksPastTheSet(b: Block, a: TrustAnchor, ks: KeyState, ver: BlockVerifier)
    requires WellFormed(b, a) && forall i :: 0 <= i < |a.validators| ==> !BitSet(OrEmpty(b.bitmap), i)
    ensures |Positions(OrEmpty(b.bitmap), 8 * |OrEmpty(b.bitmap)|)| == |OrEmpty(b.prepareSigs)|
    ensures Overruns(b, a, ks, ver)
  {
    var bitmap := OrEmpty(b.bitmap);
    PositionsRank(bitmap, 8 * |bitmap|);
    var signers := Positions(bitmap, 8 * |bitmap|);
    forall k | 0 <= k < |signers| ensures signers[k] >= |a.validators| { assert BitSet(bitmap, signers[k]); }
    assert signers[0] >= |a.validators|;
  }

  /** N zero bytes and N full ones. */
  function PastMarks(n: nat): Bytes
  {
    seq(2 * n, i => if i < n then 0 else 255)
  }

  lemma PastMarksAt(n: nat, i: nat)
    ensures BitSet(PastMarks(n), i) <==> 8 * n <= i < 16 * n
  {
    FullByte(i % 8);
  }

  lemma FullByte(i: nat)
    requires i < 8
    ensures BitAt(255, i) && !BitAt(0, i)
  {
    if i == 0 { assert BitAt(255, 0); } else if i == 1 { assert BitAt(255, 1); }
    else if i == 2 { assert BitAt(255, 2); } else if i == 3 { assert BitAt(255, 3); }
    else if i == 4 { assert BitAt(255, 4); } else if i == 5 { assert BitAt(255, 5); }
    else if i == 6 { assert BitAt(255, 6); } else { assert BitAt(255, 7); }
  }

  lemma {:induction false} PastMarksRank(n: nat, i: nat)
    requires i <= 16 * n
    ensures Rank(PastMarks(n), i) == if i <= 8 * n then 0 else i - 8 * n
  {
    if i > 0 {
      PastMarksRank(n, i - 1);
      PastMarksAt(n, i - 1);
    }
  }

  /** For any validators, any signatures and any keys there is such a first block. */
  lemma UnboundedMarksPanic(vs: seq<ValidatorInfo>, sigs: seq<Sig>, minOverlap: nat, cr: Crypto, ver: BlockVerifier)
    returns (b: Block)
    requires |vs| > 0 && |sigs| == 8 * |vs|
    ensures var a := TrustAnchor(0, None, vs, []);
      && WellFormed(b, a) && OrEmpty(b.prepareSigs) == sigs
      && |Positions(OrEmpty(b.bitmap), 8 * |OrEmpty(b.bitmap)|)| == |sigs|
      && Overruns(b, a, Resolved(a, minOverlap, cr), ver)
  {
    var a, n := TrustAnchor(0, None, vs, []), |vs|;
    b := Block(0, ZeroHash, Zero, vs[0].id, [], 0, QuorumConfig(n, QuorumRequired(n)), vs, ZeroHash, 2,
               Some(PastMarks(n)), Some(sigs), [], map[DEGRADED_LABEL := "true"]);
    b := b.(blockHash := ComputeBlockHash(b));
    assert Ids(vs)[0] == vs[0].id;
    PastMarksRank(n, 16 * n);
    forall i | 0 <= i < n ensures !BitSet(OrEmpty(b.bitmap), i) { PastMarksAt(n, i); }
    MarksPastTheSet(b, a, Resolved(a, minOverlap, cr), ver);
  }

  // ---- walking a chain --------------------------------------------------------------------------

  /** The anchor a client holds before verifying block i of the chain it was given. */
  function AnchorAt(chain: seq<Block>, i: nat, vs: seq<ValidatorInfo>, rotations: seq<Option<Rotation>>): TrustAnchor
    requires i <= |chain|
  {
    if i == 0 then TrustAnchor(0, None, vs, rotations)
    else TrustAnchor(chain[i - 1].index, Some(chain[i - 1].blockHash), vs, rotations)
  }

  /** What a client trusts: a validator set, and the rotations it has learnt by each index. */
  datatype Trust = Trust(validators: seq<ValidatorInfo>, rotations: nat -> seq<Option<Rotation>>, minOverlap: nat,
                         cr: Crypto, ver: BlockVerifier)
  {
    function KeysAt(i: nat): KeyState
    {
      Resolved(TrustAnchor(0, None, validators, rotations(i)), minOverlap, cr)
    }
  }

  ghost predicate Walks(chain: seq<Block>, t: Trust)
  {
    forall i {:trigger WalksAt(chain, t, i)} :: 0 <= i < |chain| ==> WalksAt(chain, t, i)
  }

  ghost predicate WalksAt(chain: seq<Block>, t: Trust, i: nat)
    requires i < |chain|
  {
    Acceptable(chain[i], AnchorAt(chain, i, t.validators, t.rotations(i)), t.KeysAt(i), t.ver)
  }

  lemma {:induction false} WalkIndex(chain: seq<Block>, t: Trust, i: nat)
    requires Walks(chain, t) && i < |chain|
    ensures chain[i].index == i && ComputeBlockHash(chain[i]) == chain[i].blockHash
    ensures i > 0 ==> chain[i].prevHash == chain[i - 1].blockHash
  {
    assert WalksAt(chain, t, i);
    if i > 0 { WalkIndex(chain, t, i - 1); }
  }

  /** Every block of a walked chain declares a permutation of the trusted set, and names one of it as proposer. */
  lemma WalkedEndorsed(chain: seq<Block>, t: Trust, i: nat)
    requires Walks(chain, t) && i < |chain| && NoDuplicates(Ids(t.validators))
    ensures chain[i].version == 2 && chain[i].proposer in Ids(t.validators)
    ensures multiset(Ids(chain[i].validators)) == multiset(Ids(t.validators))
  {
    assert WalksAt(chain, t, i);
    AcceptableEndorsed(chain[i], AnchorAt(chain, i, t.validators, t.rotations(i)), t.KeysAt(i), t.ver);
  }

  /** Two clients that agree on one hash agree on the whole chain below it. */
  lemma {:induction false} SameHashSamePrefix(c1: seq<Block>, c2: seq<Block>, t1: Trust, t2: Trust, i: nat, j: nat)
    requires Walks(c1, t1) && Walks(c2, t2) && j <= i < |c1| && i < |c2|
    requires c1[i].blockHash == c2[i].blockHash
    ensures c1[j].blockHash == c2[j].blockHash
    decreases i
  {
    WalkIndex(c1, t1, i);
    WalkIndex(c2, t2, i);
    if j < i { SameHashSamePrefix(c1, c2, t1, t2, i - 1, j); }
  }

  // ---- fork accountability ------------------------------------------------------------------------

  /** The block marks validator j, and the signature it carries at j's rank is over the block hash by a key j holds. */
  ghost predicate MarkedSigner(t: Trust, b: Block, j: nat, cycle: nat)
    requires j < |t.validators|
  {
    var bitmap, sigs := OrEmpty(b.bitmap), OrEmpty(b.prepareSigs);
    && BitSet(bitmap, j) && Rank(bitmap, j) < |sigs|
    && VerifiesUnder(t.ver, KeysFor(t.KeysAt(cycle), t.validators[j].id, cycle), b.blockHash, sigs[Rank(bitmap, j)])
  }

  /** The block carries a signature of this validator. */
  ghost predicate SignedIn(t: Trust, b: Block, id: Id, cycle: nat)
  {
    exists j :: 0 <= j < |t.validators| && t.validators[j].id == id && MarkedSigner(t, b, j, cycle)
  }

  ghost function SignersOf(t: Trust, b: Block, cycle: nat): set<Id>
  {
    set id | id in Ids(t.validators) && SignedIn(t, b, id, cycle)
  }

  /** An accepted block carries the signatures of a quorum of distinct validators over its hash. */
  lemma AcceptedHasQuorum(chain: seq<Block>, t: Trust, i: nat)
    requires Walks(chain, t) && i < |chain| && NoDuplicates(Ids(t.validators))
    ensures |SignersOf(t, chain[i], i)| >= RequiredQuorum(|t.validators|)
  {
    var b, n := chain[i], |t.validators|;
    var a := AnchorAt(chain, i, t.validators, t.rotations(i));
    WalkIndex(chain, t, i);
    assert WalksAt(chain, t, i);
    var bitmap, sigs, ids := OrEmpty(b.bitmap), OrEmpty(b.prepareSigs), Ids(t.validators);
    var top := 8 * |bitmap|;
    PositionsRank(bitmap, top);
    var marked := MarkedIds(bitmap, ids, n);
    forall j: nat | BitSet(bitmap, j) ensures j < n && ids[j] in SignersOf(t, b, i) {
      var k := Rank(bitmap, j);
      assert Positions(bitmap, top)[k] == j;
      assert PositionGood(b, a, t.KeysAt(i), t.ver, k);
      assert MarkedSigner(t, b, j, i);
      assert SignedIn(t, b, ids[j], i);
    }
    MarkedCount(bitmap, ids, n);
    assert forall j :: (n <= j || top <= j) ==> !BitSet(bitmap, j);
    if n <= top { NoBitsPast(bitmap, n, top); } else { NoBitsPast(bitmap, top, n); }
    forall id | id in marked ensures id in SignersOf(t, b, i) { MarkedIdsMeaning(bitmap, ids, n, id); }
    SubsetSize(marked, SignersOf(t, b, i));
  }

  lemma Overlap(s1: set<Id>, s2: set<Id>, all: set<Id>)
    requires s1 <= all && s2 <= all
    ensures |s1 * s2| >= |s1| + |s2| - |all|
  {
    SubsetSize(s1 + s2, all);
    assert |s1 + s2| == |s1| + |s2| - |s1 * s2|;
  }

  /** Where two clients with the same trust hold different hashes, at least ceil(N/3) of the trusted validators signed
      both: the two blocks themselves carry their signatures. */
  lemma ForkAccountability(c1: seq<Block>, c2: seq<Block>, t: Trust, i: nat)
    requires Walks(c1, t) && Walks(c2, t) && i < |c1| && i < |c2|
    requires |t.validators| >= 4 && NoDuplicates(Ids(t.validators))
    requires c1[i].blockHash != c2[i].blockHash
    ensures var both := set id | id in Ids(t.validators) && SignedIn(t, c1[i], id, i) && SignedIn(t, c2[i], id, i);
      |both| >= (|t.validators| + 2) / 3
  {
    var s1, s2 := SignersOf(t, c1[i], i), SignersOf(t, c2[i], i);
    AcceptedHasQuorum(c1, t, i);
    AcceptedHasQuorum(c2, t, i);
    SetOfSize(Ids(t.validators));
    Overlap(s1, s2, SetOf(Ids(t.validators)));
    assert s1 * s2 == set id | id in Ids(t.validators) && SignedIn(t, c1[i], id, i) && SignedIn(t, c2[i], id, i);
  }
}
