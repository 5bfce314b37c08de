/** Counting distinct signers over unordered lists of signatures and keys (pkg/consensus/quorum.go). */
module Quorum {
  import opened Common
  import opened Chain

  type Verifier = (PublicKey, Sig) -> bool

  predicate IsValid(q: QuorumConfig)
  {
    q.total > 0 && q.required > 0 && q.required <= q.total
  }

  /** The keys, empty ones aside, under which some non-empty signature of the list verifies. */
  function Signers(ok: Verifier, sigs: seq<Sig>, keys: seq<PublicKey>): set<PublicKey>
  {
    set pk | pk in keys && pk != [] && SignedBy(ok, sigs, pk)
  }

  predicate SignedBy(ok: Verifier, sigs: seq<Sig>, pk: PublicKey)
  {
    exists i :: 0 <= i < |sigs| && sigs[i] != [] && ok(pk, sigs[i])
  }

  /** No listed signature verifies under two different listed keys. */
  ghost predicate Unambiguous(ok: Verifier, sigs: seq<Sig>, keys: seq<PublicKey>)
  {
    forall s, a, b :: s in sigs && a in keys && b in keys && s != [] && a != [] && b != [] && ok(a, s) && ok(b, s) ==>
      a == b
  }

  /** The first key of the list that is not yet used and verifies the signature. */
  function Pick(ok: Verifier, keys: seq<PublicKey>, used: set<PublicKey>, sig: Sig): Option<PublicKey>
  {
    if keys == [] then None
    else if keys[0] != [] && keys[0] !in used && ok(keys[0], sig) then Some(keys[0])
    else Pick(ok, keys[1..], used, sig)
  }

  /** The keys used up after the signatures in order. */
  function Greedy(ok: Verifier, sigs: seq<Sig>, keys: seq<PublicKey>): set<PublicKey>
  {
    if sigs == [] then {}
    else
      var used, sig := Greedy(ok, sigs[..|sigs| - 1], keys), sigs[|sigs| - 1];
      if sig == [] then used
      else match Pick(ok, keys, used, sig)
           case None => used
           case Some(pk) => used + {pk}
  }

  lemma {:induction false} PickSound(ok: Verifier, keys: seq<PublicKey>, used: set<PublicKey>, sig: Sig)
    ensures match Pick(ok, keys, used, sig)
            case Some(pk) => pk in keys && pk != [] && pk !in used && ok(pk, sig)
            case None => forall pk :: pk in keys && pk != [] && ok(pk, sig) ==> pk in used
  {
    if keys != [] {
      PickSound(ok, keys[1..], used, sig);
    }
  }

  /** Whatever the verifier, only real signers are counted, each once. */
  lemma {:induction false} GreedySound(ok: Verifier, sigs: seq<Sig>, keys: seq<PublicKey>)
    ensures Greedy(ok, sigs, keys) <= Signers(ok, sigs, keys)
  {
    if sigs != [] {
      var init, sig := sigs[..|sigs| - 1], sigs[|sigs| - 1];
      GreedySound(ok, init, keys);
      PickSound(ok, keys, Greedy(ok, init, keys), sig);
      assert forall pk :: SignedBy(ok, init, pk) ==> SignedBy(ok, sigs, pk);
    }
  }

  lemma {:induction false} GreedyComplete(ok: Verifier, sigs: seq<Sig>, keys: seq<PublicKey>)
    requires Unambiguous(ok, sigs, keys)
    ensures Signers(ok, sigs, keys) <= Greedy(ok, sigs, keys)
  {
    if sigs != [] {
      var init, sig := sigs[..|sigs| - 1], sigs[|sigs| - 1];
      GreedyComplete(ok, init, keys);
      PickSound(ok, keys, Greedy(ok, init, keys), sig);
      forall pk | pk in Signers(ok, sigs, keys)
        ensures pk in Greedy(ok, sigs, keys)
      {
        if !SignedBy(ok, init, pk) {
          assert sig != [] && ok(pk, sig);
        }
      }
    }
  }

  /** The greedy count is exact when no signature is ambiguous. */
  lemma GreedyExact(ok: Verifier, sigs: seq<Sig>, keys: seq<PublicKey>)
    requires Unambiguous(ok, sigs, keys)
    ensures Greedy(ok, sigs, keys) == Signers(ok, sigs, keys)
  {
    GreedySound(ok, sigs, keys);
    GreedyComplete(ok, sigs, keys);
  }

  /** The condition is the right one: it is exact on every input iff no signature verifies under two keys. */
  lemma ExactIffUnambiguous(ok: Verifier)
    ensures (forall sigs, keys :: Greedy(ok, sigs, keys) == Signers(ok, sigs, keys))
       <==> (forall s: Sig, a, b :: s != [] && a != [] && b != [] && ok(a, s) && ok(b, s) ==> a == b)
  {
    if s: Sig, a, b :| s != [] && a != [] && b != [] && ok(a, s) && ok(b, s) && a != b {
      assert Greedy(ok, [s], [a, b]) == {a} by {
        assert Greedy(ok, [s][..0], [a, b]) == {};
      }
      assert [s][0] == s && SignedBy(ok, [s], b);
      assert b in Signers(ok, [s], [a, b]);
    } else {
      forall sigs, keys
        ensures Greedy(ok, sigs, keys) == Signers(ok, sigs, keys)
      {
        GreedyExact(ok, sigs, keys);
      }
    }
  }

  /** Order and duplication of signatures and keys do not matter. */
  lemma OrderIrrelevant(ok: Verifier, sigs: seq<Sig>, sigs': seq<Sig>, keys: seq<PublicKey>, keys': seq<PublicKey>)
    requires Unambiguous(ok, sigs, keys)
    requires forall s :: s in sigs <==> s in sigs'
    requires forall k :: k in keys <==> k in keys'
    ensures Greedy(ok, sigs, keys) == Greedy(ok, sigs', keys')
  {
    GreedyExact(ok, sigs, keys);
    GreedyExact(ok, sigs', keys');
    forall pk
      ensures SignedBy(ok, sigs, pk) <==> SignedBy(ok, sigs', pk)
    {
      SignedByMembers(ok, sigs, sigs', pk);
      SignedByMembers(ok, sigs', sigs, pk);
    }
  }

  lemma SignedByMembers(ok: Verifier, a: seq<Sig>, b: seq<Sig>, pk: PublicKey)
    requires forall x :: x in a ==> x in b
    ensures SignedBy(ok, a, pk) ==> SignedBy(ok, b, pk)
  {
    if SignedBy(ok, a, pk) {
      var i :| 0 <= i < |a| && a[i] != [] && ok(pk, a[i]);
      assert a[i] in b;
    }
  }

  lemma GreedyCounts(ok: Verifier, sigs: seq<Sig>, keys: seq<PublicKey>)
    ensures |Greedy(ok, sigs, keys)| <= |Signers(ok, sigs, keys)|
    ensures Unambiguous(ok, sigs, keys) ==> |Greedy(ok, sigs, keys)| == |Signers(ok, sigs, keys)|
  {
    GreedySound(ok, sigs, keys);
    SubsetSize(Greedy(ok, sigs, keys), Signers(ok, sigs, keys));
    if Unambiguous(ok, sigs, keys) { GreedyExact(ok, sigs, keys); }
  }

  method VerifyQuorum(ok: Verifier, sigs: seq<Sig>, pubKeys: seq<PublicKey>, quorum: QuorumConfig) returns (met: bool)
    ensures met ==> 0 < quorum.required <= quorum.total && |Signers(ok, sigs, pubKeys)| >= quorum.required
    ensures Unambiguous(ok, sigs, pubKeys) ==>
              (met <==> 0 < quorum.required <= quorum.total && |Signers(ok, sigs, pubKeys)| >= quorum.required)
    ensures met <==> IsValid(quorum) && |Greedy(ok, sigs, pubKeys)| >= quorum.required
  {
    if !IsValid(quorum) {
      return false;
    }
    var used: set<PublicKey>, validCount := {}, 0;
    for i := 0 to |sigs|
      invariant used == Greedy(ok, sigs[..i], pubKeys) && validCount == |used|
    {
      var sig := sigs[i];
      assert sigs[..i + 1][..i] == sigs[..i];
      if sig == [] {
        continue;
      }
      var j := 0;
      while j < |pubKeys| && !(pubKeys[j] != [] && pubKeys[j] !in used && ok(pubKeys[j], sig))
        invariant 0 <= j <= |pubKeys|
        invariant Pick(ok, pubKeys, used, sig) == Pick(ok, pubKeys[j..], used, sig)
      {
        j := j + 1;
      }
      if j < |pubKeys| {
        used := used + {pubKeys[j]};
        validCount := validCount + 1;
      }
    }
    assert sigs[..|sigs|] == sigs;
    GreedyCounts(ok, sigs, pubKeys);
    return validCount >= quorum.required;
  }
}
