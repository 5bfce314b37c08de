/** Batches of entries: deduplication, removal by hash, and insertion into the state tree. */
module Batch {
  import opened Common
  import opened Smt
  import opened Chain

  const SMT_DEPTH: nat := 256

  function PrevHash(blocks: seq<Block>): BlockHash
  {
    if blocks == [] then ZeroHash else blocks[|blocks| - 1].blockHash
  }

  function Without(es: seq<Entry>, remove: set<Bytes>): seq<Entry>
  {
    if es == [] then []
    else Without(es[..|es| - 1], remove) + (if es[|es| - 1].hash in remove then [] else [es[|es| - 1]])
  }

  lemma {:induction false} WithoutHashes(es: seq<Entry>, remove: set<Bytes>)
    ensures Hashes(Without(es, remove)) == Hashes(es) - remove
  {
    if es != [] {
      var t, e := es[..|es| - 1], es[|es| - 1];
      WithoutHashes(t, remove);
      assert es == t + [e];
      assert Hashes(es) == Hashes(t) + {e.hash};
      assert forall r: seq<Entry> :: Hashes(r + [e]) == Hashes(r) + {e.hash};
      assert Without(t, remove) + [] == Without(t, remove);
    }
  }

  function InsertAll(tree: Digest, es: seq<Entry>): Digest
  {
    if es == [] then tree
    else InsertD(InsertAll(tree, es[..|es| - 1]), es[|es| - 1].hash, es[|es| - 1].hash, SMT_DEPTH - 1)
  }

  /** The first entry of each hash. */
  function Dedup(es: seq<Entry>): seq<Entry>
  {
    if es == [] then []
    else
      var t, e := es[..|es| - 1], es[|es| - 1];
      if e.hash in Hashes(t) then Dedup(t) else Dedup(t) + [e]
  }

  lemma HashesAppend(es: seq<Entry>, e: Entry)
    ensures Hashes(es + [e]) == Hashes(es) + {e.hash}
  {
  }

  lemma HashesConcat(es: seq<Entry>, fs: seq<Entry>)
    ensures Hashes(es + fs) == Hashes(es) + Hashes(fs)
  {
  }

  lemma AnchoredByAppend(blocks: seq<Block>, b: Block)
    ensures AnchoredBy(blocks + [b]) == AnchoredBy(blocks) + Hashes(b.anchored)
  {
    assert (blocks + [b])[..|blocks|] == blocks;
  }

  lemma HashesPrefix(es: seq<Entry>, i: nat)
    requires i < |es|
    ensures Hashes(es[..i + 1]) == Hashes(es[..i]) + {es[i].hash}
  {
    assert es[..i + 1] == es[..i] + [es[i]];
    HashesAppend(es[..i], es[i]);
  }

  /** Deduplication keeps every hash, once. */
  lemma {:induction false} DedupHashes(es: seq<Entry>)
    ensures Hashes(Dedup(es)) == Hashes(es)
    ensures forall i, j :: 0 <= i < j < |Dedup(es)| ==> Dedup(es)[i].hash != Dedup(es)[j].hash
    ensures forall e :: e in Dedup(es) ==> e in es
  {
    if es != [] {
      var t, e := es[..|es| - 1], es[|es| - 1];
      DedupHashes(t);
      assert es == t + [e];
      HashesAppend(t, e);
      HashesAppend(Dedup(t), e);
      forall i | 0 <= i < |Dedup(t)| ensures Dedup(t)[i].hash in Hashes(t) {
        assert Dedup(t)[i] in Dedup(t);
      }
    }
  }

  /** And what it keeps of a hash is the first entry with it. */
  lemma {:induction false} DedupFirst(es: seq<Entry>, k: nat) returns (i: nat)
    requires k < |Dedup(es)|
    ensures i < |es| && es[i] == Dedup(es)[k] && forall j :: 0 <= j < i ==> es[j].hash != es[i].hash
  {
    var t, e := es[..|es| - 1], es[|es| - 1];
    if k < |Dedup(t)| {
      i := DedupFirst(t, k);
    } else {
      i := |t|;
      forall j | 0 <= j < i ensures es[j].hash != e.hash { assert t[j].hash in Hashes(t); }
    }
  }

  // ---- the tree over batches --------------------------------------------------------

  /** The map that sends each hash to itself. */
  function SelfMap(s: set<Bytes>): map<Bytes, Bytes>
  {
    map h | h in s :: h
  }

  ghost predicate HashSized(s: set<Bytes>)
  {
    forall h :: h in s ==> |h| == 32
  }

  lemma InsertOneContents(root: Digest, s: set<Bytes>, h: Bytes)
    requires Canonical(root, SMT_DEPTH) && Contents(root) == SelfMap(s)
    requires HashSized(s + {h})
    ensures Canonical(InsertD(root, h, h, SMT_DEPTH - 1), SMT_DEPTH)
    ensures Contents(InsertD(root, h, h, SMT_DEPTH - 1)) == SelfMap(s + {h})
  {
    assert Contents(root).Keys + {h} == s + {h};
    FixedLengthSeparated(s + {h}, SMT_DEPTH);
    InsertCanonical(root, h, h, SMT_DEPTH);
    assert SelfMap(s)[h := h] == SelfMap(s + {h});
  }

  /** Inserting a batch adds exactly its hashes. */
  lemma {:induction false} InsertAllContents(root: Digest, s: set<Bytes>, es: seq<Entry>)
    requires Canonical(root, SMT_DEPTH) && Contents(root) == SelfMap(s)
    requires HashSized(s) && HashSized(Hashes(es))
    ensures Canonical(InsertAll(root, es), SMT_DEPTH)
    ensures Contents(InsertAll(root, es)) == SelfMap(s + Hashes(es))
  {
    if es != [] {
      var t, e := es[..|es| - 1], es[|es| - 1];
      assert es == t + [e];
      HashesAppend(t, e);
      InsertAllContents(root, s, t);
      InsertOneContents(InsertAll(root, t), s + Hashes(t), e.hash);
      assert s + Hashes(t) + {e.hash} == s + Hashes(es);
    } else {
      assert s + Hashes(es) == s;
    }
  }

  lemma BatchContents(root: Digest, s: set<Bytes>, es: seq<Entry>)
    requires Canonical(root, SMT_DEPTH) && Contents(root) == SelfMap(s)
    requires HashSized(s) && HashSized(Hashes(es))
    ensures Hashes(Dedup(es)) == Hashes(es)
    ensures Canonical(InsertAll(root, Dedup(es)), SMT_DEPTH)
    ensures Contents(InsertAll(root, Dedup(es))) == SelfMap(s + Hashes(es))
  {
    DedupHashes(es);
    InsertAllContents(root, s, Dedup(es));
  }

  /** Inserting a batch a second time changes nothing. */
  lemma InsertAllTwice(root: Digest, s: set<Bytes>, es: seq<Entry>)
    requires Canonical(root, SMT_DEPTH) && Contents(root) == SelfMap(s)
    requires HashSized(s) && HashSized(Hashes(es))
    ensures InsertAll(InsertAll(root, es), es) == InsertAll(root, es)
  {
    InsertAllContents(root, s, es);
    InsertAllContents(InsertAll(root, es), s + Hashes(es), es);
    assert s + Hashes(es) + Hashes(es) == s + Hashes(es);
    CanonicalRootIffMap(InsertAll(InsertAll(root, es), es), InsertAll(root, es), SMT_DEPTH);
  }
}
