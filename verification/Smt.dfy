/**
 The compressed sparse Merkle tree of pkg/smt, seen through its digests.

 Hashes are symbolic: BLAKE3 is read as a free constructor, so a digest is the tree it
 commits to.  `InsertD`, `ProveD`, `GetD` and `FoldD` follow the source's recursions and
 loops on that reading; SmtTree.dfy proves that the store-based code computes them.
*/
module Smt {
  import opened Common

  datatype Digest =
    | Zero                                   // the all-zero 32 bytes
    | LeafH(key: Bytes, value: Bytes)        // leafHash
    | ParH(left: Digest, right: Digest)      // parentHash

  /** The routing bit of a key; bits past the end of the key read as 0. */
  predicate Path(key: Bytes, depth: int)
  {
    depth >= 0 && depth / 8 < |key| && BitAt(key[depth / 8], depth % 8)
  }

  /** Two keys route alike through the lowest n bits. */
  ghost predicate SamePath(a: Bytes, b: Bytes, n: nat)
  {
    forall i :: 0 <= i < n ==> Path(a, i) == Path(b, i)
  }

  /** A set of keys no two of which share a path through a tree of depth n. */
  ghost predicate Separated(keys: set<Bytes>, n: nat)
  {
    forall a, b :: a in keys && b in keys && a != b ==> !SamePath(a, b, n)
  }

  /** The empty-subtree hashes: zeroes[n]. */
  function ZeroAt(n: nat): Digest
  {
    if n == 0 then Zero else ParH(ZeroAt(n - 1), ZeroAt(n - 1))
  }

  /** A digest with at least one leaf below it: exactly the digests the store holds. */
  predicate Live(h: Digest)
  {
    match h
    case Zero => false
    case LeafH(_, _) => true
    case ParH(l, r) => Live(l) || Live(r)
  }

  /** The key-to-value map a digest commits to. */
  function Contents(h: Digest): map<Bytes, Bytes>
  {
    match h
    case Zero => map[]
    case LeafH(k, v) => map[k := v]
    case ParH(l, r) => Contents(l) + Contents(r)
  }

  // ---- the operations -------------------------------------------------------------

  function SplitD(k1: Bytes, h1: Digest, k2: Bytes, h2: Digest, depth: int): Digest
    decreases depth + 1
  {
    if depth < 0 then h2
    else
      var b1, b2 := Path(k1, depth), Path(k2, depth);
      if b1 == b2 then
        var child := SplitD(k1, h1, k2, h2, depth - 1);
        if !b1 then ParH(child, ZeroAt(depth)) else ParH(ZeroAt(depth), child)
      else if !b1 then ParH(h1, h2) else ParH(h2, h1)
  }

  function InsertD(h: Digest, k: Bytes, v: Bytes, depth: int): Digest
    decreases h
  {
    if !Live(h) then LeafH(k, v)
    else
      match h
      case LeafH(k0, _) =>
        if k0 == k then LeafH(k, v)
        else if depth < 0 then h
        else SplitD(k0, h, k, LeafH(k, v), depth)
      case ParH(l, r) =>
        if !Path(k, depth) then ParH(InsertD(l, k, v, depth - 1), r)
        else ParH(l, InsertD(r, k, v, depth - 1))
  }

  /** Siblings from the leaf upwards; n is the number of path bits left. */
  function ProveD(h: Digest, k: Bytes, n: nat): Option<seq<Digest>>
  {
    if !Live(h) then None
    else
      match h
      case LeafH(k0, _) => if k0 == k then Some([]) else None
      case ParH(l, r) =>
        if n == 0 then None
        else
          var b := Path(k, n - 1);
          match ProveD(if b then r else l, k, n - 1)
          case None => None
          case Some(p) => Some(p + [if b then l else r])
  }

  /** The root recomputed from a leaf and its siblings. */
  function FoldD(k: Bytes, v: Bytes, p: seq<Digest>, n: nat): Digest
    requires |p| <= n
  {
    if p == [] then LeafH(k, v)
    else
      var top := p[|p| - 1];
      var below := FoldD(k, v, p[..|p| - 1], n - 1);
      if Path(k, n - 1) then ParH(top, below) else ParH(below, top)
  }

  predicate VerifyD(k: Bytes, v: Bytes, root: Digest, p: seq<Digest>, depth: nat)
  {
    |p| <= depth && FoldD(k, v, p, depth) == root
  }

  /** Get: the loop ends without looking at what lies below bit 0. */
  function GetD(h: Digest, k: Bytes, n: nat): Option<Bytes>
  {
    if n == 0 || !Live(h) then None
    else
      match h
      case LeafH(k0, v0) => if k0 == k then Some(v0) else None
      case ParH(l, r) => GetD(if Path(k, n - 1) then r else l, k, n - 1)
  }

  // ---- shape --------------------------------------------------------------------

  /** Every key lies where its path bits n-1, n-2, ... lead. */
  ghost predicate Placed(h: Digest, n: nat)
  {
    h.ParH? && Live(h) ==>
      && n > 0
      && Placed(h.left, n - 1) && Placed(h.right, n - 1)
      && (forall k :: k in Contents(h.left) ==> !Path(k, n - 1))
      && (forall k :: k in Contents(h.right) ==> Path(k, n - 1))
  }

  /** Compressed: empty subtrees are `zeroes`, and a subtree with one leaf is that leaf. */
  ghost predicate Compact(h: Digest, n: nat)
  {
    if !Live(h) then h == ZeroAt(n)
    else h.ParH? ==>
      && n > 0
      && Compact(h.left, n - 1) && Compact(h.right, n - 1)
      && !(h.left.LeafH? && !Live(h.right))
      && !(h.right.LeafH? && !Live(h.left))
  }

  /** A root as New and Insert produce it: the empty tree's root is the zero hash. */
  ghost predicate Canonical(root: Digest, depth: nat)
  {
    root == Zero || (Live(root) && Placed(root, depth) && Compact(root, depth))
  }

  // ---- basic facts ----------------------------------------------------------------

  lemma {:induction false} LiveIffNonempty(h: Digest)
    ensures Live(h) <==> Contents(h) != map[]
  {
    match h
    case Zero =>
    case LeafH(k, v) => assert k in Contents(h);
    case ParH(l, r) =>
      LiveIffNonempty(l);
      LiveIffNonempty(r);
      if Live(l) { var k :| k in Contents(l); assert k in Contents(h); }
      if Live(r) { var k :| k in Contents(r); assert k in Contents(h); }
  }

  /** No empty-subtree hash is ever a stored node. */
  lemma {:induction false} ZeroAtNotLive(n: nat)
    ensures !Live(ZeroAt(n)) && Contents(ZeroAt(n)) == map[]
  {
    if n > 0 { ZeroAtNotLive(n - 1); }
    LiveIffNonempty(ZeroAt(n));
  }

  /** The digest reached by these branches from the top, false for left; none if the way ends before. */
  function Walk(h: Digest, bits: seq<bool>): Option<Digest>
  {
    if bits == [] then Some(h)
    else if !h.ParH? then None
    else Walk(if bits[0] then h.right else h.left, bits[1..])
  }

  ghost predicate WayOk(h: Digest, n: nat, bits: seq<bool>)
  {
    Walk(h, bits).Some? && if |bits| == n then Walk(h, bits).value == Zero else Walk(h, bits).value.ParH?
  }

  /** Every way down meets a parent n times and then the zero hash: the complete tree of height n over nothing. */
  ghost predicate CompleteZeros(h: Digest, n: nat)
  {
    forall bits: seq<bool> {:trigger WayOk(h, n, bits)} :: |bits| <= n ==> WayOk(h, n, bits)
  }

  lemma WayDown(h: Digest, n: nat, bits: seq<bool>)
    requires n > 0 && h.ParH? && bits != []
    ensures WayOk(h, n, bits) <==> WayOk(if bits[0] then h.right else h.left, n - 1, bits[1..])
  {
  }

  lemma CompleteStep(h: Digest, n: nat)
    requires n > 0
    ensures CompleteZeros(h, n) <==> h.ParH? && CompleteZeros(h.left, n - 1) && CompleteZeros(h.right, n - 1)
  {
    assert WayOk(h, n, []) <==> h.ParH?;
    if CompleteZeros(h, n) {
      forall bits: seq<bool> | |bits| <= n - 1 ensures WayOk(h.left, n - 1, bits) && WayOk(h.right, n - 1, bits) {
        WayDown(h, n, [false] + bits);
        WayDown(h, n, [true] + bits);
        assert WayOk(h, n, [false] + bits) && WayOk(h, n, [true] + bits);
      }
    }
    if h.ParH? && CompleteZeros(h.left, n - 1) && CompleteZeros(h.right, n - 1) {
      forall bits: seq<bool> | |bits| <= n ensures WayOk(h, n, bits) {
        if bits != [] { WayDown(h, n, bits); }
      }
    }
  }

  /** The empty-subtree hashes are exactly the complete trees over nothing. */
  lemma {:induction false} ZeroAtComplete(h: Digest, n: nat)
    ensures CompleteZeros(h, n) <==> h == ZeroAt(n)
  {
    if n == 0 {
      assert WayOk(h, 0, []) <==> h == Zero;
    } else {
      CompleteStep(h, n);
      if h.ParH? {
        ZeroAtComplete(h.left, n - 1);
        ZeroAtComplete(h.right, n - 1);
      }
    }
  }

  lemma {:induction false} CompactBelow(h: Digest, n: nat, bits: seq<bool>)
    requires Live(h) && Compact(h, n) && Walk(h, bits).Some?
    ensures |bits| <= n && (!Live(Walk(h, bits).value) ==> CompleteZeros(Walk(h, bits).value, n - |bits|))
  {
    if bits != [] {
      var c := if bits[0] then h.right else h.left;
      if Live(c) {
        CompactBelow(c, n - 1, bits[1..]);
      } else {
        ZeroAtComplete(c, n - 1);
        EmptyBelow(c, n - 1, bits[1..]);
      }
    }
  }

  lemma {:induction false} EmptyBelow(h: Digest, n: nat, bits: seq<bool>)
    requires CompleteZeros(h, n) && Walk(h, bits).Some?
    ensures |bits| <= n && CompleteZeros(Walk(h, bits).value, n - |bits|)
  {
    assert WayOk(h, n, []);
    if bits != [] {
      CompleteStep(h, n);
      EmptyBelow(if bits[0] then h.right else h.left, n - 1, bits[1..]);
    }
  }

  /** Wherever nothing is stored below a canonical root, there is the complete empty tree of the height left. */
  lemma EmptySidesComplete(root: Digest, depth: nat, bits: seq<bool>)
    requires Canonical(root, depth) && Live(root) && Walk(root, bits).Some? && !Live(Walk(root, bits).value)
    ensures |bits| <= depth && CompleteZeros(Walk(root, bits).value, depth - |bits|)
  {
    CompactBelow(root, depth, bits);
  }

  /** Keys of exactly depth/8 bytes never share a path. */
  lemma FixedLengthSeparated(keys: set<Bytes>, n: nat)
    requires forall k :: k in keys ==> 8 * |k| == n
    ensures Separated(keys, n)
  {
    forall a, b | a in keys && b in keys && a != b ensures !SamePath(a, b, n) {
      if SamePath(a, b, n) {
        forall j | 0 <= j < |a| ensures a[j] == b[j] {
          forall i | 0 <= i < 8 ensures BitAt(a[j], i) == BitAt(b[j], i) {
            assert Path(a, 8 * j + i) == Path(b, 8 * j + i);
          }
          ByteExtensional(a[j], b[j]);
        }
        assert false;
      }
    }
  }

  lemma {:induction false} PlacedSeparated(h: Digest, n: nat)
    requires Placed(h, n)
    ensures Separated(Contents(h).Keys, n)
  {
    if h.ParH? && Live(h) {
      PlacedSeparated(h.left, n - 1);
      PlacedSeparated(h.right, n - 1);
      forall a, b | a in Contents(h) && b in Contents(h) && a != b ensures !SamePath(a, b, n) {
        if SamePath(a, b, n) {
          assert Path(a, n - 1) == Path(b, n - 1);
          assert SamePath(a, b, n - 1);
          assert false;
        }
      }
    } else {
      LiveIffNonempty(h);
    }
  }

  // ---- insertion --------------------------------------------------------------------

  lemma SamePathStep(a: Bytes, b: Bytes, n: nat)
    requires n > 0
    ensures SamePath(a, b, n) <==> SamePath(a, b, n - 1) && Path(a, n - 1) == Path(b, n - 1)
  {
  }

  lemma PadContents(h: Digest, n: nat)
    ensures Contents(ParH(h, ZeroAt(n))) == Contents(h) == Contents(ParH(ZeroAt(n), h))
  {
    ZeroAtNotLive(n);
    assert Contents(h) + map[] == Contents(h) && map[] + Contents(h) == Contents(h);
  }

  function LeafSplit(k1: Bytes, v1: Bytes, k2: Bytes, v2: Bytes, n: nat): Digest
  {
    SplitD(k1, LeafH(k1, v1), k2, LeafH(k2, v2), n - 1)
  }

  /** One step of the split: on to the next bit, or apart. */
  lemma SplitStep(k1: Bytes, v1: Bytes, k2: Bytes, v2: Bytes, n: nat)
    requires n > 0
    ensures var below, whole := LeafSplit(k1, v1, k2, v2, n - 1), LeafSplit(k1, v1, k2, v2, n);
      && (Path(k1, n - 1) == Path(k2, n - 1) && Live(below) ==> Live(whole) && Contents(whole) == Contents(below))
      && (Path(k1, n - 1) != Path(k2, n - 1) && k1 != k2 ==>
            Live(whole) && Contents(whole) == map[k1 := v1, k2 := v2])
  {
    if Path(k1, n - 1) == Path(k2, n - 1) {
      PadContents(LeafSplit(k1, v1, k2, v2, n - 1), n - 1);
    } else if k1 != k2 {
      assert map[k1 := v1] + map[k2 := v2] == map[k2 := v2] + map[k1 := v1] == map[k1 := v1, k2 := v2];
    }
  }

  /** Separating two leaves keeps both, unless no bit separates them: then the newer stays. */
  lemma {:induction false} SplitContents(k1: Bytes, v1: Bytes, k2: Bytes, v2: Bytes, n: nat)
    requires k1 != k2
    ensures Live(LeafSplit(k1, v1, k2, v2, n))
    ensures Contents(LeafSplit(k1, v1, k2, v2, n)) ==
            if SamePath(k1, k2, n) then map[k2 := v2] else map[k1 := v1, k2 := v2]
  {
    if n > 0 {
      SamePathStep(k1, k2, n);
      SplitContents(k1, v1, k2, v2, n - 1);
      SplitStep(k1, v1, k2, v2, n);
    }
  }

  lemma {:induction false} SplitPlaced(k1: Bytes, v1: Bytes, k2: Bytes, v2: Bytes, n: nat)
    requires k1 != k2
    ensures Placed(LeafSplit(k1, v1, k2, v2, n), n)
  {
    if n > 0 && Path(k1, n - 1) == Path(k2, n - 1) {
      SplitPlaced(k1, v1, k2, v2, n - 1);
      SplitContents(k1, v1, k2, v2, n - 1);
      ZeroAtNotLive(n - 1);
    }
  }

  lemma {:induction false} SplitCompact(k1: Bytes, v1: Bytes, k2: Bytes, v2: Bytes, n: nat)
    requires k1 != k2 && !SamePath(k1, k2, n)
    ensures LeafSplit(k1, v1, k2, v2, n).ParH?
    ensures Compact(LeafSplit(k1, v1, k2, v2, n), n)
  {
    SamePathStep(k1, k2, n);
    SplitContents(k1, v1, k2, v2, n);
    if Path(k1, n - 1) == Path(k2, n - 1) {
      SplitCompact(k1, v1, k2, v2, n - 1);
      SplitContents(k1, v1, k2, v2, n - 1);
      ZeroAtNotLive(n - 1);
    }
  }

  /** Insertion keeps every key on its path and adds at most the new key, whatever the keys. */
  lemma {:induction false} InsertPlaced(h: Digest, k: Bytes, v: Bytes, n: nat)
    requires Placed(h, n)
    ensures var r := InsertD(h, k, v, n - 1);
      Placed(r, n) && Live(r) && Contents(r).Keys <= Contents(h).Keys + {k}
  {
    if Live(h) {
      match h
      case LeafH(k0, v0) => if k0 != k { SplitContents(k0, v0, k, v, n); SplitPlaced(k0, v0, k, v, n); }
      case ParH(l, r) =>
        InsertPlaced(if Path(k, n - 1) then r else l, k, v, n - 1);
        PlacedSide(h, k, v, n);
    } else {
      LiveIffNonempty(h);
    }
  }

  lemma PlacedSide(h: Digest, k: Bytes, v: Bytes, n: nat)
    requires Live(h) && h.ParH? && Placed(h, n)
    requires var c := if Path(k, n - 1) then h.right else h.left;
      var r := InsertD(c, k, v, n - 2);
      Placed(r, n - 1) && Live(r) && Contents(r).Keys <= Contents(c).Keys + {k}
    ensures var r := InsertD(h, k, v, n - 1);
      Placed(r, n) && Live(r) && Contents(r).Keys <= Contents(h).Keys + {k}
  {
    var c := if Path(k, n - 1) then h.right else h.left;
    var below := InsertD(c, k, v, n - 2);
    assert InsertD(h, k, v, n - 1) == if Path(k, n - 1) then ParH(h.left, below) else ParH(below, h.right);
    forall x | x in Contents(below) ensures x in Contents(c) || x == k {
      assert x in Contents(below).Keys;
    }
  }

  /** No other stored key shares the path of k. */
  ghost predicate Free(h: Digest, k: Bytes, n: nat)
  {
    forall k' :: k' in Contents(h) && k' != k ==> !SamePath(k', k, n)
  }

  lemma FreeBelow(h: Digest, k: Bytes, n: nat)
    requires h.ParH? && Live(h) && Placed(h, n) && Free(h, k, n)
    ensures Path(k, n - 1) ==> Free(h.right, k, n - 1)
    ensures !Path(k, n - 1) ==> Free(h.left, k, n - 1)
  {
    var c := if Path(k, n - 1) then h.right else h.left;
    forall k' | k' in Contents(c) && k' != k ensures !SamePath(k', k, n - 1) {
      SideContents(h, n, k');
      SamePathStep(k', k, n);
    }
  }

  lemma UpdateUnder(l: map<Bytes, Bytes>, r: map<Bytes, Bytes>, k: Bytes, v: Bytes)
    requires k !in r
    ensures l[k := v] + r == (l + r)[k := v]
  {
  }

  /** Inserting into one side updates the whole. */
  lemma InsertSide(h: Digest, k: Bytes, v: Bytes, n: nat)
    requires Live(h) && h.ParH? && Placed(h, n)
    requires var c := if Path(k, n - 1) then h.right else h.left;
      Contents(InsertD(c, k, v, n - 2)) == Contents(c)[k := v]
    ensures Contents(InsertD(h, k, v, n - 1)) == Contents(h)[k := v]
  {
    if Path(k, n - 1) {
      assert InsertD(h, k, v, n - 1) == ParH(h.left, InsertD(h.right, k, v, n - 2));
    } else {
      assert InsertD(h, k, v, n - 1) == ParH(InsertD(h.left, k, v, n - 2), h.right);
      UpdateUnder(Contents(h.left), Contents(h.right), k, v);
    }
  }

  lemma InsertAtLeaf(h: Digest, k: Bytes, v: Bytes, n: nat)
    requires h.LeafH? && Free(h, k, n)
    ensures Contents(InsertD(h, k, v, n - 1)) == Contents(h)[k := v]
  {
    if h.key != k {
      assert h.key in Contents(h);
      SplitContents(h.key, h.value, k, v, n);
    }
  }

  lemma {:induction false} InsertContents(h: Digest, k: Bytes, v: Bytes, n: nat)
    requires Placed(h, n) && Free(h, k, n)
    ensures Contents(InsertD(h, k, v, n - 1)) == Contents(h)[k := v]
  {
    if !Live(h) {
      LiveIffNonempty(h);
    } else if h.LeafH? {
      InsertAtLeaf(h, k, v, n);
    } else {
      FreeBelow(h, k, n);
      InsertContents(if Path(k, n - 1) then h.right else h.left, k, v, n - 1);
      InsertSide(h, k, v, n);
    }
  }

  lemma {:induction false} InsertCompact(h: Digest, k: Bytes, v: Bytes, n: nat)
    requires Placed(h, n) && Free(h, k, n) && Compact(h, n)
    ensures Compact(InsertD(h, k, v, n - 1), n)
  {
    if Live(h) {
      match h
      case LeafH(k0, v0) =>
        if k0 != k { SplitCompact(k0, v0, k, v, n); }
      case ParH(l, r) =>
        FreeBelow(h, k, n);
        var c := if Path(k, n - 1) then r else l;
        InsertCompact(c, k, v, n - 1);
        InsertPlaced(c, k, v, n - 1);
        InsertLeafOnlyOver(c, k, v, n - 1);
    }
  }

  /** A leaf comes out of an insertion only where there was nothing, or a leaf. */
  lemma InsertLeafOnlyOver(h: Digest, k: Bytes, v: Bytes, n: nat)
    ensures InsertD(h, k, v, n - 1).LeafH? && Live(h) ==> h.LeafH?
  {
  }

  /** Insert acts as a map update exactly when no other stored key shares the new key's path. */
  lemma InsertExact(h: Digest, k: Bytes, v: Bytes, n: nat)
    requires Placed(h, n)
    ensures Contents(InsertD(h, k, v, n - 1)) == Contents(h)[k := v] <==> Free(h, k, n)
  {
    if Free(h, k, n) {
      InsertContents(h, k, v, n);
    } else {
      var k' :| k' in Contents(h) && k' != k && SamePath(k', k, n);
      InsertPlaced(h, k, v, n);
      PlacedSeparated(InsertD(h, k, v, n - 1), n);
      assert k' in Contents(h)[k := v] && k in Contents(h)[k := v];
    }
  }

  lemma InsertCanonical(h: Digest, k: Bytes, v: Bytes, n: nat)
    requires Canonical(h, n) && Free(h, k, n)
    ensures Canonical(InsertD(h, k, v, n - 1), n)
    ensures Contents(InsertD(h, k, v, n - 1)) == Contents(h)[k := v]
  {
    InsertContents(h, k, v, n);
    InsertPlaced(h, k, v, n);
    if h != Zero { InsertCompact(h, k, v, n); }
  }

  // ---- canonicity -------------------------------------------------------------------

  lemma TwoKeys(h: Digest, n: nat)
    requires Live(h) && h.ParH? && Placed(h, n) && Compact(h, n)
    ensures exists a, b :: a in Contents(h) && b in Contents(h) && a != b
  {
    LiveIffNonempty(h.left);
    LiveIffNonempty(h.right);
    if Live(h.left) && Live(h.right) {
      var a :| a in Contents(h.left);
      var b :| b in Contents(h.right);
      assert a in Contents(h) && b in Contents(h);
    } else if Live(h.left) {
      TwoKeys(h.left, n - 1);
      var a, b :| a in Contents(h.left) && b in Contents(h.left) && a != b;
      assert a in Contents(h) && b in Contents(h);
    } else {
      TwoKeys(h.right, n - 1);
      var a, b :| a in Contents(h.right) && b in Contents(h.right) && a != b;
      assert a in Contents(h) && b in Contents(h);
    }
  }

  /** A side of an inner node holds exactly the keys of the node that take that branch. */
  lemma SideContents(h: Digest, n: nat, k: Bytes)
    requires Live(h) && h.ParH? && Placed(h, n)
    ensures k in Contents(h.left) <==> k in Contents(h) && !Path(k, n - 1)
    ensures k in Contents(h.right) <==> k in Contents(h) && Path(k, n - 1)
    ensures k in Contents(h.left) ==> Contents(h.left)[k] == Contents(h)[k]
    ensures k in Contents(h.right) ==> Contents(h.right)[k] == Contents(h)[k]
  {
  }

  lemma SidesAgree(g: Digest, h: Digest, n: nat)
    requires Live(g) && g.ParH? && Placed(g, n)
    requires Live(h) && h.ParH? && Placed(h, n)
    requires Contents(g) == Contents(h)
    ensures Contents(g.left) == Contents(h.left) && Contents(g.right) == Contents(h.right)
  {
    forall k ensures
        && (k in Contents(g.left) <==> k in Contents(h.left))
        && (k in Contents(g.right) <==> k in Contents(h.right))
        && (k in Contents(g.left) ==> Contents(g.left)[k] == Contents(h.left)[k])
        && (k in Contents(g.right) ==> Contents(g.right)[k] == Contents(h.right)[k])
    {
      SideContents(g, n, k);
      SideContents(h, n, k);
    }
  }

  /** One key in a compressed subtree means that subtree is the leaf. */
  lemma SingletonIsLeaf(h: Digest, n: nat, k: Bytes, v: Bytes)
    requires Placed(h, n) && Compact(h, n) && Contents(h) == map[k := v]
    ensures h == LeafH(k, v)
  {
    assert k in Contents(h);
    LiveIffNonempty(h);
    if h.ParH? {
      TwoKeys(h, n);
      assert false;
    }
    assert h.key in Contents(h);
  }

  lemma {:induction false} CompactUnique(g: Digest, h: Digest, n: nat)
    requires Placed(g, n) && Compact(g, n) && Placed(h, n) && Compact(h, n)
    requires Contents(g) == Contents(h)
    ensures g == h
  {
    LiveIffNonempty(g);
    LiveIffNonempty(h);
    if Live(g) {
      if g.LeafH? {
        SingletonIsLeaf(h, n, g.key, g.value);
      } else if h.LeafH? {
        SingletonIsLeaf(g, n, h.key, h.value);
      } else {
        SidesAgree(g, h, n);
        CompactUnique(g.left, h.left, n - 1);
        CompactUnique(g.right, h.right, n - 1);
      }
    }
  }

  /** The root and the map determine each other. */
  lemma CanonicalRootIffMap(g: Digest, h: Digest, n: nat)
    requires Canonical(g, n) && Canonical(h, n)
    ensures g == h <==> Contents(g) == Contents(h)
  {
    LiveIffNonempty(g);
    LiveIffNonempty(h);
    if Contents(g) == Contents(h) && g != Zero { CompactUnique(g, h, n); }
  }

  /** A history of insertions into the empty tree, and the map it leaves. */
  function RootAfter(ops: seq<(Bytes, Bytes)>, depth: nat): Digest
  {
    if ops == [] then Zero
    else
      var (k, v) := ops[|ops| - 1];
      InsertD(RootAfter(ops[..|ops| - 1], depth), k, v, depth - 1)
  }

  function MapAfter(ops: seq<(Bytes, Bytes)>): map<Bytes, Bytes>
  {
    if ops == [] then map[]
    else
      var (k, v) := ops[|ops| - 1];
      MapAfter(ops[..|ops| - 1])[k := v]
  }

  /** The tree refines a plain map over every history whose keys have distinct paths. */
  lemma {:induction false} HistoryRefinesMap(ops: seq<(Bytes, Bytes)>, depth: nat)
    requires Separated(MapAfter(ops).Keys, depth)
    ensures Canonical(RootAfter(ops, depth), depth)
    ensures Contents(RootAfter(ops, depth)) == MapAfter(ops)
  {
    if ops != [] {
      var before := ops[..|ops| - 1];
      var (k, v) := ops[|ops| - 1];
      assert MapAfter(ops) == MapAfter(before)[k := v];
      HistoryRefinesMap(before, depth);
      InsertCanonical(RootAfter(before, depth), k, v, depth);
    }
  }

  /** Any order, repetition or overwriting that ends in the same map ends in the same root,
      and equal roots mean equal maps. */
  lemma CanonicalRoot(ops1: seq<(Bytes, Bytes)>, ops2: seq<(Bytes, Bytes)>, depth: nat)
    requires Separated(MapAfter(ops1).Keys, depth) && Separated(MapAfter(ops2).Keys, depth)
    ensures RootAfter(ops1, depth) == RootAfter(ops2, depth) <==> MapAfter(ops1) == MapAfter(ops2)
  {
    HistoryRefinesMap(ops1, depth);
    HistoryRefinesMap(ops2, depth);
    CanonicalRootIffMap(RootAfter(ops1, depth), RootAfter(ops2, depth), depth);
  }

  lemma FirstInsert(a: (Bytes, Bytes), depth: nat)
    ensures RootAfter([a], depth) == LeafH(a.0, a.1)
    ensures MapAfter([a]) == map[a.0 := a.1]
  {
    assert [a][..0] == [];
    assert RootAfter([], depth) == Zero && MapAfter([]) == map[];
  }

  /** With colliding keys the root does depend on the order of insertion. */
  lemma CollisionOrderMatters(a: (Bytes, Bytes), b: (Bytes, Bytes), depth: nat)
    requires a.0 != b.0 && SamePath(a.0, b.0, depth)
    ensures MapAfter([a, b]) == MapAfter([b, a])
    ensures RootAfter([a, b], depth) != RootAfter([b, a], depth)
  {
    assert [a, b][..1] == [a] && [b, a][..1] == [b];
    FirstInsert(a, depth);
    FirstInsert(b, depth);
    assert SamePath(b.0, a.0, depth);
    SplitContents(a.0, a.1, b.0, b.1, depth);
    SplitContents(b.0, b.1, a.0, a.1, depth);
    if depth > 0 { assert b.0 in map[b.0 := b.1]; }
  }

  // ---- proofs -----------------------------------------------------------------------

  /** Verify accepts exactly the stored pairs, with exactly the proof Prove returns. */
  lemma {:induction false} ProofExact(h: Digest, k: Bytes, v: Bytes, p: seq<Digest>, n: nat)
    requires Placed(h, n)
    ensures VerifyD(k, v, h, p, n) <==>
            k in Contents(h) && Contents(h)[k] == v && ProveD(h, k, n) == Some(p)
  {
    match h
    case Zero =>
    case LeafH(_, _) =>
    case ParH(l, r) =>
      LiveIffNonempty(h);
      if p == [] || n == 0 {
        ProveShape(h, k, n);
      } else {
        var b := Path(k, n - 1);
        var c := if b then r else l;
        var p', top := p[..|p| - 1], p[|p| - 1];
        assert p == p' + [top];
        if Live(h) {
          ProofExact(c, k, v, p', n - 1);
          SideContents(h, n, k);
        } else if |p| <= n && FoldD(k, v, p, n) == h {
          FoldLive(k, v, p, n);
        }
      }
  }

  lemma FoldLive(k: Bytes, v: Bytes, p: seq<Digest>, n: nat)
    requires |p| <= n
    ensures Live(FoldD(k, v, p, n))
  {
  }

  lemma ProveShape(h: Digest, k: Bytes, n: nat)
    ensures ProveD(h, k, n).Some? ==> |ProveD(h, k, n).value| <= n
    ensures ProveD(h, k, n).Some? && h.ParH? ==> ProveD(h, k, n).value != []
  {
  }

  /** Prove fails exactly on absent keys. */
  lemma {:induction false} ProveComplete(h: Digest, k: Bytes, n: nat)
    requires Placed(h, n)
    ensures ProveD(h, k, n).Some? <==> k in Contents(h)
  {
    LiveIffNonempty(h);
    if h.ParH? && Live(h) {
      SideContents(h, n, k);
      ProveComplete(if Path(k, n - 1) then h.right else h.left, k, n - 1);
    }
  }

  // ---- Get --------------------------------------------------------------------------

  /** Get finds a stored key unless its leaf lies below bit 0. */
  lemma {:induction false} GetExact(h: Digest, k: Bytes, n: nat)
    requires Placed(h, n)
    ensures k !in Contents(h) ==> ProveD(h, k, n).None?
    ensures GetD(h, k, n) ==
            match ProveD(h, k, n)
            case None => None
            case Some(p) => if |p| == n then None else Some(Contents(h)[k])
  {
    ProveComplete(h, k, n);
    ProveShape(h, k, n);
    if h.ParH? && Live(h) {
      SideContents(h, n, k);
      GetExact(if Path(k, n - 1) then h.right else h.left, k, n - 1);
    }
  }

  function Replaced(m: map<Bytes, Bytes>, k': Bytes, k: Bytes, v: Bytes): map<Bytes, Bytes>
  {
    (m - {k'})[k := v]
  }

  lemma ReplacedSide(l: map<Bytes, Bytes>, r: map<Bytes, Bytes>, k': Bytes, k: Bytes, v: Bytes)
    ensures k' !in l ==> l + Replaced(r, k', k, v) == Replaced(l + r, k', k, v)
    ensures k' !in r && k !in r ==> Replaced(l, k', k, v) + r == Replaced(l + r, k', k, v)
  {
  }

  /** Two keys of one path are never both held: the older stays on the bottom level, and is replaced above it. */
  lemma {:induction false} InsertCollides(h: Digest, k: Bytes, v: Bytes, k': Bytes, n: nat)
    requires Placed(h, n) && k' in Contents(h) && k' != k && SamePath(k', k, n)
    ensures ProveD(h, k', n).Some?
    ensures Contents(InsertD(h, k, v, n - 1)) ==
            if |ProveD(h, k', n).value| == n then Contents(h) else Replaced(Contents(h), k', k, v)
  {
    LiveIffNonempty(h);
    if h.LeafH? {
      SplitContents(k', h.value, k, v, n);
    } else {
      var c := if Path(k, n - 1) then h.right else h.left;
      SamePathStep(k', k, n);
      SideContents(h, n, k');
      LiveIffNonempty(c);
      InsertCollides(c, k, v, k', n - 1);
      CollideSide(h, k, v, k', n);
      ProveComplete(h, k', n);
      assert |ProveD(h, k', n).value| == |ProveD(c, k', n - 1).value| + 1;
    }
  }

  lemma CollideSide(h: Digest, k: Bytes, v: Bytes, k': Bytes, n: nat)
    requires Live(h) && h.ParH? && Placed(h, n) && Path(k', n - 1) == Path(k, n - 1)
    ensures var c := if Path(k, n - 1) then h.right else h.left;
      var below, whole := Contents(InsertD(c, k, v, n - 2)), Contents(InsertD(h, k, v, n - 1));
      && (below == Contents(c) ==> whole == Contents(h))
      && (below == Replaced(Contents(c), k', k, v) ==> whole == Replaced(Contents(h), k', k, v))
  {
    ReplacedSide(Contents(h.left), Contents(h.right), k', k, v);
    if Path(k, n - 1) {
      assert InsertD(h, k, v, n - 1) == ParH(h.left, InsertD(h.right, k, v, n - 2));
    } else {
      assert InsertD(h, k, v, n - 1) == ParH(InsertD(h.left, k, v, n - 2), h.right);
    }
  }

  /** Two keys that differ in bit 0 only. */
  ghost predicate Twins(a: Bytes, b: Bytes, n: nat)
  {
    a != b && forall i :: 1 <= i < n ==> Path(a, i) == Path(b, i)
  }

  ghost predicate HasTwin(h: Digest, k: Bytes, n: nat)
  {
    exists k' :: k' in Contents(h) && Twins(k', k, n)
  }

  /** Get agrees with the map on k exactly when k has no twin. */
  lemma GetIffNoTwin(h: Digest, k: Bytes, n: nat)
    requires n > 0 && Canonical(h, n)
    ensures GetD(h, k, n) == (if k in Contents(h) then Some(Contents(h)[k]) else None)
            <==> !(k in Contents(h) && HasTwin(h, k, n))
  {
    ProveComplete(h, k, n);
    GetExact(h, k, n);
    if k in Contents(h) { BottomIffTwin(h, k, n); }
  }

  /** Two entries a node can anchor: whatever 32-byte key is stored, storing its twin hides it from Get. */
  lemma TwinHidesKey(k: Bytes, v: Bytes, k': Bytes, v': Bytes)
    requires |k| == 32 == |k'| && Twins(k', k, 256)
    ensures var ops := [(k, v), (k', v')];
      k in MapAfter(ops) && MapAfter(ops)[k] == v && GetD(RootAfter(ops, 256), k, 256) == None
  {
    var ops := [(k, v), (k', v')];
    assert ops[..1] == [(k, v)] && [(k, v)][..0] == [];
    assert MapAfter([(k, v)]) == map[k := v] && MapAfter(ops) == MapAfter(ops[..1])[k' := v'];
    FixedLengthSeparated(MapAfter(ops).Keys, 256);
    HistoryRefinesMap(ops, 256);
    assert HasTwin(RootAfter(ops, 256), k, 256);
    GetIffNoTwin(RootAfter(ops, 256), k, 256);
    ProveComplete(RootAfter(ops, 256), k, 256);
    GetExact(RootAfter(ops, 256), k, 256);
  }

  /** And every key has a twin. */
  lemma EveryKeyHasTwin(k: Bytes) returns (k': Bytes)
    requires |k| == 32
    ensures |k'| == 32 && Twins(k', k, 256)
  {
    k' := k[0 := k[0] ^ 1];
    FlipLowBit(k[0]);
    forall i | 1 <= i < 256 ensures Path(k', i) == Path(k, i) {
      if i / 8 == 0 { assert BitAt(k[0] ^ 1, i % 8) == BitAt(k[0], i % 8); }
    }
  }

  lemma FlipLowBit(b: bv8)
    ensures b ^ 1 != b && forall i :: 1 <= i < 8 ==> BitAt(b ^ 1, i) == BitAt(b, i)
  {
    assert BitAt(b ^ 1, 1) == BitAt(b, 1) && BitAt(b ^ 1, 2) == BitAt(b, 2) && BitAt(b ^ 1, 3) == BitAt(b, 3);
    assert BitAt(b ^ 1, 4) == BitAt(b, 4) && BitAt(b ^ 1, 5) == BitAt(b, 5);
    assert BitAt(b ^ 1, 6) == BitAt(b, 6) && BitAt(b ^ 1, 7) == BitAt(b, 7);
  }

  lemma TwinsStep(a: Bytes, b: Bytes, n: nat)
    requires n > 1
    ensures Twins(a, b, n) <==> Twins(a, b, n - 1) && Path(a, n - 1) == Path(b, n - 1)
  {
  }

  /** Branching on a bit above 0, a twin of k lies on k's own side. */
  lemma TwinBelow(h: Digest, k: Bytes, n: nat)
    requires n > 1 && h.ParH? && Live(h) && Placed(h, n)
    ensures HasTwin(h, k, n) <==> HasTwin(if Path(k, n - 1) then h.right else h.left, k, n - 1)
  {
    var c := if Path(k, n - 1) then h.right else h.left;
    forall k' ensures k' in Contents(h) && Twins(k', k, n) <==> k' in Contents(c) && Twins(k', k, n - 1) {
      SideContents(h, n, k');
      TwinsStep(k', k, n);
    }
  }

  /** On the last bit both sides of a compressed inner node are leaves, each other's twin. */
  lemma BottomHasTwin(h: Digest, k: Bytes)
    requires h.ParH? && Live(h) && Placed(h, 1) && Compact(h, 1) && k in Contents(h)
    ensures h.left.LeafH? && h.right.LeafH? && HasTwin(h, k, 1)
  {
    assert Compact(h.left, 0) && Compact(h.right, 0);
    assert h.left.LeafH? && h.right.LeafH?;
    SideContents(h, 1, h.left.key);
    SideContents(h, 1, h.right.key);
    assert Twins(h.left.key, h.right.key, 1) && Twins(h.right.key, h.left.key, 1);
  }

  lemma {:induction false} BottomIffTwin(h: Digest, k: Bytes, n: nat)
    requires n > 0 && Live(h) && Placed(h, n) && Compact(h, n) && k in Contents(h)
    ensures ProveD(h, k, n).Some?
    ensures |ProveD(h, k, n).value| == n <==> HasTwin(h, k, n)
  {
    ProveComplete(h, k, n);
    if h.ParH? {
      SideContents(h, n, k);
      var c := if Path(k, n - 1) then h.right else h.left;
      if n == 1 {
        BottomHasTwin(h, k);
      } else {
        LiveIffNonempty(c);
        BottomIffTwin(c, k, n - 1);
        TwinBelow(h, k, n);
      }
    }
  }
}
