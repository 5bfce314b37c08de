/**
 The content-addressed tree object of pkg/smt/smt.go: a mutable map from digest to node,
 updated by recursive inserts and read by loops.  Every method is tied to the digest
 function of module Smt that it computes; no key or value is excluded.
*/
module SmtTree {
  import opened Common
  import opened Smt

  datatype Node =
    | LeafNode(key: Bytes, value: Bytes, hash: Digest)
    | InnerNode(left: Digest, right: Digest, hash: Digest)

  /** What the store must hold under a digest. */
  ghost predicate NodeFor(h: Digest, n: Node)
  {
    match h
    case Zero => false
    case LeafH(k, v) => n == LeafNode(k, v, h)
    case ParH(l, r) => n == InnerNode(l, r, h)
  }

  /** The store holds live digests only, each with its own node, and is closed downwards. */
  ghost predicate StoreOk(store: map<Digest, Node>)
  {
    forall h :: h in store ==>
      && Live(h) && NodeFor(h, store[h])
      && (h.ParH? ==> (Live(h.left) ==> h.left in store) && (Live(h.right) ==> h.right in store))
  }

  /** A proof continued upwards by further siblings. */
  ghost function Extended(o: Option<seq<Digest>>, above: seq<Digest>): Option<seq<Digest>>
  {
    match o
    case None => None
    case Some(p) => Some(p + above)
  }

  lemma ExtendedByNothing(o: Option<seq<Digest>>, s: seq<Digest>)
    ensures Extended(o, []) == o && Extended(Some([]), s) == Some(s)
  {
    assert [] + s == s;
    if o.Some? { assert o.value + [] == o.value; }
  }

  lemma ExtendedTwice(o: Option<seq<Digest>>, s: seq<Digest>, t: seq<Digest>)
    ensures Extended(Extended(o, s), t) == Extended(o, s + t)
  {
    if o.Some? { assert (o.value + s) + t == o.value + (s + t); }
  }

  class SparseMerkleTree {
    var root: Digest
    var depth: nat
    var store: map<Digest, Node>
    var zeroes: seq<Digest>

    ghost predicate StoreValid()
      reads this
    {
      && |zeroes| == depth + 1
      && (forall i :: 0 <= i < depth ==> zeroes[i] == ZeroAt(i))
      && StoreOk(store)
    }

    ghost predicate Valid()
      reads this
    {
      StoreValid() && (Live(root) ==> root in store) && Placed(root, depth)
    }

    constructor (depth: nat)
      ensures Valid() && root == Zero && this.depth == depth && store == map[]
      ensures forall i :: 0 <= i < depth ==> CompleteZeros(zeroes[i], i)
    {
      var zs := seq(depth + 1, _ => Zero);
      for i := 0 to depth
        invariant |zs| == depth + 1
        invariant forall j :: 0 <= j < i ==> zs[j] == ZeroAt(j)
      {
        if i != 0 {
          zs := zs[i := ParH(zs[i - 1], zs[i - 1])];
        } else {
          zs := zs[i := Zero];
        }
      }
      forall i | 0 <= i < depth ensures CompleteZeros(zs[i], i) { ZeroAtComplete(zs[i], i); }
      this.depth := depth;
      zeroes := zs;
      root := Zero;
      store := map[];
    }

    method Insert(key: Bytes, value: Bytes)
      requires Valid()
      modifies this`root, this`store
      ensures Valid()
      ensures root == InsertD(old(root), key, value, depth - 1)
      ensures old(store).Keys <= store.Keys
    {
      InsertPlaced(root, key, value, depth);
      root := InsertAt(root, key, value, depth - 1);
    }

    method InsertAt(current: Digest, key: Bytes, value: Bytes, depth: int) returns (h: Digest)
      requires StoreValid() && depth < this.depth
      requires Live(current) ==> current in store
      modifies this`store
      ensures StoreValid() && old(store).Keys <= store.Keys
      ensures h == InsertD(current, key, value, depth) && Live(h) && h in store
      decreases current
    {
      if current !in store {
        h := LeafH(key, value);
        store := store[h := LeafNode(key, value, h)];
        return;
      }
      var n := store[current];
      match n
      case LeafNode(k0, v0, hash) =>
        if k0 == key {
          h := LeafH(key, value);
          store := store[h := LeafNode(key, value, h)];
        } else if depth < 0 {
          h := hash;
        } else {
          var existing, fresh' := LeafH(k0, v0), LeafH(key, value);
          store := store[fresh' := LeafNode(key, value, fresh')];
          h := SplitAndInsert(k0, existing, key, fresh', depth);
        }
      case InnerNode(left, right, _) =>
        var newLeft, newRight := left, right;
        if !Path(key, depth) {
          newLeft := InsertAt(left, key, value, depth - 1);
        } else {
          newRight := InsertAt(right, key, value, depth - 1);
        }
        h := ParH(newLeft, newRight);
        store := store[h := InnerNode(newLeft, newRight, h)];
    }

    method SplitAndInsert(key1: Bytes, h1: Digest, key2: Bytes, h2: Digest, depth: int) returns (h: Digest)
      requires StoreValid() && depth < this.depth
      requires h1 in store && h2 in store
      modifies this`store
      ensures StoreValid() && old(store).Keys <= store.Keys
      ensures h == SplitD(key1, h1, key2, h2, depth) && Live(h) && h in store
      decreases depth + 1
    {
      if depth < 0 { return h2; }
      var b1, b2 := Path(key1, depth), Path(key2, depth);
      var l, r := if b1 then h2 else h1, if b1 then h1 else h2;
      if b1 == b2 {
        var child := SplitAndInsert(key1, h1, key2, h2, depth - 1);
        var zero := zeroes[depth];
        ZeroAtNotLive(depth);
        l, r := if b1 then zero else child, if b1 then child else zero;
      }
      h := ParH(l, r);
      store := store[h := InnerNode(l, r, h)];
    }

    /** A deep copy: later changes to either object leave the other as it was. */
    method Clone() returns (c: SparseMerkleTree)
      requires Valid()
      ensures fresh(c) && c.Valid()
      ensures c.root == root && c.depth == depth && c.store == store && c.zeroes == zeroes
    {
      c := new SparseMerkleTree(depth);
      c.root, c.store, c.zeroes := root, store, zeroes;
    }

    method Get(key: Bytes) returns (r: Option<Bytes>)
      requires Valid()
      ensures r == GetD(root, key, depth)
    {
      var current, d := root, depth - 1;
      while d >= 0
        invariant -1 <= d < depth
        invariant Live(current) ==> current in store
        invariant GetD(current, key, d + 1) == GetD(root, key, depth)
      {
        if current !in store { return None; }
        match store[current]
        case LeafNode(k0, v0, _) => return if k0 == key then Some(v0) else None;
        case InnerNode(l, r, _) =>
          current := if Path(key, d) then r else l;
          d := d - 1;
      }
      return None;
    }

    method Prove(key: Bytes) returns (r: Option<seq<Digest>>)
      requires Valid()
      ensures r == ProveD(root, key, depth)
      ensures r.Some? <==> key in Contents(root)
    {
      ProveComplete(root, key, depth);
      var proof: seq<Digest> := [];
      var current, d := root, depth - 1;
      ExtendedByNothing(ProveD(root, key, depth), proof);
      while d >= 0
        invariant -1 <= d < depth
        invariant Live(current) ==> current in store
        invariant ProveD(root, key, depth) == Extended(ProveD(current, key, d + 1), proof)
      {
        ExtendedByNothing(None, proof);
        if current !in store { return None; }
        match store[current]
        case LeafNode(k0, _, _) => return if k0 == key then Some(proof) else None;
        case InnerNode(l, r, _) =>
          var b := Path(key, d);
          var sibling, next := if b then l else r, if b then r else l;
          ExtendedTwice(ProveD(next, key, d), [sibling], proof);
          proof := [sibling] + proof;
          current := next;
          d := d - 1;
      }
      ExtendedByNothing(None, proof);
      if current !in store { return None; }
      match store[current]
      case LeafNode(k0, _, _) => return if k0 == key then Some(proof) else None;
      case InnerNode(_, _, _) => return None;
    }

    /** Verify accepts for the current root exactly the stored pair with the proof Prove gives. */
    method Verify(key: Bytes, value: Bytes, root: Digest, proof: seq<Digest>) returns (ok: bool)
      ensures ok == VerifyD(key, value, root, proof, depth)
      ensures Valid() && root == this.root ==>
        (ok <==> key in Contents(root) && Contents(root)[key] == value && ProveD(root, key, depth) == Some(proof))
    {
      if Placed(root, depth) { ProofExact(root, key, value, proof, depth); }
      if |proof| > depth { return false; }
      var current := LeafH(key, value);
      var baseDepth := depth - 1 - |proof|;
      for i := 0 to |proof|
        invariant current == FoldD(key, value, proof[..i], baseDepth + 1 + i)
      {
        var d := baseDepth + i + 1;
        assert proof[..i + 1][..i] == proof[..i];
        current := if !Path(key, d) then ParH(current, proof[i]) else ParH(proof[i], current);
      }
      assert proof[..|proof|] == proof;
      return current == root;
    }
  }
}
