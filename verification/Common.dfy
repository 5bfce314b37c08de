/** Small shared vocabulary: optional values, byte strings and bit access. */
module Common {

  datatype Option<+T> = None | Some(value: T)

  function OrEmpty<T>(o: Option<seq<T>>): seq<T>
  {
    if o.Some? then o.value else []
  }

  /** Go's []byte. */
  type Bytes = seq<bv8>

  lemma SubsetSize<T>(a: set<T>, b: set<T>)
    requires a <= b
    ensures |a| <= |b|
  {
    assert |b - a| == |b| - |a|;
  }

  /** Bit i of a byte, least significant first: `b & (1 << i) != 0`. */
  predicate BitAt(b: bv8, i: nat)
    requires i < 8
  {
    (b >> i) & 1 == 1
  }

  /** A byte is determined by its eight bits. */
  lemma ByteExtensional(a: bv8, b: bv8)
    requires forall i :: 0 <= i < 8 ==> BitAt(a, i) == BitAt(b, i)
    ensures a == b
  {
    assert BitAt(a, 0) == BitAt(b, 0);
    assert BitAt(a, 1) == BitAt(b, 1);
    assert BitAt(a, 2) == BitAt(b, 2);
    assert BitAt(a, 3) == BitAt(b, 3);
    assert BitAt(a, 4) == BitAt(b, 4);
    assert BitAt(a, 5) == BitAt(b, 5);
    assert BitAt(a, 6) == BitAt(b, 6);
    assert BitAt(a, 7) == BitAt(b, 7);
  }

  /** `b |= 1 << i` switches on bit i and nothing else. */
  lemma SetBitLemma(b: bv8, i: nat, j: nat)
    requires i < 8 && j < 8
    ensures BitAt(b | (1 << i), j) == (BitAt(b, j) || i == j)
  {
  }
}
