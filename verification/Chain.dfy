/** Entries, blocks and block hashes (pkg/chain), with hashes as free constructors. */
module Chain {
  import opened Common
  import opened Smt

  type Id = Bytes          // 16-byte validator or submitter identity
  type PublicKey = Bytes
  type Sig = Bytes

  datatype Entry = Entry(
    hash: Bytes,
    submitter: Id,
    timestamp: int,
    lbl: string,
    approver: Option<Bytes>,
    reference: Option<Bytes>,
    signature: Bytes,
    mandateRef: Option<Bytes>)

  datatype QuorumConfig = QuorumConfig(total: int, required: int)

  datatype ValidatorInfo = ValidatorInfo(id: Id, pk: PublicKey)

  function Ids(vs: seq<ValidatorInfo>): seq<Id>
  {
    seq(|vs|, i requires 0 <= i < |vs| => vs[i].id)
  }

  /** SHA-256 over the hashed block fields; the zero hash stands before block 0. */
  datatype BlockHash =
    | ZeroHash
    | Sha(index: nat, prev: BlockHash, root: Digest, proposer: Id, anchored: seq<Entry>,
          timestamp: int, quorum: QuorumConfig)

  datatype Block = Block(
    index: nat,
    prevHash: BlockHash,
    stateRoot: Digest,
    proposer: Id,
    anchored: seq<Entry>,
    timestamp: int,
    quorum: QuorumConfig,
    validators: seq<ValidatorInfo>,
    blockHash: BlockHash,
    version: nat,
    bitmap: Option<Bytes>,           // None is Go's nil slice
    prepareSigs: Option<seq<Sig>>,
    commitSig: Sig,
    metadata: map<string, string>)

  function ComputeBlockHash(b: Block): BlockHash
  {
    Sha(b.index, b.prevHash, b.stateRoot, b.proposer, b.anchored, b.timestamp, b.quorum)
  }

  /** What an engine stores for an anchored hash. */
  datatype AnchorProof = AnchorProof(blockIndex: nat, blockTime: int, stateRoot: Digest, proof: seq<Digest>,
                                     submitter: Id, lbl: string)

  /** The record is about an entry of the block with this hash. */
  ghost predicate Describes(b: Block, h: Bytes, p: AnchorProof)
  {
    p.blockTime == b.timestamp &&
    exists e :: e in b.anchored && e.hash == h && e.submitter == p.submitter && e.lbl == p.lbl
  }

  const DEGRADED_LABEL := "3cp:degraded-block"

  predicate IsDegradedBlock(b: Block)
  {
    DEGRADED_LABEL in b.metadata && b.metadata[DEGRADED_LABEL] == "true"
  }

  /** ceil(2N/3) */
  function QuorumRequired(n: nat): nat
  {
    (2 * n + 2) / 3
  }

  /** The least number of signers that is at least two thirds of n. */
  lemma QuorumLeast(n: nat, q: nat)
    ensures q >= QuorumRequired(n) <==> 3 * q >= 2 * n
  {
  }

  /** So it is reached exactly while no more than a third, rounded down, is missing. */
  lemma QuorumIffThird(n: nat, missing: nat)
    requires missing <= n
    ensures n - missing >= QuorumRequired(n) <==> missing <= n / 3
  {
  }

  /** The hashes anchored anywhere in a chain. */
  function AnchoredBy(blocks: seq<Block>): set<Bytes>
  {
    if blocks == [] then {} else AnchoredBy(blocks[..|blocks| - 1]) + Hashes(blocks[|blocks| - 1].anchored)
  }

  function Hashes(es: seq<Entry>): set<Bytes>
  {
    set e | e in es :: e.hash
  }
}
