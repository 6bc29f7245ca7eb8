/**
 * The rust-bitcoin types a PSBT carries.
 *
 * Keys, hashes and scripts are the bytes they serialize to. What the bitcoin and secp256k1 crates
 * decide about those bytes is a constant record of functions about which only the laws below are
 * known, so everything proved holds for whatever those crates do within the laws.
 */
module Bitcoin {
  import opened Bytes
  import opened CompactSize

  datatype OutPoint = OutPoint(txid: bytes, vout: nat)
  datatype TxIn = TxIn(previousOutput: OutPoint, scriptSig: bytes, sequence: nat, witnessStack: seq<bytes>)
  datatype TxOut = TxOut(value: nat, scriptPubkey: bytes)
  datatype Transaction = Transaction(version: nat, lockTime: nat, inputs: seq<TxIn>, outputs: seq<TxOut>)

  datatype KeySource = KeySource(fingerprint: bytes, path: seq<nat>)
  datatype TapKeyOrigin = TapKeyOrigin(leafHashes: seq<bytes>, source: KeySource)
  datatype EcdsaSig = EcdsaSig(der: bytes, sighash: nat)
  datatype TaprootSig = TaprootSig(sig: bytes, sighash: nat)
  datatype LeafScript = LeafScript(script: bytes, version: byte)
  datatype TapLeaf = TapLeaf(depth: byte, version: byte, script: bytes)

  const SEQUENCE_MAX: nat := 0xFFFF_FFFF
  /** Lock times below are heights, at or above are times. */
  const LOCK_TIME_THRESHOLD: nat := 500_000_000

  datatype Primitives = Primitives(
    publicKey: bytes -> bool,
    xOnlyKey: bytes -> bool,
    compressedKey: bytes -> bool,
    xpub: bytes -> bool,
    controlBlock: bytes -> bool,
    leafVersion: byte -> bool,
    // Parses a DER signature; the result is its canonical serialization.
    der: bytes -> Option<bytes>,
    // Whether the tree builder accepts these leaves so far, and the leaves of the finished tree.
    addLeaf: seq<TapLeaf> -> bool,
    finishTree: seq<TapLeaf> -> Option<seq<TapLeaf>>,
    // The consensus codec of a whole transaction.
    encodeTx: Transaction -> bytes,
    decodeTx: bytes -> Outcome<Transaction>,
    txid: Transaction -> bytes)

  function LeafBytes(leaf: TapLeaf): bytes {
    [leaf.depth, leaf.version] + Size(|leaf.script|) + leaf.script
  }

  predicate LeavesFit(leaves: seq<TapLeaf>) {
    forall i | 0 <= i < |leaves| :: |leaves[i].script| <= CAP
  }

  function TreeBytes(leaves: seq<TapLeaf>): bytes {
    if leaves == [] then [] else LeafBytes(leaves[0]) + TreeBytes(leaves[1..])
  }

  /** A canonical signature parses to itself and fits the longest DER form. */
  ghost predicate DerLaw(p: Primitives, d: bytes) {
    p.der(d).Some? ==> p.der(p.der(d).value) == p.der(d) && |p.der(d).value| <= 72
  }

  /** Rebuilding a tree from its own leaf list gives the same tree, in as many bytes as were read. */
  ghost predicate TreeLaw(p: Primitives, leaves: seq<TapLeaf>) {
    LeavesFit(leaves) && p.finishTree(leaves).Some? ==>
      var c := p.finishTree(leaves).value;
      && p.finishTree(c) == Some(c) && (forall i | 0 <= i <= |c| :: p.addLeaf(c[..i]))
      && (forall i | 0 <= i < |c| :: p.leafVersion(c[i].version))
      && LeavesFit(c) && |TreeBytes(c)| <= |TreeBytes(leaves)|
  }

  predicate TxFits(p: Primitives, t: Transaction) {
    p.decodeTx(p.encodeTx(t)) == Ready(t, |p.encodeTx(t)|)
  }

  /** The transaction codec is a push decoder that reads exactly what the encoder writes. */
  ghost predicate TxLaw(p: Primitives, b: bytes, c: bytes) {
    && Settled(p.decodeTx(b), p.decodeTx(b + c), |b|)
    && (p.decodeTx(b).Ready? ==>
          TxFits(p, p.decodeTx(b).value) && b[..p.decodeTx(b).used] == p.encodeTx(p.decodeTx(b).value))
  }

  ghost predicate Lawful(p: Primitives) {
    && (forall d :: DerLaw(p, d))
    && (forall leaves :: TreeLaw(p, leaves))
    && (forall b, c :: TxLaw(p, b, c))
    && (forall t :: |p.txid(t)| == 32)
  }

  const NOTHING: Primitives := Primitives(
    (b: bytes) => false, (b: bytes) => false, (b: bytes) => false, (b: bytes) => false, (b: bytes) => false,
    (b: byte) => false, (b: bytes) => None, (l: seq<TapLeaf>) => false, (l: seq<TapLeaf>) => None,
    (t: Transaction) => [], (b: bytes) => Fail(InvalidValue), (t: Transaction) => LE(0, 32))

  type LawfulPrimitives = p: Primitives | Lawful(p) witness NOTHING

  /** What the bitcoin crates compute. */
  const CRYPTO: LawfulPrimitives
}
