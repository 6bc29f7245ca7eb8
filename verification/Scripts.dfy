/**
 * Output script templates (BIP-16, BIP-141, BIP-341), and what the bitcoin and secp256k1 crates
 * compute when a PSBT is signed: a constant record of functions known only by their laws.
 */
module Scripts {
  import opened Bytes
  import opened Bitcoin

  const OP_HASH160: byte := 0xA9
  const OP_EQUAL: byte := 0x87
  const OP_1: byte := 0x51
  const OP_16: byte := 0x60

  /** HASH160, a 20-byte push, EQUAL. */
  predicate IsP2sh(s: bytes) { |s| == 23 && s[0] == OP_HASH160 && s[1] == 20 && s[22] == OP_EQUAL }

  /** A version opcode and one push of 2 to 40 bytes. */
  predicate IsWitnessProgram(s: bytes) {
    4 <= |s| <= 42 && (s[0] == 0 || OP_1 <= s[0] <= OP_16) && s[1] == |s| - 2
  }

  predicate IsP2wpkh(s: bytes) { |s| == 22 && s[0] == 0 && s[1] == 20 }
  predicate IsP2wsh(s: bytes) { |s| == 34 && s[0] == 0 && s[1] == 32 }
  predicate IsP2tr(s: bytes) { |s| == 34 && s[0] == OP_1 && s[1] == 32 }

  datatype SecretKey = SecretKey(bytes: bytes)

  /** Taproot sighashes see one previous output or all of them. */
  datatype Prevouts = OnePrevout(index: nat, prevout: TxOut) | AllPrevouts(prevouts: seq<TxOut>)

  datatype SigningPrimitives = SigningPrimitives(
    hash160: bytes -> bytes,
    sha256: bytes -> bytes,
    // The output key an internal key and an optional merkle root commit to.
    outputKey: (bytes, Option<bytes>) -> bytes,
    publicKey: SecretKey -> bytes,
    tweak: (SecretKey, Option<bytes>) -> SecretKey,
    // The digests: transaction, input index, script code, amount (segwit only), type.
    legacyDigest: (Transaction, nat, bytes, nat) -> bytes,
    segwitDigest: (Transaction, nat, bytes, nat, nat) -> bytes,
    taprootDigest: (Transaction, nat, Prevouts, Option<bytes>, nat) -> bytes,
    ecdsa: (bytes, SecretKey) -> bytes,
    schnorr: (bytes, SecretKey) -> bytes)

  ghost predicate SigningLaws(p: SigningPrimitives) {
    && (forall b: bytes :: |p.hash160(b)| == 20)
    && (forall b: bytes :: |p.sha256(b)| == 32)
    && (forall k: bytes, m: Option<bytes> :: |p.outputKey(k, m)| == 32)
  }

  const NO_SIGNING: SigningPrimitives := SigningPrimitives(
    (b: bytes) => LE(0, 20), (b: bytes) => LE(0, 32), (k: bytes, m: Option<bytes>) => LE(0, 32),
    (k: SecretKey) => [], (k: SecretKey, m: Option<bytes>) => k,
    (t: Transaction, i: nat, s: bytes, n: nat) => [], (t: Transaction, i: nat, s: bytes, a: nat, n: nat) => [],
    (t: Transaction, i: nat, p: Prevouts, l: Option<bytes>, n: nat) => [],
    (d: bytes, k: SecretKey) => [], (d: bytes, k: SecretKey) => [])

  type LawfulSigning = p: SigningPrimitives | SigningLaws(p) witness NO_SIGNING

  const SIGNING: LawfulSigning

  function P2sh(redeem: bytes): bytes { [OP_HASH160, 20] + SIGNING.hash160(redeem) + [OP_EQUAL] }
  function P2wsh(script: bytes): bytes { [0, 32] + SIGNING.sha256(script) }
  function P2tr(internal: bytes, root: Option<bytes>): bytes { [OP_1, 32] + SIGNING.outputKey(internal, root) }

  /** The templates exclude one another, and each built script is of its own template. */
  lemma Templates(s: bytes, root: Option<bytes>)
    ensures IsP2sh(P2sh(s)) && IsP2wsh(P2wsh(s)) && IsP2tr(P2tr(s, root))
    ensures IsP2wpkh(s) || IsP2wsh(s) || IsP2tr(s) ==> IsWitnessProgram(s)
    ensures IsP2sh(s) ==> !IsWitnessProgram(s)
    ensures !(IsP2wpkh(s) && IsP2wsh(s)) && !(IsP2wpkh(s) && IsP2tr(s)) && !(IsP2wsh(s) && IsP2tr(s))
  {
  }

  /**
   * The templates, byte for byte: what a script of each template is made of, so that two scripts of
   * one template differ in their payload only.
   */
  lemma TemplateBytes(s: bytes, root: Option<bytes>)
    ensures IsP2wpkh(s) <==> |s| == 22 && s == [0x00, 0x14] + s[2..]
    ensures IsP2wsh(s) <==> |s| == 34 && s == [0x00, 0x20] + s[2..]
    ensures IsP2tr(s) <==> |s| == 34 && s == [0x51, 0x20] + s[2..]
    ensures IsP2sh(s) <==> |s| == 23 && s == [0xA9, 0x14] + s[2..22] + [0x87]
    ensures IsWitnessProgram(s) <==>
      && 4 <= |s| <= 42 && (s[0] == 0x00 || 0x51 <= s[0] <= 0x60)
      && s == [s[0], |s| - 2] + s[2..]
    ensures P2sh(s) == [0xA9, 0x14] + SIGNING.hash160(s) + [0x87]
    ensures P2wsh(s) == [0x00, 0x20] + SIGNING.sha256(s)
    ensures P2tr(s, root) == [0x51, 0x20] + SIGNING.outputKey(s, root)
  {
  }

  /** The templates are inhabited by every payload of their length. */
  lemma TemplatePayload(h: bytes)
    ensures |h| == 20 ==> IsP2wpkh([0x00, 0x14] + h) && IsP2sh([0xA9, 0x14] + h + [0x87])
    ensures |h| == 32 ==> IsP2wsh([0x00, 0x20] + h) && IsP2tr([0x51, 0x20] + h)
  {
  }
}
