/** Keys of key-value pairs and, for each of the six maps, what every key type means. */
module Tables {
  import opened Bytes
  import opened CompactSize
  import opened Bitcoin
  import opened Formats
  import opened Values
  import opened ValueCodecs

  /** A key: its type and the rest of its bytes. */
  datatype Key = Key(keyType: nat, data: bytes)

  function KeyBody(k: Key): bytes { Size(k.keyType) + k.data }

  predicate KeyFits(k: Key) { k.keyType < U64 && |KeyBody(k)| <= CAP }

  /** `KeyDecoder::end`. */
  function ReadKey(body: bytes): Result<Key, Error> {
    if body == [] then Err(EmptyKey)
    else
      match ParseSize64(body)
      case More => Err(TruncatedKeyType)
      case Fail(e) => Err(e)
      case Ready(t, k) => if k > |body| then Err(TruncatedKeyType) else Ok(Key(t, body[k..]))
  }

  /** A key is read back from its bytes, and the bytes of a key that was read are those it is written in. */
  lemma KeyRoundTrip(k: Key, body: bytes)
    ensures k.keyType < U64 ==> ReadKey(KeyBody(k)) == Ok(k)
    ensures ReadKey(body).Ok? ==> ReadKey(body).value.keyType < U64 && KeyBody(ReadKey(body).value) == body
  {
    if k.keyType < U64 {
      SizeComplete(k.keyType, k.data);
      assert KeyBody(k)[|Size(k.keyType)|..] == k.data;
    }
    if ReadKey(body).Ok? {
      SizeSound(body);
    }
  }

  /* ----- proprietary keys ----- */

  datatype ProprietaryKey = ProprietaryKey(prefix: bytes, subtype: nat, data: bytes)

  function ProprietaryBody(k: ProprietaryKey): bytes { Prefixed(k.prefix) + Size(k.subtype) + k.data }

  /** `ProprietaryKey::try_from` on the data of a key of type 0xFC. */
  function ReadProprietary(data: bytes): Option<ProprietaryKey> {
    match ParseBytes(data)
    case Ready(prefix, k) =>
      if k > |data| then None else
      (match ParseSize64(data[k..])
       case Ready(subtype, m) => if m > |data[k..]| then None else Some(ProprietaryKey(prefix, subtype, data[k..][m..]))
       case _ => None)
    case _ => None
  }

  predicate ProprietaryOk(k: ProprietaryKey) { |k.prefix| <= CAP && k.subtype < U64 }

  /** Turning a proprietary key into a raw key and back loses nothing, in both directions. */
  lemma ProprietaryWritten(k: ProprietaryKey)
    requires ProprietaryOk(k)
    ensures ReadProprietary(ProprietaryBody(k)) == Some(k)
  {
    ByteVecCanonical();
    var tail := Size(k.subtype) + k.data;
    assert Writes(ByteVec(), k.prefix, tail);
    Concat(Prefixed(k.prefix), Size(k.subtype), k.data);
    SizeComplete(k.subtype, k.data);
    assert tail[|Size(k.subtype)|..] == k.data;
  }

  lemma ProprietaryRead(data: bytes)
    requires ReadProprietary(data).Some?
    ensures ProprietaryOk(ReadProprietary(data).value) && ProprietaryBody(ReadProprietary(data).value) == data
  {
    ByteVecCanonical();
    assert Reads(ByteVec(), data);
    var k := ParseBytes(data).used;
    SizeSound(data[k..]);
    assert data == data[..k] + data[k..];
    var m := ParseSize64(data[k..]).used;
    assert data[k..] == data[k..][..m] + data[k..][m..];
    Concat(data[..k], data[k..][..m], data[k..][m..]);
  }

  /* ----- the maps ----- */

  datatype Table = GlobalV2 | InputV2 | OutputV2 | GlobalV0 | InputV0 | OutputV0

  const UNSIGNED_TX: nat := 0x00
  const XPUB: nat := 0x01
  const TX_VERSION: nat := 0x02
  const FALLBACK_LOCKTIME: nat := 0x03
  const INPUT_COUNT: nat := 0x04
  const OUTPUT_COUNT: nat := 0x05
  const TX_MODIFIABLE: nat := 0x06
  const GLOBAL_SP_ECDH: nat := 0x07
  const GLOBAL_SP_DLEQ: nat := 0x08
  const VERSION: nat := 0xFB
  const PROPRIETARY: nat := 0xFC

  const NON_WITNESS_UTXO: nat := 0x00
  const WITNESS_UTXO: nat := 0x01
  const PARTIAL_SIG: nat := 0x02
  const SIGHASH_TYPE: nat := 0x03
  const REDEEM_SCRIPT: nat := 0x04
  const WITNESS_SCRIPT: nat := 0x05
  const BIP32_DERIVATION: nat := 0x06
  const FINAL_SCRIPTSIG: nat := 0x07
  const FINAL_SCRIPTWITNESS: nat := 0x08
  const RIPEMD160: nat := 0x0a
  const SHA256: nat := 0x0b
  const HASH160: nat := 0x0c
  const HASH256: nat := 0x0d
  const PREVIOUS_TXID: nat := 0x0e
  const OUTPUT_INDEX: nat := 0x0f
  const SEQUENCE: nat := 0x10
  const REQUIRED_TIME: nat := 0x11
  const REQUIRED_HEIGHT: nat := 0x12
  const TAP_KEY_SIG: nat := 0x13
  const TAP_SCRIPT_SIG: nat := 0x14
  const TAP_LEAF_SCRIPT: nat := 0x15
  const TAP_BIP32_DERIVATION: nat := 0x16
  const TAP_INTERNAL_KEY: nat := 0x17
  const TAP_MERKLE_ROOT: nat := 0x18
  const INPUT_SP_ECDH: nat := 0x1D
  const INPUT_SP_DLEQ: nat := 0x1E

  const OUT_REDEEM_SCRIPT: nat := 0x00
  const OUT_WITNESS_SCRIPT: nat := 0x01
  const OUT_BIP32_DERIVATION: nat := 0x02
  const OUT_AMOUNT: nat := 0x03
  const OUT_SCRIPT: nat := 0x04
  const OUT_TAP_INTERNAL_KEY: nat := 0x05
  const OUT_TAP_TREE: nat := 0x06
  const OUT_TAP_BIP32_DERIVATION: nat := 0x07
  const OUT_SP_V0_INFO: nat := 0x09
  const OUT_SP_V0_LABEL: nat := 0x0A

  /** What a decoder asks of the data of a key. */
  datatype KeyRule =
    | IgnoreData   // never looked at: every key of the type means the same field
    | NoData       // must be empty; a duplicate is reported first
    | EmptyData    // must be empty; that is reported first
    | PublicKeyData | XOnlyData | CompressedData | XpubData | HashData(len: nat)
    | LeafSigData | ControlBlockData | ProprietaryData | RawData

  predicate DataOk(rule: KeyRule, d: bytes) {
    match rule
    case IgnoreData => true
    case NoData => d == []
    case EmptyData => d == []
    case PublicKeyData => CRYPTO.publicKey(d)
    case XOnlyData => CRYPTO.xOnlyKey(d)
    case CompressedData => d != [] && CRYPTO.compressedKey(d)
    case XpubData => CRYPTO.xpub(d)
    case HashData(n) => |d| == n
    case LeafSigData => |d| == 64 && CRYPTO.xOnlyKey(d[..32])
    case ControlBlockData => CRYPTO.controlBlock(d)
    case ProprietaryData => ReadProprietary(d).Some?
    case RawData => true
  }

  /** The stage `from_key` selects: a value decoder, or an error before any value byte is read. */
  datatype Rule = Accept(codec: Codec, data: KeyRule) | Reject(error: Error)

  const U32_CODEC: Codec := Number(4, 0, 0xFFFF_FFFF)
  const PROPRIETARY_RULE: Rule := Accept(BytesCodec, ProprietaryData)
  const UNKNOWN_RULE: Rule := Accept(BytesCodec, RawData)

  /** A field with no key data of its own: `guarded` decoders refuse any as soon as they see the key. */
  function Single(codec: Codec, guarded: bool, k: Key): Rule {
    if !guarded then Accept(codec, IgnoreData)
    else if k.data == [] then Accept(codec, NoData) else Reject(InvalidKeyData)
  }

  function GlobalRule(k: Key, v0: bool): Rule {
    var t := k.keyType;
    if t == VERSION then
      if v0 then Accept(Number(4, 0, 0), EmptyData) else Accept(Number(4, 2, 2), IgnoreData)
    else if t == XPUB then Accept(KeySourceCodec, XpubData)
    else if t == PROPRIETARY then PROPRIETARY_RULE
    else if t == GLOBAL_SP_ECDH then Accept(FixedBlob(33, Compressed), CompressedData)
    else if t == GLOBAL_SP_DLEQ then Accept(FixedBlob(64, AnyBytes), CompressedData)
    else if t == UNSIGNED_TX then
      if v0 then Accept(UnsignedTxCodec, EmptyData) else Reject(ExcludedKey)
    else if v0 then UNKNOWN_RULE
    else if t == TX_VERSION then Accept(U32_CODEC, IgnoreData)
    else if t == FALLBACK_LOCKTIME then Accept(U32_CODEC, IgnoreData)
    else if t == INPUT_COUNT then Accept(CountCodec, IgnoreData)
    else if t == OUTPUT_COUNT then Accept(CountCodec, IgnoreData)
    else if t == TX_MODIFIABLE then Accept(Number(1, 0, 255), IgnoreData)
    else UNKNOWN_RULE
  }

  function Preimage(len: nat, v0: bool, k: Key): Rule {
    if v0 && k.data != [] then Reject(InvalidKeyData) else Accept(BytesCodec, HashData(len))
  }

  function InputRule(k: Key, v0: bool): Rule {
    var t := k.keyType;
    if t == NON_WITNESS_UTXO then Single(TransactionCodec, v0, k)
    else if t == WITNESS_UTXO then Single(TxOutCodec, v0, k)
    else if t == PARTIAL_SIG then Accept(EcdsaCodec, PublicKeyData)
    else if t == SIGHASH_TYPE then Single(U32_CODEC, v0, k)
    else if t == REDEEM_SCRIPT then Single(BytesCodec, v0, k)
    else if t == WITNESS_SCRIPT then Single(BytesCodec, v0, k)
    else if t == BIP32_DERIVATION then Accept(KeySourceCodec, PublicKeyData)
    else if t == FINAL_SCRIPTSIG then Single(BytesCodec, v0, k)
    else if t == FINAL_SCRIPTWITNESS then Single(WitnessCodec, v0, k)
    else if t == RIPEMD160 then Preimage(20, v0, k)
    else if t == SHA256 then Preimage(32, v0, k)
    else if t == HASH160 then Preimage(20, v0, k)
    else if t == HASH256 then Preimage(32, v0, k)
    else if t == TAP_KEY_SIG then Single(TaprootCodec, v0, k)
    else if t == TAP_SCRIPT_SIG then Accept(TaprootCodec, LeafSigData)
    else if t == TAP_LEAF_SCRIPT then Accept(LeafScriptCodec, ControlBlockData)
    else if t == TAP_BIP32_DERIVATION then Accept(TapKeyOriginCodec, XOnlyData)
    else if t == TAP_INTERNAL_KEY then Single(FixedBlob(32, XOnly), v0, k)
    else if t == TAP_MERKLE_ROOT then Single(FixedBlob(32, AnyBytes), v0, k)
    else if t == INPUT_SP_ECDH then Accept(FixedBlob(33, Compressed), CompressedData)
    else if t == INPUT_SP_DLEQ then Accept(FixedBlob(64, AnyBytes), CompressedData)
    else if t == PROPRIETARY then if v0 && k.data != [] then Reject(InvalidKeyData) else PROPRIETARY_RULE
    else if v0 then UNKNOWN_RULE
    else if t == PREVIOUS_TXID then Accept(FixedBlob(32, AnyBytes), IgnoreData)
    else if t == OUTPUT_INDEX then Accept(U32_CODEC, IgnoreData)
    else if t == SEQUENCE then Accept(U32_CODEC, IgnoreData)
    else if t == REQUIRED_TIME then Accept(Number(4, LOCK_TIME_THRESHOLD, 0xFFFF_FFFF), IgnoreData)
    else if t == REQUIRED_HEIGHT then Accept(Number(4, 1, LOCK_TIME_THRESHOLD - 1), IgnoreData)
    else UNKNOWN_RULE
  }

  function OutputRule(k: Key, v0: bool): Rule {
    var t := k.keyType;
    if t == OUT_REDEEM_SCRIPT then Single(BytesCodec, v0, k)
    else if t == OUT_WITNESS_SCRIPT then Single(BytesCodec, v0, k)
    else if t == OUT_BIP32_DERIVATION then Accept(KeySourceCodec, PublicKeyData)
    else if t == OUT_TAP_INTERNAL_KEY then Single(FixedBlob(32, XOnly), v0, k)
    else if t == OUT_TAP_TREE then Single(TapTreeCodec, v0, k)
    else if t == OUT_TAP_BIP32_DERIVATION then Accept(TapKeyOriginCodec, XOnlyData)
    else if t == OUT_SP_V0_INFO then Accept(FixedBlob(66, TwoCompressed), if v0 then IgnoreData else NoData)
    else if t == OUT_SP_V0_LABEL then Accept(U32_CODEC, if v0 then IgnoreData else NoData)
    else if t == PROPRIETARY then if v0 && k.data != [] then Reject(InvalidKeyData) else PROPRIETARY_RULE
    else if v0 then UNKNOWN_RULE
    else if t == OUT_AMOUNT then Accept(Number(8, 0, U64 - 1), IgnoreData)
    else if t == OUT_SCRIPT then Accept(BytesCodec, IgnoreData)
    else UNKNOWN_RULE
  }

  function RuleOf(table: Table, k: Key): Rule {
    match table
    case GlobalV2 => GlobalRule(k, false)
    case GlobalV0 => GlobalRule(k, true)
    case InputV2 => InputRule(k, false)
    case InputV0 => InputRule(k, true)
    case OutputV2 => OutputRule(k, false)
    case OutputV0 => OutputRule(k, true)
  }

  /** The slot a key fills: the key itself, unless its data is never looked at. */
  function Slot(table: Table, k: Key): Key {
    match RuleOf(table, k)
    case Accept(_, IgnoreData) => Key(k.keyType, [])
    case _ => k
  }

  lemma SlotKeepsRule(table: Table, k: Key)
    ensures RuleOf(table, Slot(table, k)) == RuleOf(table, k)
    ensures Slot(table, Slot(table, k)) == Slot(table, k)
    ensures KeyFits(k) ==> KeyFits(Slot(table, k))
  {
  }
}
