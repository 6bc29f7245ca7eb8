/** The input map of a PSBT, in memory. */
module Input {
  import opened Bytes
  import opened CompactSize
  import opened Bitcoin
  import opened Values
  import opened ValueCodecs
  import opened Tables
  import opened Maps
  import opened MapEncoding
  import opened Fields

  /** The fields both versions of the input map carry (`InputV0`). */
  datatype InputFields = InputFields(
    nonWitnessUtxo: Option<Transaction>,
    witnessUtxo: Option<TxOut>,
    partialSigs: map<bytes, EcdsaSig>,
    sighashType: Option<nat>,
    redeemScript: Option<bytes>,
    witnessScript: Option<bytes>,
    bip32Derivations: map<bytes, KeySource>,
    finalScriptSig: Option<bytes>,
    finalScriptWitness: Option<seq<bytes>>,
    ripemd160Preimages: map<bytes, bytes>,
    sha256Preimages: map<bytes, bytes>,
    hash160Preimages: map<bytes, bytes>,
    hash256Preimages: map<bytes, bytes>,
    tapKeySig: Option<TaprootSig>,
    tapScriptSigs: map<bytes, TaprootSig>,
    tapScripts: map<bytes, LeafScript>,
    tapKeyOrigins: map<bytes, TapKeyOrigin>,
    tapInternalKey: Option<bytes>,
    tapMerkleRoot: Option<bytes>,
    spEcdhShares: map<bytes, bytes>,
    spDleqProofs: map<bytes, bytes>,
    proprietaries: map<bytes, bytes>,
    unknowns: map<Key, bytes>)

  /** A version-2 input: what it spends and when it may be spent, and the rest. */
  datatype Input = Input(
    previousTxid: bytes,
    spentOutputIndex: nat,
    sequence: Option<nat>,
    minTime: Option<nat>,
    minHeight: Option<nat>,
    fields: InputFields)

  predicate Named(t: nat, v0: bool) {
    || t <= FINAL_SCRIPTWITNESS || RIPEMD160 <= t <= HASH256
    || (!v0 && PREVIOUS_TXID <= t <= REQUIRED_HEIGHT)
    || TAP_KEY_SIG <= t <= TAP_MERKLE_ROOT || t == INPUT_SP_ECDH || t == INPUT_SP_DLEQ || t == PROPRIETARY
  }

  /** The value the encoder writes for a key, if it writes one. */
  function FieldsSlot(f: InputFields, k: Key): Option<Value> {
    var t, d := k.keyType, k.data;
    if t == NON_WITNESS_UTXO then Put(d, if f.nonWitnessUtxo.Some? then Some(Tx(f.nonWitnessUtxo.value)) else None)
    else if t == WITNESS_UTXO then Put(d, if f.witnessUtxo.Some? then Some(Out(f.witnessUtxo.value)) else None)
    else if t == PARTIAL_SIG then Look(d, f.partialSigs, MakeEcdsa)
    else if t == SIGHASH_TYPE then Put(d, OptNum(f.sighashType))
    else if t == REDEEM_SCRIPT then Put(d, OptBlob(f.redeemScript))
    else if t == WITNESS_SCRIPT then Put(d, OptBlob(f.witnessScript))
    else if t == BIP32_DERIVATION then Look(d, f.bip32Derivations, MakeSource)
    else if t == FINAL_SCRIPTSIG then Put(d, OptBlob(f.finalScriptSig))
    else if t == FINAL_SCRIPTWITNESS then
      Put(d, if f.finalScriptWitness.Some? then Some(Stack(f.finalScriptWitness.value)) else None)
    else if t == RIPEMD160 then Look(d, f.ripemd160Preimages, MakeBlob)
    else if t == SHA256 then Look(d, f.sha256Preimages, MakeBlob)
    else if t == HASH160 then Look(d, f.hash160Preimages, MakeBlob)
    else if t == HASH256 then Look(d, f.hash256Preimages, MakeBlob)
    else if t == TAP_KEY_SIG then Put(d, if f.tapKeySig.Some? then Some(Taproot(f.tapKeySig.value)) else None)
    else if t == TAP_SCRIPT_SIG then Look(d, f.tapScriptSigs, MakeTaproot)
    else if t == TAP_LEAF_SCRIPT then Look(d, f.tapScripts, MakeLeaf)
    else if t == TAP_BIP32_DERIVATION then Look(d, f.tapKeyOrigins, MakeOrigin)
    else if t == TAP_INTERNAL_KEY then Put(d, OptBlob(f.tapInternalKey))
    else if t == TAP_MERKLE_ROOT then Put(d, OptBlob(f.tapMerkleRoot))
    else if t == INPUT_SP_ECDH then Look(d, f.spEcdhShares, MakeBlob)
    else if t == INPUT_SP_DLEQ then Look(d, f.spDleqProofs, MakeBlob)
    else if t == PROPRIETARY then Look(d, f.proprietaries, MakeBlob)
    else if k in f.unknowns then Some(Blob(f.unknowns[k])) else None
  }

  function InputSlot(i: Input, k: Key): Option<Value> {
    var t, d := k.keyType, k.data;
    if t == PREVIOUS_TXID then Put(d, Some(Blob(i.previousTxid)))
    else if t == OUTPUT_INDEX then Put(d, Some(Num(i.spentOutputIndex)))
    else if t == SEQUENCE then Put(d, OptNum(i.sequence))
    else if t == REQUIRED_TIME then Put(d, OptNum(i.minTime))
    else if t == REQUIRED_HEIGHT then Put(d, OptNum(i.minHeight))
    else FieldsSlot(i.fields, k)
  }

  /** All keys that can be written: one for every field without key data, one for every map entry. */
  function Candidates(f: InputFields): set<Key> {
    SingleKeys() + MapKeys(f) + f.unknowns.Keys
  }

  function MapKeys(f: InputFields): set<Key> {
    KeysOfType(PARTIAL_SIG, f.partialSigs.Keys) + KeysOfType(BIP32_DERIVATION, f.bip32Derivations.Keys)
    + KeysOfType(RIPEMD160, f.ripemd160Preimages.Keys) + KeysOfType(SHA256, f.sha256Preimages.Keys)
    + KeysOfType(HASH160, f.hash160Preimages.Keys) + KeysOfType(HASH256, f.hash256Preimages.Keys)
    + KeysOfType(TAP_SCRIPT_SIG, f.tapScriptSigs.Keys) + KeysOfType(TAP_LEAF_SCRIPT, f.tapScripts.Keys)
    + KeysOfType(TAP_BIP32_DERIVATION, f.tapKeyOrigins.Keys) + KeysOfType(INPUT_SP_ECDH, f.spEcdhShares.Keys)
    + KeysOfType(INPUT_SP_DLEQ, f.spDleqProofs.Keys) + KeysOfType(PROPRIETARY, f.proprietaries.Keys)
  }

  function FieldsRecord(f: InputFields): Record {
    map k | k in Candidates(f) && FieldsSlot(f, k).Some? :: FieldsSlot(f, k).value
  }

  function InputRecord(i: Input): Record {
    map k | k in Candidates(i.fields) && InputSlot(i, k).Some? :: InputSlot(i, k).value
  }

  function UnknownsOf(r: Record, v0: bool): map<Key, bytes> {
    map k | k in r && !Named(k.keyType, v0) :: BlobOf(r[k])
  }

  function BuildFields(r: Record, v0: bool): InputFields {
    InputFields(
      One(r, NON_WITNESS_UTXO, TxOf), One(r, WITNESS_UTXO, OutOf), Many(r, PARTIAL_SIG, EcdsaOf),
      One(r, SIGHASH_TYPE, NumOf), One(r, REDEEM_SCRIPT, BlobOf), One(r, WITNESS_SCRIPT, BlobOf),
      Many(r, BIP32_DERIVATION, KeySourceOf), One(r, FINAL_SCRIPTSIG, BlobOf), One(r, FINAL_SCRIPTWITNESS, StackOf),
      Many(r, RIPEMD160, BlobOf), Many(r, SHA256, BlobOf), Many(r, HASH160, BlobOf), Many(r, HASH256, BlobOf),
      One(r, TAP_KEY_SIG, TaprootOf), Many(r, TAP_SCRIPT_SIG, TaprootOf), Many(r, TAP_LEAF_SCRIPT, LeafOf),
      Many(r, TAP_BIP32_DERIVATION, OriginOf), One(r, TAP_INTERNAL_KEY, BlobOf), One(r, TAP_MERKLE_ROOT, BlobOf),
      Many(r, INPUT_SP_ECDH, BlobOf), Many(r, INPUT_SP_DLEQ, BlobOf), Many(r, PROPRIETARY, BlobOf),
      UnknownsOf(r, v0))
  }

  /** What the decoder hands out at the separator. */
  function BuildInput(r: Record): Input {
    Input(Required(r, PREVIOUS_TXID, BlobOf, []), Required(r, OUTPUT_INDEX, NumOf, 0),
          One(r, SEQUENCE, NumOf), One(r, REQUIRED_TIME, NumOf), One(r, REQUIRED_HEIGHT, NumOf),
          BuildFields(r, false))
  }

  /** Unknown keys are of no type the map gives a meaning to. */
  predicate UnknownsOk(f: InputFields, v0: bool) {
    forall k | k in f.unknowns :: !Named(k.keyType, v0)
  }

  /** A well-formed input: every field within its codec's range, the required checks passed. */
  predicate InputOk(i: Input) {
    && UnknownsOk(i.fields, false)
    && RecordOk(InputV2, InputRecord(i))
    && Complete(InputV2, InputRecord(i)) == None
  }

  predicate FieldsOk(f: InputFields) {
    UnknownsOk(f, true) && RecordOk(InputV0, FieldsRecord(f))
  }

  lemma MapSlots(f: InputFields, k: Key)
    requires k.data != [] || k.keyType >= 256
    requires FieldsSlot(f, k).Some?
    ensures k in MapKeys(f) || k in f.unknowns
  {
    assert k == Key(k.keyType, k.data);
  }

  lemma FieldsSlots(f: InputFields, k: Key)
    ensures FieldsSlot(f, k).Some? ==> k in Candidates(f)
  {
    hide FieldsSlot, MapKeys, SingleKeys;
    SingleKeysExact();
    if FieldsSlot(f, k).Some? && (k.data != [] || k.keyType >= 256) { MapSlots(f, k); }
  }

  lemma FieldsRecordSlots(f: InputFields, k: Key)
    ensures k in FieldsRecord(f) <==> FieldsSlot(f, k).Some?
    ensures k in FieldsRecord(f) ==> FieldsRecord(f)[k] == FieldsSlot(f, k).value
  {
    hide FieldsSlot, Candidates;
    FieldsSlots(f, k);
  }

  lemma InputSlots(i: Input, k: Key)
    ensures InputSlot(i, k).Some? ==> k in Candidates(i.fields)
  {
    hide FieldsSlot, MapKeys, SingleKeys;
    SingleKeysExact();
    if !(PREVIOUS_TXID <= k.keyType <= REQUIRED_HEIGHT) { FieldsSlots(i.fields, k); }
  }

  lemma InputRecordSlots(i: Input, k: Key)
    ensures k in InputRecord(i) <==> InputSlot(i, k).Some?
    ensures k in InputRecord(i) ==> InputRecord(i)[k] == InputSlot(i, k).value
  {
    hide InputSlot, Candidates;
    InputSlots(i, k);
  }

  /** A record that agrees with the fields slot by slot gives the fields back. */
  ghost predicate Agrees(r: Record, f: InputFields, v0: bool) {
    forall k: Key | Named(k.keyType, true) || !Named(k.keyType, v0) ::
      (k in r <==> FieldsSlot(f, k).Some?) && (k in r ==> r[k] == FieldsSlot(f, k).value)
  }

  lemma SingleBack<T>(r: Record, f: InputFields, v0: bool, t: nat, get: Value -> T, o: Option<T>)
    requires Agrees(r, f, v0) && Named(t, true)
    requires FieldsSlot(f, Key(t, [])).Some? <==> o.Some?
    requires o.Some? ==> get(FieldsSlot(f, Key(t, [])).value) == o.value
    ensures One(r, t, get) == o
  {
    hide FieldsSlot;
  }

  lemma BuildSingles(r: Record, f: InputFields, v0: bool)
    requires Agrees(r, f, v0)
    ensures One(r, NON_WITNESS_UTXO, TxOf) == f.nonWitnessUtxo
    ensures One(r, WITNESS_UTXO, OutOf) == f.witnessUtxo
    ensures One(r, SIGHASH_TYPE, NumOf) == f.sighashType
    ensures One(r, REDEEM_SCRIPT, BlobOf) == f.redeemScript
    ensures One(r, WITNESS_SCRIPT, BlobOf) == f.witnessScript
    ensures One(r, FINAL_SCRIPTSIG, BlobOf) == f.finalScriptSig
    ensures One(r, FINAL_SCRIPTWITNESS, StackOf) == f.finalScriptWitness
    ensures One(r, TAP_KEY_SIG, TaprootOf) == f.tapKeySig
    ensures One(r, TAP_INTERNAL_KEY, BlobOf) == f.tapInternalKey
    ensures One(r, TAP_MERKLE_ROOT, BlobOf) == f.tapMerkleRoot
  {
    hide Agrees, One;
    SingleBack(r, f, v0, NON_WITNESS_UTXO, TxOf, f.nonWitnessUtxo);
    SingleBack(r, f, v0, WITNESS_UTXO, OutOf, f.witnessUtxo);
    SingleBack(r, f, v0, SIGHASH_TYPE, NumOf, f.sighashType);
    SingleBack(r, f, v0, REDEEM_SCRIPT, BlobOf, f.redeemScript);
    SingleBack(r, f, v0, WITNESS_SCRIPT, BlobOf, f.witnessScript);
    SingleBack(r, f, v0, FINAL_SCRIPTSIG, BlobOf, f.finalScriptSig);
    SingleBack(r, f, v0, FINAL_SCRIPTWITNESS, StackOf, f.finalScriptWitness);
    SingleBack(r, f, v0, TAP_KEY_SIG, TaprootOf, f.tapKeySig);
    SingleBack(r, f, v0, TAP_INTERNAL_KEY, BlobOf, f.tapInternalKey);
    SingleBack(r, f, v0, TAP_MERKLE_ROOT, BlobOf, f.tapMerkleRoot);
  }

  /** Under the key type of a map field the record holds that map. */
  lemma MapBack<T>(r: Record, f: InputFields, v0: bool, t: nat, get: Value -> T, make: T -> Value, m: map<bytes, T>)
    requires Agrees(r, f, v0) && Named(t, true)
    requires forall d :: FieldsSlot(f, Key(t, d)) == Look(d, m, make)
    requires forall x: T :: get(make(x)) == x
    ensures Many(r, t, get) == m
  {
    hide FieldsSlot;
    ManyIs(r, t, get, make, m);
  }

  lemma BuildKeyMaps(r: Record, f: InputFields, v0: bool)
    requires Agrees(r, f, v0)
    ensures Many(r, PARTIAL_SIG, EcdsaOf) == f.partialSigs
    ensures Many(r, BIP32_DERIVATION, KeySourceOf) == f.bip32Derivations
    ensures Many(r, TAP_SCRIPT_SIG, TaprootOf) == f.tapScriptSigs
    ensures Many(r, TAP_LEAF_SCRIPT, LeafOf) == f.tapScripts
  {
    hide Agrees, Many;
    MapBack(r, f, v0, PARTIAL_SIG, EcdsaOf, MakeEcdsa, f.partialSigs);
    MapBack(r, f, v0, BIP32_DERIVATION, KeySourceOf, MakeSource, f.bip32Derivations);
    MapBack(r, f, v0, TAP_SCRIPT_SIG, TaprootOf, MakeTaproot, f.tapScriptSigs);
    MapBack(r, f, v0, TAP_LEAF_SCRIPT, LeafOf, MakeLeaf, f.tapScripts);
  }

  lemma BuildTapMaps(r: Record, f: InputFields, v0: bool)
    requires Agrees(r, f, v0)
    ensures Many(r, TAP_BIP32_DERIVATION, OriginOf) == f.tapKeyOrigins
    ensures Many(r, PROPRIETARY, BlobOf) == f.proprietaries
    ensures Many(r, RIPEMD160, BlobOf) == f.ripemd160Preimages
    ensures Many(r, SHA256, BlobOf) == f.sha256Preimages
  {
    hide Agrees, Many;
    MapBack(r, f, v0, TAP_BIP32_DERIVATION, OriginOf, MakeOrigin, f.tapKeyOrigins);
    MapBack(r, f, v0, PROPRIETARY, BlobOf, MakeBlob, f.proprietaries);
    MapBack(r, f, v0, RIPEMD160, BlobOf, MakeBlob, f.ripemd160Preimages);
    MapBack(r, f, v0, SHA256, BlobOf, MakeBlob, f.sha256Preimages);
  }

  lemma BuildHashMaps(r: Record, f: InputFields, v0: bool)
    requires Agrees(r, f, v0)
    ensures Many(r, HASH160, BlobOf) == f.hash160Preimages
    ensures Many(r, HASH256, BlobOf) == f.hash256Preimages
    ensures Many(r, INPUT_SP_ECDH, BlobOf) == f.spEcdhShares
    ensures Many(r, INPUT_SP_DLEQ, BlobOf) == f.spDleqProofs
  {
    hide Agrees, Many;
    MapBack(r, f, v0, HASH160, BlobOf, MakeBlob, f.hash160Preimages);
    MapBack(r, f, v0, HASH256, BlobOf, MakeBlob, f.hash256Preimages);
    MapBack(r, f, v0, INPUT_SP_ECDH, BlobOf, MakeBlob, f.spEcdhShares);
    MapBack(r, f, v0, INPUT_SP_DLEQ, BlobOf, MakeBlob, f.spDleqProofs);
  }

  lemma UnnamedSlot(f: InputFields, k: Key, v0: bool)
    requires !Named(k.keyType, v0)
    ensures FieldsSlot(f, k) == if k in f.unknowns then Some(Blob(f.unknowns[k])) else None
  {
  }

  lemma BuildUnknowns(r: Record, f: InputFields, v0: bool)
    requires Agrees(r, f, v0) && UnknownsOk(f, v0)
    ensures UnknownsOf(r, v0) == f.unknowns
  {
    hide FieldsSlot, Named;
    forall k: Key ensures k in UnknownsOf(r, v0) <==> k in f.unknowns
      ensures k in UnknownsOf(r, v0) ==> UnknownsOf(r, v0)[k] == f.unknowns[k]
    {
      if !Named(k.keyType, v0) { UnnamedSlot(f, k, v0); }
    }
  }

  /** Reading the fields back out of what the encoder writes gives the same fields. */
  lemma FieldsBack(r: Record, f: InputFields, v0: bool)
    requires Agrees(r, f, v0) && UnknownsOk(f, v0)
    ensures BuildFields(r, v0) == f
  {
    hide FieldsSlot, Agrees, Named, Many, One, UnknownsOf;
    BuildSingles(r, f, v0);
    BuildKeyMaps(r, f, v0);
    BuildTapMaps(r, f, v0);
    BuildHashMaps(r, f, v0);
    BuildUnknowns(r, f, v0);
  }

  lemma InputAgrees(i: Input)
    ensures Agrees(InputRecord(i), i.fields, false)
    ensures forall k: Key | PREVIOUS_TXID <= k.keyType <= REQUIRED_HEIGHT ::
      && (k in InputRecord(i) <==> InputSlot(i, k).Some?)
      && (k in InputRecord(i) ==> InputRecord(i)[k] == InputSlot(i, k).value)
  {
    hide FieldsSlot, InputRecord;
    forall k: Key
      ensures (k in InputRecord(i) <==> InputSlot(i, k).Some?)
      ensures (k in InputRecord(i) ==> InputRecord(i)[k] == InputSlot(i, k).value)
    {
      InputRecordSlots(i, k);
    }
  }

  /** Reading an input back out of what its encoder writes gives the same input. */
  lemma InputBack(i: Input)
    requires UnknownsOk(i.fields, false)
    ensures BuildInput(InputRecord(i)) == i
  {
    hide FieldsSlot, InputRecord, Agrees, BuildFields, UnknownsOk;
    InputAgrees(i);
    FieldsBack(InputRecord(i), i.fields, false);
  }

  lemma FieldsRecordBack(f: InputFields)
    requires UnknownsOk(f, true)
    ensures BuildFields(FieldsRecord(f), true) == f
  {
    hide FieldsSlot, FieldsRecord, BuildFields, UnknownsOk;
    forall k: Key
      ensures k in FieldsRecord(f) <==> FieldsSlot(f, k).Some?
      ensures k in FieldsRecord(f) ==> FieldsRecord(f)[k] == FieldsSlot(f, k).value
    {
      FieldsRecordSlots(f, k);
    }
    FieldsBack(FieldsRecord(f), f, true);
  }

  /* ----- what the decoder built is written back as what it read ----- */

  /** The kind of value each key type holds, and whether its key has data. */
  predicate KindFor(k: Key, v: Value) {
    var t, single := k.keyType, k.data == [];
    if t == NON_WITNESS_UTXO then single && v.Tx?
    else if t == WITNESS_UTXO then single && v.Out?
    else if t == SIGHASH_TYPE then single && v.Num?
    else if t == REDEEM_SCRIPT || t == WITNESS_SCRIPT || t == FINAL_SCRIPTSIG || t == TAP_INTERNAL_KEY
         || t == TAP_MERKLE_ROOT then single && v.Blob?
    else if t == FINAL_SCRIPTWITNESS then single && v.Stack?
    else if t == TAP_KEY_SIG then single && v.Taproot?
    else if t == PARTIAL_SIG then v.Ecdsa?
    else if t == BIP32_DERIVATION then v.Source?
    else if t == TAP_SCRIPT_SIG then v.Taproot?
    else if t == TAP_LEAF_SCRIPT then v.Leaf?
    else if t == TAP_BIP32_DERIVATION then v.Origin?
    else v.Blob?
  }

  predicate TxKindFor(k: Key, v: Value) {
    k.data == [] && (if k.keyType == PREVIOUS_TXID then v.Blob? else v.Num?)
  }

  function TableOf(v0: bool): Table { if v0 then InputV0 else InputV2 }

  lemma EntryKinds(k: Key, v: Value, v0: bool)
    requires EntryOk(TableOf(v0), k, v)
    ensures if Named(k.keyType, true) || !Named(k.keyType, v0) then KindFor(k, v) else TxKindFor(k, v)
  {
    hide EntryOk, KindFor, TxKindFor, Named;
    if v0 { EntryKindsV0(k, v); } else { EntryKindsV2(k, v); }
  }

  lemma EntryKindsV0(k: Key, v: Value)
    requires EntryOk(InputV0, k, v)
    ensures KindFor(k, v)
  {
    hide EntryOk;
    EntryKind(InputV0, k, v);
  }

  lemma EntryKindsV2(k: Key, v: Value)
    requires EntryOk(InputV2, k, v)
    ensures if Named(k.keyType, true) || !Named(k.keyType, false) then KindFor(k, v) else TxKindFor(k, v)
  {
    hide EntryOk;
    EntryKind(InputV2, k, v);
  }

  ghost predicate Kinded(r: Record, v0: bool) {
    forall k | k in r && (Named(k.keyType, true) || !Named(k.keyType, v0)) :: KindFor(k, r[k])
  }

  lemma RecordKinds(r: Record, v0: bool)
    requires RecordOk(TableOf(v0), r)
    ensures Kinded(r, v0)
    ensures forall k | k in r && !(Named(k.keyType, true) || !Named(k.keyType, v0)) :: TxKindFor(k, r[k])
  {
    hide EntryOk, KindFor, TxKindFor, Named;
    forall k | k in r
      ensures if Named(k.keyType, true) || !Named(k.keyType, v0) then KindFor(k, r[k]) else TxKindFor(k, r[k])
    {
      EntryKinds(k, r[k], v0);
    }
  }

  predicate SingleType(t: nat) {
    || t == NON_WITNESS_UTXO || t == WITNESS_UTXO || SIGHASH_TYPE <= t <= WITNESS_SCRIPT
    || FINAL_SCRIPTSIG <= t <= FINAL_SCRIPTWITNESS || t == TAP_KEY_SIG || TAP_INTERNAL_KEY <= t <= TAP_MERKLE_ROOT
  }

  lemma SingleSlotsBack(r: Record, k: Key, v0: bool)
    requires Kinded(r, v0) && SingleType(k.keyType)
    ensures FieldsSlot(BuildFields(r, v0), k) == At(r, k)
  {
    assert k in r ==> KindFor(k, r[k]);
    assert k.data == [] ==> k == Key(k.keyType, []);
    hide Look, Many, UnknownsOf, Kinded;
  }

  predicate KeyMapType(t: nat) {
    t == PARTIAL_SIG || t == BIP32_DERIVATION || TAP_SCRIPT_SIG <= t <= TAP_BIP32_DERIVATION
  }

  lemma KeyMapSlots(f: InputFields, k: Key)
    ensures k.keyType == PARTIAL_SIG ==> FieldsSlot(f, k) == Look(k.data, f.partialSigs, MakeEcdsa)
    ensures k.keyType == BIP32_DERIVATION ==> FieldsSlot(f, k) == Look(k.data, f.bip32Derivations, MakeSource)
    ensures k.keyType == TAP_SCRIPT_SIG ==> FieldsSlot(f, k) == Look(k.data, f.tapScriptSigs, MakeTaproot)
    ensures k.keyType == TAP_LEAF_SCRIPT ==> FieldsSlot(f, k) == Look(k.data, f.tapScripts, MakeLeaf)
    ensures k.keyType == TAP_BIP32_DERIVATION ==> FieldsSlot(f, k) == Look(k.data, f.tapKeyOrigins, MakeOrigin)
  {
    hide Look;
  }

  lemma KeyMapsBack(r: Record, k: Key, v0: bool)
    requires Kinded(r, v0)
    requires KeyMapType(k.keyType)
    ensures FieldsSlot(BuildFields(r, v0), k) == At(r, k)
  {
    assert k in r ==> KindFor(k, r[k]);
    KeyMapSlots(BuildFields(r, v0), k);
    hide FieldsSlot, Look, Many, One, UnknownsOf, Kinded;
    if k.keyType == PARTIAL_SIG { LookMany(r, k, EcdsaOf, MakeEcdsa); }
    else if k.keyType == BIP32_DERIVATION { LookMany(r, k, KeySourceOf, MakeSource); }
    else if k.keyType == TAP_SCRIPT_SIG { LookMany(r, k, TaprootOf, MakeTaproot); }
    else if k.keyType == TAP_LEAF_SCRIPT { LookMany(r, k, LeafOf, MakeLeaf); }
    else { LookMany(r, k, OriginOf, MakeOrigin); }
  }

  predicate BlobMapType(t: nat) {
    RIPEMD160 <= t <= HASH256 || t == INPUT_SP_ECDH || t == INPUT_SP_DLEQ || t == PROPRIETARY
  }

  function BlobMap(f: InputFields, t: nat): map<bytes, bytes>
    requires BlobMapType(t)
  {
    if t == RIPEMD160 then f.ripemd160Preimages
    else if t == SHA256 then f.sha256Preimages
    else if t == HASH160 then f.hash160Preimages
    else if t == HASH256 then f.hash256Preimages
    else if t == INPUT_SP_ECDH then f.spEcdhShares
    else if t == INPUT_SP_DLEQ then f.spDleqProofs
    else f.proprietaries
  }

  lemma BlobMapSlots(f: InputFields, k: Key)
    requires BlobMapType(k.keyType)
    ensures FieldsSlot(f, k) == Look(k.data, BlobMap(f, k.keyType), MakeBlob)
  {
    hide Look;
  }

  lemma BlobMapBuilt(r: Record, t: nat, v0: bool)
    requires BlobMapType(t)
    ensures BlobMap(BuildFields(r, v0), t) == Many(r, t, BlobOf)
  {
    hide Many, One, UnknownsOf;
  }

  lemma BlobMapsBack(r: Record, k: Key, v0: bool)
    requires Kinded(r, v0) && BlobMapType(k.keyType)
    ensures FieldsSlot(BuildFields(r, v0), k) == At(r, k)
  {
    assert k in r ==> KindFor(k, r[k]);
    hide FieldsSlot, BuildFields, BlobMap, Look, Many, Kinded;
    BlobMapSlots(BuildFields(r, v0), k);
    BlobMapBuilt(r, k.keyType, v0);
    LookMany(r, k, BlobOf, MakeBlob);
  }

  lemma UnknownsBack(r: Record, k: Key, v0: bool)
    requires Kinded(r, v0) && !Named(k.keyType, v0)
    ensures FieldsSlot(BuildFields(r, v0), k) == At(r, k)
  {
    assert k in r ==> KindFor(k, r[k]);
    assert BuildFields(r, v0).unknowns == UnknownsOf(r, v0);
    hide FieldsSlot, BuildFields, Kinded;
    UnnamedSlot(BuildFields(r, v0), k, v0);
  }

  lemma FieldsSlotBack(r: Record, k: Key, v0: bool)
    requires Kinded(r, v0) && (Named(k.keyType, true) || !Named(k.keyType, v0))
    ensures FieldsSlot(BuildFields(r, v0), k) == At(r, k)
  {
    hide FieldsSlot, BuildFields, Kinded, At;
    if SingleType(k.keyType) {
      SingleSlotsBack(r, k, v0);
    } else if KeyMapType(k.keyType) {
      KeyMapsBack(r, k, v0);
    } else if Named(k.keyType, true) {
      BlobMapsBack(r, k, v0);
    } else {
      UnknownsBack(r, k, v0);
    }
  }

  lemma InputSlotBack(r: Record, k: Key)
    requires RecordOk(InputV2, r) && Complete(InputV2, r) == None
    ensures InputSlot(BuildInput(r), k) == At(r, k)
  {
    hide FieldsSlot, BuildFields, RecordOk, KindFor;
    RecordKinds(r, false);
    if PREVIOUS_TXID <= k.keyType <= REQUIRED_HEIGHT {
      assert k == Key(k.keyType, k.data);
    } else {
      FieldsSlotBack(r, k, false);
    }
  }

  /** Writing what was read: the encoder's record of a decoded input is the decoder's. */
  lemma InputForth(r: Record)
    requires RecordOk(InputV2, r) && Complete(InputV2, r) == None
    ensures InputRecord(BuildInput(r)) == r && InputOk(BuildInput(r))
  {
    hide InputSlot, BuildInput, RecordOk, Complete;
    forall k: Key
      ensures k in InputRecord(BuildInput(r)) <==> k in r
      ensures k in r ==> InputRecord(BuildInput(r))[k] == r[k]
    {
      InputRecordSlots(BuildInput(r), k);
      InputSlotBack(r, k);
    }
    assert InputRecord(BuildInput(r)) == r;
    assert UnknownsOk(BuildInput(r).fields, false) by { BuiltUnknowns(r, false); }
  }

  lemma BuiltUnknowns(r: Record, v0: bool)
    ensures UnknownsOk(BuildFields(r, v0), v0)
    ensures BuildInput(r).fields == BuildFields(r, false)
  {
  }

  lemma FieldsForth(r: Record)
    requires RecordOk(InputV0, r)
    ensures FieldsRecord(BuildFields(r, true)) == r && FieldsOk(BuildFields(r, true))
  {
    hide FieldsSlot, BuildFields, RecordOk, KindFor;
    RecordKinds(r, true);
    forall k: Key
      ensures k in FieldsRecord(BuildFields(r, true)) <==> k in r
      ensures k in r ==> FieldsRecord(BuildFields(r, true))[k] == r[k]
    {
      FieldsRecordSlots(BuildFields(r, true), k);
      FieldsSlotBack(r, k, true);
    }
    BuiltUnknowns(r, true);
    assert FieldsRecord(BuildFields(r, true)) == r;
  }

  /* ----- what well-formedness means for the fields ----- */

  lemma SlotIsOk(i: Input, k: Key)
    requires InputOk(i) && InputSlot(i, k).Some?
    ensures RuleOf(InputV2, k).Accept? && KindOk(RuleOf(InputV2, k).codec, InputSlot(i, k).value)
  {
    hide InputSlot, KindOk, RuleOf;
    InputRecordSlots(i, k);
    assert EntryOk(InputV2, k, InputRecord(i)[k]);
  }

  /** The fields that make up the unsigned transaction are within their widths, lock times within their kinds. */
  lemma InputWidths(i: Input)
    requires InputOk(i)
    ensures |i.previousTxid| == 32 && i.spentOutputIndex < U32
    ensures i.sequence.Some? ==> i.sequence.value < U32
    ensures i.minTime.Some? ==> LOCK_TIME_THRESHOLD <= i.minTime.value < U32
    ensures i.minHeight.Some? ==> 0 < i.minHeight.value < LOCK_TIME_THRESHOLD
  {
    hide FieldsSlot, InputOk, KindOk;
    SlotIsOk(i, Key(PREVIOUS_TXID, []));
    BlobMeans(32, AnyBytes, Blob(i.previousTxid));
    SlotIsOk(i, Key(OUTPUT_INDEX, []));
    NumberMeans(4, 0, 0xFFFF_FFFF, Num(i.spentOutputIndex));
    if i.sequence.Some? {
      SlotIsOk(i, Key(SEQUENCE, []));
      NumberMeans(4, 0, 0xFFFF_FFFF, Num(i.sequence.value));
    }
    if i.minTime.Some? {
      SlotIsOk(i, Key(REQUIRED_TIME, []));
      NumberMeans(4, LOCK_TIME_THRESHOLD, 0xFFFF_FFFF, Num(i.minTime.value));
    }
    if i.minHeight.Some? {
      SlotIsOk(i, Key(REQUIRED_HEIGHT, []));
      NumberMeans(4, 1, LOCK_TIME_THRESHOLD - 1, Num(i.minHeight.value));
    }
  }

  /** The cross-field checks: the spent transaction is the one named, and ECDH shares come with proofs. */
  lemma InputChecks(i: Input)
    requires InputOk(i)
    ensures i.fields.nonWitnessUtxo.Some? ==> CRYPTO.txid(i.fields.nonWitnessUtxo.value) == i.previousTxid
    ensures i.fields.spEcdhShares == map[] <==> i.fields.spDleqProofs == map[]
  {
    var r := InputRecord(i);
    hide RecordOk, InputRecord, InputSlot;
    InputRecordSlots(i, Key(NON_WITNESS_UTXO, []));
    InputRecordSlots(i, Key(PREVIOUS_TXID, []));
    assert InputSlot(i, Key(PREVIOUS_TXID, [])) == Some(Blob(i.previousTxid)) by { TxSlots(i); }
    TxSlots(i);
    forall k | k in r ensures k.keyType == INPUT_SP_ECDH ==> k.data in i.fields.spEcdhShares
      ensures k.keyType == INPUT_SP_DLEQ ==> k.data in i.fields.spDleqProofs
    {
      InputRecordSlots(i, k);
      SpSlots(i, k.data);
      assert k == Key(k.keyType, k.data);
    }
    forall d: bytes ensures d in i.fields.spEcdhShares ==> Key(INPUT_SP_ECDH, d) in r
      ensures d in i.fields.spDleqProofs ==> Key(INPUT_SP_DLEQ, d) in r
    {
      InputRecordSlots(i, Key(INPUT_SP_ECDH, d));
      InputRecordSlots(i, Key(INPUT_SP_DLEQ, d));
      SpSlots(i, d);
    }
    if i.fields.spEcdhShares != map[] { var d :| d in i.fields.spEcdhShares; assert Key(INPUT_SP_ECDH, d) in r; }
    if i.fields.spDleqProofs != map[] { var d :| d in i.fields.spDleqProofs; assert Key(INPUT_SP_DLEQ, d) in r; }
  }

  lemma TxSlots(i: Input)
    ensures InputSlot(i, Key(PREVIOUS_TXID, [])) == Some(Blob(i.previousTxid))
    ensures InputSlot(i, Key(NON_WITNESS_UTXO, [])) ==
            if i.fields.nonWitnessUtxo.Some? then Some(Tx(i.fields.nonWitnessUtxo.value)) else None
  {
  }

  lemma SpSlots(i: Input, d: bytes)
    ensures InputSlot(i, Key(INPUT_SP_ECDH, d)) == Look(d, i.fields.spEcdhShares, MakeBlob)
    ensures InputSlot(i, Key(INPUT_SP_DLEQ, d)) == Look(d, i.fields.spDleqProofs, MakeBlob)
  {
  }

  /* ----- version-2 inputs in version-0 maps ----- */

  /** Nothing the version-0 decoder refuses: it accepts neither preimages nor proprietary pairs. */
  predicate NoRefused(f: InputFields) {
    && f.ripemd160Preimages == map[] && f.sha256Preimages == map[]
    && f.hash160Preimages == map[] && f.hash256Preimages == map[]
    && f.proprietaries == map[]
  }

  predicate RefusedType(t: nat) { RIPEMD160 <= t <= HASH256 || t == PROPRIETARY }

  lemma RefusedKeys(f: InputFields)
    ensures NoRefused(f) <==> forall k: Key | RefusedType(k.keyType) :: FieldsSlot(f, k).None?
  {
    if !NoRefused(f) {
      if d :| d in f.ripemd160Preimages { assert FieldsSlot(f, Key(RIPEMD160, d)).Some?; }
      if d :| d in f.sha256Preimages { assert FieldsSlot(f, Key(SHA256, d)).Some?; }
      if d :| d in f.hash160Preimages { assert FieldsSlot(f, Key(HASH160, d)).Some?; }
      if d :| d in f.hash256Preimages { assert FieldsSlot(f, Key(HASH256, d)).Some?; }
      if d :| d in f.proprietaries { assert FieldsSlot(f, Key(PROPRIETARY, d)).Some?; }
    }
  }

  lemma RefusedRule(k: Key, v: Value)
    requires EntryOk(InputV2, k, v) && RefusedType(k.keyType)
    ensures EntryJudged(InputV0, k, v) && !EntryOk(InputV0, k, v)
  {
    hide KindOk, ValueOk, Enc, KeyFits, KeyBody;
    if k.keyType == PROPRIETARY { ProprietaryNonEmpty(k.data); }
    assert ValueOk(BytesCodec, v);
    BytesFit(v);
  }

  /** How a slot fares when the rule changes from version 2 to version 0. */
  lemma RuleDemoted(k: Key, v: Value)
    requires EntryOk(InputV2, k, v)
    requires Named(k.keyType, true) || !Named(k.keyType, false)
    ensures EntryJudged(InputV0, k, v)
    ensures EntryOk(InputV0, k, v) <==> !RefusedType(k.keyType)
  {
    if RefusedType(k.keyType) {
      RefusedRule(k, v);
    } else {
      EntryKind(InputV2, k, v);
      RulesAlike(k);
      hide ValueOk, KeyFits, RuleOf, KindMatches, Named, DataOk;
      assert EntryOk(InputV0, k, v);
    }
  }

  /** But for what version 0 refuses, both versions ask the same of a key they both know. */
  lemma RulesAlike(k: Key)
    requires !RefusedType(k.keyType) && (Named(k.keyType, true) || !Named(k.keyType, false))
    requires RuleOf(InputV2, k).Accept? && DataOk(RuleOf(InputV2, k).data, k.data)
    requires RuleOf(InputV2, k).data == IgnoreData ==> k.data == []
    ensures RuleOf(InputV0, k).Accept? && RuleOf(InputV0, k).codec == RuleOf(InputV2, k).codec
    ensures DataOk(RuleOf(InputV0, k).data, k.data) && Slot(InputV0, k) == k
  {
  }

  lemma BytesFit(v: Value)
    requires ValueOk(BytesCodec, v)
    ensures |Enc(BytesCodec, v)| <= CAP
  {
  }

  lemma ProprietaryNonEmpty(d: bytes)
    requires ReadProprietary(d).Some?
    ensures d != []
  {
  }

  /** The version-0 map of a well-formed input: every slot is judged, and all are accepted iff none is refused. */
  lemma FieldsDemoted(i: Input)
    requires InputOk(i)
    ensures UnknownsOk(i.fields, true)
    ensures forall k | k in FieldsRecord(i.fields) :: EntryJudged(InputV0, k, FieldsRecord(i.fields)[k])
    ensures RecordOk(InputV0, FieldsRecord(i.fields)) <==> NoRefused(i.fields)
  {
    var f, r := i.fields, FieldsRecord(i.fields);
    hide FieldsSlot, FieldsRecord, InputRecord, EntryOk, EntryJudged, NoRefused;
    forall k: Key
      ensures k in r <==> FieldsSlot(f, k).Some?
      ensures k in r ==> EntryJudged(InputV0, k, r[k])
      ensures k in r ==> (EntryOk(InputV0, k, r[k]) <==> !RefusedType(k.keyType))
    {
      FieldsRecordSlots(f, k);
      if k in r {
        FieldsKeys(f, k);
        InputRecordSlots(i, k);
        assert EntryOk(InputV2, k, r[k]);
        RuleDemoted(k, r[k]);
      }
    }
    RefusedKeys(f);
  }

  lemma FieldsKeys(f: InputFields, k: Key)
    requires FieldsSlot(f, k).Some? && UnknownsOk(f, false)
    ensures Named(k.keyType, true) || !Named(k.keyType, false)
  {
  }
}
