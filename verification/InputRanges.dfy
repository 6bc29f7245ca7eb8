/**
 * What a well-formed input is, field by field. The tables say what a decoder takes pair by pair; these
 * are the same conditions on the structure a caller holds, so that decoding, encoding and the
 * round trips can be read without the tables.
 */
module InputRanges {
  import opened Bytes
  import opened CompactSize
  import opened Bitcoin
  import opened Values
  import opened ValueCodecs
  import opened Tables
  import opened Maps
  import opened MapEncoding
  import opened Fields
  import opened Ranges
  import opened FieldRanges
  import opened Promotion
  import I = Input

  /* ----- slots, by key type ----- */

  function Inputs(i: I.Input): Key -> Option<Value> { (k: Key) => I.InputSlot(i, k) }

  /** Where each field of an input stands on the wire: its key type, its key data and its value. */
  lemma InputKeys(i: I.Input, d: bytes)
    ensures I.InputSlot(i, Key(0x0e, d)) == Put(d, Some(Blob(i.previousTxid)))
    ensures I.InputSlot(i, Key(0x0f, d)) == Put(d, Some(Num(i.spentOutputIndex)))
    ensures I.InputSlot(i, Key(0x10, d)) == Put(d, OptNum(i.sequence))
    ensures I.InputSlot(i, Key(0x11, d)) == Put(d, OptNum(i.minTime))
    ensures I.InputSlot(i, Key(0x12, d)) == Put(d, OptNum(i.minHeight))
    ensures forall t: nat | !(0x0e <= t <= 0x12) :: I.InputSlot(i, Key(t, d)) == I.FieldsSlot(i.fields, Key(t, d))
  {
    hide Put, OptNum, I.FieldsSlot;
  }

  lemma FieldKeys(f: I.InputFields, d: bytes)
    ensures I.FieldsSlot(f, Key(0x00, d))
         == Put(d, if f.nonWitnessUtxo.Some? then Some(Tx(f.nonWitnessUtxo.value)) else None)
    ensures I.FieldsSlot(f, Key(0x01, d))
         == Put(d, if f.witnessUtxo.Some? then Some(Out(f.witnessUtxo.value)) else None)
    ensures I.FieldsSlot(f, Key(0x03, d)) == Put(d, OptNum(f.sighashType))
    ensures I.FieldsSlot(f, Key(0x04, d)) == Put(d, OptBlob(f.redeemScript))
    ensures I.FieldsSlot(f, Key(0x05, d)) == Put(d, OptBlob(f.witnessScript))
    ensures I.FieldsSlot(f, Key(0x07, d)) == Put(d, OptBlob(f.finalScriptSig))
    ensures I.FieldsSlot(f, Key(0x08, d))
         == Put(d, if f.finalScriptWitness.Some? then Some(Stack(f.finalScriptWitness.value)) else None)
  {
    hide Put, Look, OptNum, OptBlob;
  }

  lemma TapFieldKeys(f: I.InputFields, d: bytes)
    ensures I.FieldsSlot(f, Key(0x13, d))
         == Put(d, if f.tapKeySig.Some? then Some(Taproot(f.tapKeySig.value)) else None)
    ensures I.FieldsSlot(f, Key(0x14, d)) == Look(d, f.tapScriptSigs, MakeTaproot)
    ensures I.FieldsSlot(f, Key(0x15, d)) == Look(d, f.tapScripts, MakeLeaf)
    ensures I.FieldsSlot(f, Key(0x16, d)) == Look(d, f.tapKeyOrigins, MakeOrigin)
    ensures I.FieldsSlot(f, Key(0x17, d)) == Put(d, OptBlob(f.tapInternalKey))
    ensures I.FieldsSlot(f, Key(0x18, d)) == Put(d, OptBlob(f.tapMerkleRoot))
  {
    hide Put, Look, OptNum, OptBlob;
  }

  lemma MapFieldKeys(f: I.InputFields, d: bytes)
    ensures I.FieldsSlot(f, Key(0x02, d)) == Look(d, f.partialSigs, MakeEcdsa)
    ensures I.FieldsSlot(f, Key(0x06, d)) == Look(d, f.bip32Derivations, MakeSource)
    ensures I.FieldsSlot(f, Key(0x0a, d)) == Look(d, f.ripemd160Preimages, MakeBlob)
    ensures I.FieldsSlot(f, Key(0x0b, d)) == Look(d, f.sha256Preimages, MakeBlob)
    ensures I.FieldsSlot(f, Key(0x0c, d)) == Look(d, f.hash160Preimages, MakeBlob)
    ensures I.FieldsSlot(f, Key(0x0d, d)) == Look(d, f.hash256Preimages, MakeBlob)
    ensures I.FieldsSlot(f, Key(0x1d, d)) == Look(d, f.spEcdhShares, MakeBlob)
    ensures I.FieldsSlot(f, Key(0x1e, d)) == Look(d, f.spDleqProofs, MakeBlob)
    ensures I.FieldsSlot(f, Key(0xfc, d)) == Look(d, f.proprietaries, MakeBlob)
  {
    hide Put, Look, OptNum, OptBlob;
  }

  /* ----- what each key type of an input takes ----- */

  /** Both versions of the input map share all fields but those of the transaction. */
  ghost predicate WritesFields(slot: Key -> Option<Value>, f: I.InputFields) {
    forall t: nat, d: bytes | !(0x0e <= t <= 0x12) :: slot(Key(t, d)) == I.FieldsSlot(f, Key(t, d))
  }

  predicate InputTable(table: Table) { table.InputV2? || table.InputV0? }

  lemma SingleRules(table: Table)
    requires InputTable(table)
    ensures TakesSingle(table, 0x00, TransactionCodec) && TakesSingle(table, 0x01, TxOutCodec)
    ensures TakesSingle(table, 0x03, Number(4, 0, 0xFFFF_FFFF))
    ensures TakesSingle(table, 0x04, BytesCodec) && TakesSingle(table, 0x05, BytesCodec)
    ensures TakesSingle(table, 0x07, BytesCodec) && TakesSingle(table, 0x08, WitnessCodec)
    ensures TakesSingle(table, 0x13, TaprootCodec)
    ensures TakesSingle(table, 0x17, FixedBlob(32, XOnly)) && TakesSingle(table, 0x18, FixedBlob(32, AnyBytes))
  {
  }

  lemma MapRules(table: Table)
    requires InputTable(table)
    ensures TakesMap(table, 0x02, EcdsaCodec, PublicKeyData) && TakesMap(table, 0x06, KeySourceCodec, PublicKeyData)
    ensures TakesMap(table, 0x14, TaprootCodec, LeafSigData) && TakesMap(table, 0x15, LeafScriptCodec, ControlBlockData)
    ensures TakesMap(table, 0x16, TapKeyOriginCodec, XOnlyData)
    ensures TakesMap(table, 0x1d, FixedBlob(33, Compressed), CompressedData)
    ensures TakesMap(table, 0x1e, FixedBlob(64, AnyBytes), CompressedData)
  {
  }

  lemma PreimageRules()
    ensures TakesMap(InputV2, 0x0a, BytesCodec, HashData(20)) && TakesMap(InputV2, 0x0b, BytesCodec, HashData(32))
    ensures TakesMap(InputV2, 0x0c, BytesCodec, HashData(20)) && TakesMap(InputV2, 0x0d, BytesCodec, HashData(32))
    ensures TakesMap(InputV2, 0xfc, BytesCodec, ProprietaryData)
  {
  }

  /* ----- inputs ----- */

  /** The key types of input fields, in version 2. */
  predicate InputType(t: nat) {
    0x00 <= t <= 0x08 || 0x0a <= t <= 0x18 || t == 0x1d || t == 0x1e || t == 0xfc
  }

  /** The fields both versions write as they are, in range. */
  predicate SharedSinglesFit(f: I.InputFields) {
    && (f.nonWitnessUtxo.Some? ==> TransactionFits(f.nonWitnessUtxo.value))
    && (f.witnessUtxo.Some? ==> TxOutFits(f.witnessUtxo.value))
    && (f.sighashType.Some? ==> f.sighashType.value < 0x1_0000_0000)
    && (f.redeemScript.Some? ==> |f.redeemScript.value| <= CAP)
    && (f.witnessScript.Some? ==> |f.witnessScript.value| <= CAP)
    && (f.finalScriptSig.Some? ==> |f.finalScriptSig.value| <= CAP)
    && (f.finalScriptWitness.Some? ==> StackFits(f.finalScriptWitness.value))
    && (f.tapKeySig.Some? ==> TaprootFits(f.tapKeySig.value))
    && (f.tapInternalKey.Some? ==> |f.tapInternalKey.value| == 32 && CRYPTO.xOnlyKey(f.tapInternalKey.value))
    && (f.tapMerkleRoot.Some? ==> |f.tapMerkleRoot.value| == 32)
  }

  predicate SharedMapsFit(f: I.InputFields) {
    && EcdsaMapFits(f.partialSigs) && DerivationsFit(f.bip32Derivations)
    && LeafSigsFit(f.tapScriptSigs) && LeafScriptsFit(f.tapScripts) && OriginsFit(f.tapKeyOrigins)
    && SharesFit(f.spEcdhShares) && ProofsFit(f.spDleqProofs)
  }

  /** The fields of the transaction, in range. */
  predicate SpendFits(i: I.Input) {
    && |i.previousTxid| == 32 && i.spentOutputIndex < 0x1_0000_0000
    && (i.sequence.Some? ==> i.sequence.value < 0x1_0000_0000)
    && (i.minTime.Some? ==> 500_000_000 <= i.minTime.value < 0x1_0000_0000)
    && (i.minHeight.Some? ==> 1 <= i.minHeight.value < 500_000_000)
  }

  /** Every field in range, hashes of the right length, no stray unknowns, and the cross-field checks. */
  ghost predicate InputFits(i: I.Input) {
    && SpendFits(i) && SharedSinglesFit(i.fields) && SharedMapsFit(i.fields)
    && PreimagesFit(i.fields.ripemd160Preimages, 20) && PreimagesFit(i.fields.sha256Preimages, 32)
    && PreimagesFit(i.fields.hash160Preimages, 20) && PreimagesFit(i.fields.hash256Preimages, 32)
    && ProprietariesFit(i.fields.proprietaries)
    && UnknownsFit(i.fields.unknowns, InputType)
    && (i.fields.nonWitnessUtxo.Some? ==> CRYPTO.txid(i.fields.nonWitnessUtxo.value) == i.previousTxid)
    && (i.fields.spEcdhShares == map[] <==> i.fields.spDleqProofs == map[])
  }

  lemma SpentFields(table: Table, slot: Key -> Option<Value>, f: I.InputFields)
    requires InputTable(table) && WritesFields(slot, f)
    ensures TypeFits(table, slot, 0x00) <==> (f.nonWitnessUtxo.Some? ==> TransactionFits(f.nonWitnessUtxo.value))
    ensures TypeFits(table, slot, 0x01) <==> (f.witnessUtxo.Some? ==> TxOutFits(f.witnessUtxo.value))
    ensures TypeFits(table, slot, 0x03) <==> (f.sighashType.Some? ==> f.sighashType.value < 0x1_0000_0000)
    ensures TypeFits(table, slot, 0x08) <==> (f.finalScriptWitness.Some? ==> StackFits(f.finalScriptWitness.value))
  {
    forall d: bytes { FieldKeys(f, d); }
    SingleRules(table);
    hide TypeFits, TakesSingle, Put, I.FieldsSlot, TransactionFits, TxOutFits, StackFits, OptBlob, OptNum;
    TransactionField(table, slot, 0x00, f.nonWitnessUtxo);
    TxOutField(table, slot, 0x01, f.witnessUtxo);
    NumberField(table, slot, 0x03, 0, 0xFFFF_FFFF, f.sighashType);
    StackField(table, slot, 0x08, f.finalScriptWitness);
  }

  lemma ScriptFields(table: Table, slot: Key -> Option<Value>, f: I.InputFields)
    requires InputTable(table) && WritesFields(slot, f)
    ensures TypeFits(table, slot, 0x04) <==> (f.redeemScript.Some? ==> |f.redeemScript.value| <= CAP)
    ensures TypeFits(table, slot, 0x05) <==> (f.witnessScript.Some? ==> |f.witnessScript.value| <= CAP)
    ensures TypeFits(table, slot, 0x07) <==> (f.finalScriptSig.Some? ==> |f.finalScriptSig.value| <= CAP)
  {
    forall d: bytes { FieldKeys(f, d); }
    SingleRules(table);
    hide TypeFits, TakesSingle, Put, I.FieldsSlot, OptBlob, OptNum;
    BytesField(table, slot, 0x04, f.redeemScript);
    BytesField(table, slot, 0x05, f.witnessScript);
    BytesField(table, slot, 0x07, f.finalScriptSig);
  }

  lemma TapFields(table: Table, slot: Key -> Option<Value>, f: I.InputFields)
    requires InputTable(table) && WritesFields(slot, f)
    ensures TypeFits(table, slot, 0x13) <==> (f.tapKeySig.Some? ==> TaprootFits(f.tapKeySig.value))
    ensures TypeFits(table, slot, 0x17) <==>
      (f.tapInternalKey.Some? ==> |f.tapInternalKey.value| == 32 && CRYPTO.xOnlyKey(f.tapInternalKey.value))
    ensures TypeFits(table, slot, 0x18) <==> (f.tapMerkleRoot.Some? ==> |f.tapMerkleRoot.value| == 32)
  {
    forall d: bytes { TapFieldKeys(f, d); }
    SingleRules(table);
    hide TypeFits, TakesSingle, Put, I.FieldsSlot, TaprootFits, OptBlob, Look;
    TaprootField(table, slot, 0x13, f.tapKeySig);
    BlobField(table, slot, 0x17, 32, XOnly, f.tapInternalKey);
    BlobField(table, slot, 0x18, 32, AnyBytes, f.tapMerkleRoot);
  }

  lemma SharedSingles(table: Table, slot: Key -> Option<Value>, f: I.InputFields)
    requires InputTable(table) && WritesFields(slot, f)
    ensures SharedSinglesFit(f) <==>
      && TypeFits(table, slot, 0x00) && TypeFits(table, slot, 0x01) && TypeFits(table, slot, 0x03)
      && TypeFits(table, slot, 0x04) && TypeFits(table, slot, 0x05) && TypeFits(table, slot, 0x07)
      && TypeFits(table, slot, 0x08) && TypeFits(table, slot, 0x13) && TypeFits(table, slot, 0x17)
      && TypeFits(table, slot, 0x18)
  {
    hide TypeFits, WritesFields, TransactionFits, TxOutFits, StackFits, TaprootFits;
    SpentFields(table, slot, f);
    ScriptFields(table, slot, f);
    TapFields(table, slot, f);
  }

  lemma SharedMaps(table: Table, slot: Key -> Option<Value>, f: I.InputFields)
    requires InputTable(table) && WritesFields(slot, f)
    ensures SharedMapsFit(f) <==>
      && TypeFits(table, slot, 0x02) && TypeFits(table, slot, 0x06) && TypeFits(table, slot, 0x14)
      && TypeFits(table, slot, 0x15) && TypeFits(table, slot, 0x16) && TypeFits(table, slot, 0x1d)
      && TypeFits(table, slot, 0x1e)
  {
    forall d: bytes { MapFieldKeys(f, d); }
    forall d: bytes { TapFieldKeys(f, d); }
    MapRules(table);
    hide TypeFits, TakesMap, Look, I.FieldsSlot, EcdsaMapFits, DerivationsFit, LeafSigsFit, LeafScriptsFit, OriginsFit,
         SharesFit, ProofsFit, Put;
    EcdsaField(table, slot, 0x02, f.partialSigs);
    DerivationField(table, slot, 0x06, f.bip32Derivations);
    LeafSigField(table, slot, 0x14, f.tapScriptSigs);
    LeafScriptField(table, slot, 0x15, f.tapScripts);
    OriginField(table, slot, 0x16, f.tapKeyOrigins);
    ShareField(table, slot, 0x1d, f.spEcdhShares);
    ProofField(table, slot, 0x1e, f.spDleqProofs);
  }

  lemma Preimages(slot: Key -> Option<Value>, f: I.InputFields)
    requires WritesFields(slot, f)
    ensures TypeFits(InputV2, slot, 0x0a) <==> PreimagesFit(f.ripemd160Preimages, 20)
    ensures TypeFits(InputV2, slot, 0x0b) <==> PreimagesFit(f.sha256Preimages, 32)
    ensures TypeFits(InputV2, slot, 0x0c) <==> PreimagesFit(f.hash160Preimages, 20)
    ensures TypeFits(InputV2, slot, 0x0d) <==> PreimagesFit(f.hash256Preimages, 32)
    ensures TypeFits(InputV2, slot, 0xfc) <==> ProprietariesFit(f.proprietaries)
  {
    forall d: bytes { MapFieldKeys(f, d); }
    PreimageRules();
    hide TypeFits, TakesMap, Look, I.FieldsSlot, PreimagesFit, ProprietariesFit;
    PreimageField(InputV2, slot, 0x0a, f.ripemd160Preimages, 20);
    PreimageField(InputV2, slot, 0x0b, f.sha256Preimages, 32);
    PreimageField(InputV2, slot, 0x0c, f.hash160Preimages, 20);
    PreimageField(InputV2, slot, 0x0d, f.hash256Preimages, 32);
    ProprietaryField(InputV2, slot, 0xfc, f.proprietaries);
  }

  lemma SpendRules()
    ensures TakesSingle(InputV2, 0x0e, FixedBlob(32, AnyBytes)) && TakesSingle(InputV2, 0x0f, Number(4, 0, 0xFFFF_FFFF))
    ensures TakesSingle(InputV2, 0x10, Number(4, 0, 0xFFFF_FFFF))
    ensures TakesSingle(InputV2, 0x11, Number(4, 500_000_000, 0xFFFF_FFFF))
    ensures TakesSingle(InputV2, 0x12, Number(4, 1, 499_999_999))
  {
  }

  lemma SpendFields(i: I.Input)
    ensures SpendFits(i) <==>
      && TypeFits(InputV2, Inputs(i), 0x0e) && TypeFits(InputV2, Inputs(i), 0x0f) && TypeFits(InputV2, Inputs(i), 0x10)
      && TypeFits(InputV2, Inputs(i), 0x11) && TypeFits(InputV2, Inputs(i), 0x12)
  {
    var slot := Inputs(i);
    forall d: bytes { InputKeys(i, d); }
    SpendRules();
    assert OptBlob(Some(i.previousTxid)) == Some(Blob(i.previousTxid));
    assert OptNum(Some(i.spentOutputIndex)) == Some(Num(i.spentOutputIndex));
    hide TypeFits, TakesSingle, Put, I.InputSlot, OptBlob, OptNum;
    BlobField(InputV2, slot, 0x0e, 32, AnyBytes, Some(i.previousTxid));
    NumberField(InputV2, slot, 0x0f, 0, 0xFFFF_FFFF, Some(i.spentOutputIndex));
    NumberField(InputV2, slot, 0x10, 0, 0xFFFF_FFFF, i.sequence);
    NumberField(InputV2, slot, 0x11, 500_000_000, 0xFFFF_FFFF, i.minTime);
    NumberField(InputV2, slot, 0x12, 1, 499_999_999, i.minHeight);
  }

  lemma InputTypesNamed(t: nat)
    ensures I.Named(t, false) <==> InputType(t)
  {
  }

  lemma InputTypes(slot: Key -> Option<Value>)
    ensures (forall t: nat :: TypeFits(InputV2, slot, t)) <==>
      && TypeFits(InputV2, slot, 0x00) && TypeFits(InputV2, slot, 0x01) && TypeFits(InputV2, slot, 0x02)
      && TypeFits(InputV2, slot, 0x03) && TypeFits(InputV2, slot, 0x04) && TypeFits(InputV2, slot, 0x05)
      && TypeFits(InputV2, slot, 0x06) && TypeFits(InputV2, slot, 0x07) && TypeFits(InputV2, slot, 0x08)
      && TypeFits(InputV2, slot, 0x0a) && TypeFits(InputV2, slot, 0x0b) && TypeFits(InputV2, slot, 0x0c)
      && TypeFits(InputV2, slot, 0x0d) && TypeFits(InputV2, slot, 0x0e) && TypeFits(InputV2, slot, 0x0f)
      && TypeFits(InputV2, slot, 0x10) && TypeFits(InputV2, slot, 0x11) && TypeFits(InputV2, slot, 0x12)
      && TypeFits(InputV2, slot, 0x13) && TypeFits(InputV2, slot, 0x14) && TypeFits(InputV2, slot, 0x15)
      && TypeFits(InputV2, slot, 0x16) && TypeFits(InputV2, slot, 0x17) && TypeFits(InputV2, slot, 0x18)
      && TypeFits(InputV2, slot, 0x1d) && TypeFits(InputV2, slot, 0x1e) && TypeFits(InputV2, slot, 0xfc)
      && (forall t: nat | !InputType(t) :: TypeFits(InputV2, slot, t))
  {
    hide TypeFits;
  }

  lemma RawInputs(i: I.Input)
    requires forall k | k in i.fields.unknowns :: !InputType(k.keyType)
    ensures (forall t: nat | !InputType(t) :: TypeFits(InputV2, Inputs(i), t)) <==>
      (forall k | k in i.fields.unknowns :: UnknownFits(k, i.fields.unknowns[k]))
  {
    forall k: Key | !InputType(k.keyType)
      ensures RuleOf(InputV2, k) == Accept(BytesCodec, RawData)
      ensures Inputs(i)(k) == if k in i.fields.unknowns then Some(Blob(i.fields.unknowns[k])) else None
    {
    }
    hide RuleOf, I.InputSlot, UnknownFits;
    UnknownFields(InputV2, Inputs(i), i.fields.unknowns, InputType);
  }

  lemma InputRecordFits(i: I.Input)
    ensures RecordOk(InputV2, I.InputRecord(i)) <==> forall t: nat :: TypeFits(InputV2, Inputs(i), t)
  {
    hide RecordOk, I.InputSlot, I.InputRecord, TypeFits;
    forall k: Key
      ensures k in I.InputRecord(i) <==> Inputs(i)(k).Some?
      ensures k in I.InputRecord(i) ==> I.InputRecord(i)[k] == Inputs(i)(k).value
    {
      I.InputRecordSlots(i, k);
    }
    RecordFits(InputV2, I.InputRecord(i), Inputs(i));
  }

  lemma InputsWriteFields(i: I.Input)
    ensures WritesFields(Inputs(i), i.fields)
  {
    hide I.FieldsSlot;
    forall d: bytes { InputKeys(i, d); }
  }

  /** In range, but for the checks between fields. */
  ghost predicate InputInRange(i: I.Input) {
    && SpendFits(i) && SharedSinglesFit(i.fields) && SharedMapsFit(i.fields)
    && PreimagesFit(i.fields.ripemd160Preimages, 20) && PreimagesFit(i.fields.sha256Preimages, 32)
    && PreimagesFit(i.fields.hash160Preimages, 20) && PreimagesFit(i.fields.hash256Preimages, 32)
    && ProprietariesFit(i.fields.proprietaries)
    && forall k | k in i.fields.unknowns :: UnknownFits(k, i.fields.unknowns[k])
  }

  lemma RangesOf(i: I.Input)
    requires forall k | k in i.fields.unknowns :: !InputType(k.keyType)
    ensures RecordOk(InputV2, I.InputRecord(i)) <==> InputInRange(i)
  {
    var f, slot := i.fields, Inputs(i);
    InputsWriteFields(i);
    hide TypeFits, WritesFields, Inputs, SpendFits, SharedSinglesFit, SharedMapsFit, PreimagesFit, ProprietariesFit,
         UnknownFits, RecordOk, I.InputRecord, InputType;
    SharedSingles(InputV2, slot, f);
    SharedMaps(InputV2, slot, f);
    Preimages(slot, f);
    SpendFields(i);
    InputTypes(slot);
    InputRecordFits(i);
    RawInputs(i);
  }

  /** A well-formed input is one whose every field is in range. */
  lemma InputWellFormed(i: I.Input)
    ensures I.InputOk(i) <==> InputFits(i)
  {
    forall t ensures I.Named(t, false) <==> InputType(t) { InputTypesNamed(t); }
    hide SpendFits, SharedSinglesFit, SharedMapsFit, PreimagesFit, ProprietariesFit, UnknownFits, RecordOk, Complete,
         I.InputRecord, InputType, I.Named;
    assert I.UnknownsOk(i.fields, false) <==> forall k | k in i.fields.unknowns :: !InputType(k.keyType);
    if I.UnknownsOk(i.fields, false) { RangesOf(i); }
    if I.InputOk(i) { I.InputChecks(i); }
    if InputFits(i) { InputCompleteMeans(i); }
  }

  /* ----- version-0 inputs ----- */

  /** The key types of input fields, in version 0. */
  predicate InputTypeV0(t: nat) {
    0x00 <= t <= 0x08 || 0x0a <= t <= 0x0d || 0x13 <= t <= 0x18 || t == 0x1d || t == 0x1e || t == 0xfc
  }

  /** Every field in range, and none of those version 0 takes no pair for. */
  ghost predicate FieldsFit(f: I.InputFields) {
    && SharedSinglesFit(f) && SharedMapsFit(f)
    && f.ripemd160Preimages == map[] && f.sha256Preimages == map[]
    && f.hash160Preimages == map[] && f.hash256Preimages == map[]
    && f.proprietaries == map[]
    && UnknownsFit(f.unknowns, InputTypeV0)
  }

  function InputsV0(f: I.InputFields): Key -> Option<Value> { (k: Key) => I.FieldsSlot(f, k) }

  lemma RefusedHashes(t: nat, d: bytes, v: Value)
    requires 0x0a <= t <= 0x0d
    ensures !EntryOk(InputV0, Key(t, d), v)
  {
    hide ValueOk, KeyFits;
  }

  lemma RefusedProprietary(d: bytes, v: Value)
    ensures !EntryOk(InputV0, Key(0xfc, d), v)
  {
    hide ValueOk, KeyFits;
    assert ReadProprietary([]).None?;
    hide ReadProprietary;
  }

  lemma RefusedTypes()
    ensures TakesNone(InputV0, 0x0a) && TakesNone(InputV0, 0x0b) && TakesNone(InputV0, 0x0c) && TakesNone(InputV0, 0x0d)
    ensures TakesNone(InputV0, 0xfc)
  {
    hide EntryOk;
    forall t: nat, d: bytes, v: Value | 0x0a <= t <= 0x0d ensures !EntryOk(InputV0, Key(t, d), v) {
      RefusedHashes(t, d, v);
    }
    forall d: bytes, v: Value ensures !EntryOk(InputV0, Key(0xfc, d), v) { RefusedProprietary(d, v); }
  }

  lemma RefusedFields(f: I.InputFields)
    ensures TypeFits(InputV0, InputsV0(f), 0x0a) <==> f.ripemd160Preimages == map[]
    ensures TypeFits(InputV0, InputsV0(f), 0x0b) <==> f.sha256Preimages == map[]
    ensures TypeFits(InputV0, InputsV0(f), 0x0c) <==> f.hash160Preimages == map[]
    ensures TypeFits(InputV0, InputsV0(f), 0x0d) <==> f.hash256Preimages == map[]
    ensures TypeFits(InputV0, InputsV0(f), 0xfc) <==> f.proprietaries == map[]
  {
    forall d: bytes { MapFieldKeys(f, d); }
    RefusedTypes();
    hide TypeFits, TakesNone, Look, I.FieldsSlot;
    RefusedField(InputV0, InputsV0(f), 0x0a, f.ripemd160Preimages);
    RefusedField(InputV0, InputsV0(f), 0x0b, f.sha256Preimages);
    RefusedField(InputV0, InputsV0(f), 0x0c, f.hash160Preimages);
    RefusedField(InputV0, InputsV0(f), 0x0d, f.hash256Preimages);
    RefusedField(InputV0, InputsV0(f), 0xfc, f.proprietaries);
  }

  lemma InputTypesV0(slot: Key -> Option<Value>)
    ensures (forall t: nat :: TypeFits(InputV0, slot, t)) <==>
      && TypeFits(InputV0, slot, 0x00) && TypeFits(InputV0, slot, 0x01) && TypeFits(InputV0, slot, 0x02)
      && TypeFits(InputV0, slot, 0x03) && TypeFits(InputV0, slot, 0x04) && TypeFits(InputV0, slot, 0x05)
      && TypeFits(InputV0, slot, 0x06) && TypeFits(InputV0, slot, 0x07) && TypeFits(InputV0, slot, 0x08)
      && TypeFits(InputV0, slot, 0x0a) && TypeFits(InputV0, slot, 0x0b) && TypeFits(InputV0, slot, 0x0c)
      && TypeFits(InputV0, slot, 0x0d) && TypeFits(InputV0, slot, 0x13) && TypeFits(InputV0, slot, 0x14)
      && TypeFits(InputV0, slot, 0x15) && TypeFits(InputV0, slot, 0x16) && TypeFits(InputV0, slot, 0x17)
      && TypeFits(InputV0, slot, 0x18) && TypeFits(InputV0, slot, 0x1d) && TypeFits(InputV0, slot, 0x1e)
      && TypeFits(InputV0, slot, 0xfc)
      && (forall t: nat | !InputTypeV0(t) :: TypeFits(InputV0, slot, t))
  {
    hide TypeFits;
  }

  lemma RawFields(f: I.InputFields)
    requires forall k | k in f.unknowns :: !InputTypeV0(k.keyType)
    ensures (forall t: nat | !InputTypeV0(t) :: TypeFits(InputV0, InputsV0(f), t)) <==>
      (forall k | k in f.unknowns :: UnknownFits(k, f.unknowns[k]))
  {
    forall k: Key | !InputTypeV0(k.keyType)
      ensures RuleOf(InputV0, k) == Accept(BytesCodec, RawData)
      ensures InputsV0(f)(k) == if k in f.unknowns then Some(Blob(f.unknowns[k])) else None
    {
    }
    hide RuleOf, I.FieldsSlot, UnknownFits;
    UnknownFields(InputV0, InputsV0(f), f.unknowns, InputTypeV0);
  }

  lemma FieldsRecordFits(f: I.InputFields)
    ensures RecordOk(InputV0, I.FieldsRecord(f)) <==> forall t: nat :: TypeFits(InputV0, InputsV0(f), t)
  {
    hide RecordOk, TypeFits, I.FieldsSlot, I.FieldsRecord;
    forall k: Key
      ensures k in I.FieldsRecord(f) <==> InputsV0(f)(k).Some?
      ensures k in I.FieldsRecord(f) ==> I.FieldsRecord(f)[k] == InputsV0(f)(k).value
    {
      I.FieldsRecordSlots(f, k);
    }
    RecordFits(InputV0, I.FieldsRecord(f), InputsV0(f));
  }

  ghost predicate FieldsInRange(f: I.InputFields) {
    && SharedSinglesFit(f) && SharedMapsFit(f)
    && f.ripemd160Preimages == map[] && f.sha256Preimages == map[]
    && f.hash160Preimages == map[] && f.hash256Preimages == map[]
    && f.proprietaries == map[]
    && forall k | k in f.unknowns :: UnknownFits(k, f.unknowns[k])
  }

  lemma RangesOfV0(f: I.InputFields)
    requires forall k | k in f.unknowns :: !InputTypeV0(k.keyType)
    ensures RecordOk(InputV0, I.FieldsRecord(f)) <==> FieldsInRange(f)
  {
    assert WritesFields(InputsV0(f), f) by { hide I.FieldsSlot; }
    hide TypeFits, WritesFields, InputsV0, SharedSinglesFit, SharedMapsFit, UnknownFits, RecordOk, I.FieldsRecord,
         InputTypeV0;
    SharedSingles(InputV0, InputsV0(f), f);
    SharedMaps(InputV0, InputsV0(f), f);
    RefusedFields(f);
    InputTypesV0(InputsV0(f));
    FieldsRecordFits(f);
    RawFields(f);
  }

  /** What version 0 takes of an input, field by field. */
  lemma FieldsWellFormed(f: I.InputFields)
    ensures I.FieldsOk(f) <==> FieldsFit(f)
  {
    forall t: nat ensures I.Named(t, true) <==> InputTypeV0(t) { }
    hide SharedSinglesFit, SharedMapsFit, UnknownFits, RecordOk, I.FieldsRecord, InputTypeV0, I.Named;
    assert I.UnknownsOk(f, true) <==> forall k | k in f.unknowns :: !InputTypeV0(k.keyType);
    if I.UnknownsOk(f, true) { RangesOfV0(f); }
  }
}
