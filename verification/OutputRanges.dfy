/** What a well-formed output is, field by field, in both versions. */
module OutputRanges {
  import opened Bytes
  import opened CompactSize
  import opened Bitcoin
  import opened Values
  import opened ValueCodecs
  import opened Tables
  import opened Maps
  import opened MapEncoding
  import opened Fields
  import opened Ranges
  import opened FieldRanges
  import O = Output

  /** The key types of the output map, in version 2. */
  predicate OutputType(t: nat) { 0x00 <= t <= 0x07 || t == 0x09 || t == 0x0a || t == 0xfc }

  /** And in version 0, without amount and script. */
  predicate OutputTypeV0(t: nat) { 0x00 <= t <= 0x02 || 0x05 <= t <= 0x07 || t == 0x09 || t == 0x0a || t == 0xfc }

  /** Two compressed keys, one behind the other. */
  predicate SilentPaymentInfo(b: bytes) {
    |b| == 66 && CRYPTO.compressedKey(b[..33]) && CRYPTO.compressedKey(b[33..])
  }

  /** The fields both versions write. */
  predicate SharedFit(f: O.OutputFields) {
    && (f.witnessScript.Some? ==> |f.witnessScript.value| <= CAP)
    && (f.tapInternalKey.Some? ==> |f.tapInternalKey.value| == 32 && CRYPTO.xOnlyKey(f.tapInternalKey.value))
    && (f.tapTree.Some? ==> TreeFits(f.tapTree.value))
    && (f.spV0Info.Some? ==> SilentPaymentInfo(f.spV0Info.value))
    && (f.spV0Label.Some? ==> f.spV0Label.value < 0x1_0000_0000)
    && DerivationsFit(f.bip32Derivations) && OriginsFit(f.tapKeyOrigins)
    && (forall k | k in f.unknowns :: UnknownFits(k, f.unknowns[k]))
  }

  predicate RedeemFits(f: O.OutputFields) { f.redeemScript.Some? ==> |f.redeemScript.value| <= CAP }

  /** Every field in range, no stray unknowns, and a label only beside the address it labels. */
  ghost predicate OutputFits(o: O.Output) {
    && o.amount < 0x1_0000_0000_0000_0000 && |o.scriptPubkey| <= CAP
    && RedeemFits(o.fields) && SharedFit(o.fields) && ProprietariesFit(o.fields.proprietaries)
    && (forall k | k in o.fields.unknowns :: !OutputType(k.keyType))
    && (o.fields.spV0Label.Some? ==> o.fields.spV0Info.Some?)
  }

  /** What version 0 writes of an output: no redeem script; proprietary pairs it does not take. */
  predicate OutputFitsV0(f: O.OutputFields) {
    && SharedFit(f) && f.proprietaries == map[]
    && forall k | k in f.unknowns :: !OutputTypeV0(k.keyType)
  }

  function Outputs(o: O.Output): Key -> Option<Value> { (k: Key) => O.OutputSlot(o, k) }
  function OutputsV0(f: O.OutputFields): Key -> Option<Value> { (k: Key) => O.FieldsSlot(f, k, true) }

  predicate OutputTable(table: Table) { table.OutputV2? || table.OutputV0? }

  ghost predicate WritesFields(slot: Key -> Option<Value>, f: O.OutputFields) {
    forall t: nat, d: bytes | t == 0x01 || t == 0x02 || 0x05 <= t <= 0x0a ::
      slot(Key(t, d)) == O.FieldsSlot(f, Key(t, d), false)
  }

  /** Where each field of an output stands on the wire. */
  lemma FieldKeys(f: O.OutputFields, d: bytes)
    ensures O.FieldsSlot(f, Key(0x00, d), false) == Put(d, OptBlob(f.redeemScript))
    ensures O.FieldsSlot(f, Key(0x00, d), true) == None
    ensures O.FieldsSlot(f, Key(0x01, d), false) == Put(d, OptBlob(f.witnessScript))
    ensures O.FieldsSlot(f, Key(0x02, d), false) == Look(d, f.bip32Derivations, MakeSource)
    ensures O.FieldsSlot(f, Key(0x05, d), false) == Put(d, OptBlob(f.tapInternalKey))
    ensures O.FieldsSlot(f, Key(0x06, d), false)
         == Put(d, if f.tapTree.Some? then Some(Tree(f.tapTree.value)) else None)
    ensures O.FieldsSlot(f, Key(0x07, d), false) == Look(d, f.tapKeyOrigins, MakeOrigin)
    ensures O.FieldsSlot(f, Key(0x09, d), false) == Put(d, OptBlob(f.spV0Info))
    ensures O.FieldsSlot(f, Key(0x0a, d), false) == Put(d, OptNum(f.spV0Label))
    ensures O.FieldsSlot(f, Key(0xfc, d), false) == Look(d, f.proprietaries, MakeBlob)
    ensures forall t: nat | t != 0x00 :: O.FieldsSlot(f, Key(t, d), true) == O.FieldsSlot(f, Key(t, d), false)
  {
    hide Put, Look, OptBlob, OptNum;
  }

  lemma OutputKeys(o: O.Output, d: bytes)
    ensures O.OutputSlot(o, Key(0x03, d)) == Put(d, Some(Num(o.amount)))
    ensures O.OutputSlot(o, Key(0x04, d))
         == Put(d, OptBlob(if o.fields.spV0Info.Some? && o.scriptPubkey == [] then None else Some(o.scriptPubkey)))
    ensures forall t: nat | t != 0x03 && t != 0x04 ::
      O.OutputSlot(o, Key(t, d)) == O.FieldsSlot(o.fields, Key(t, d), false)
  {
    hide O.FieldsSlot;
  }

  lemma SharedRules(table: Table)
    requires OutputTable(table)
    ensures TakesSingle(table, 0x00, BytesCodec) && TakesSingle(table, 0x01, BytesCodec)
    ensures TakesSingle(table, 0x05, FixedBlob(32, XOnly)) && TakesSingle(table, 0x06, TapTreeCodec)
    ensures TakesSingle(table, 0x09, FixedBlob(66, TwoCompressed))
    ensures TakesSingle(table, 0x0a, Number(4, 0, 0xFFFF_FFFF))
    ensures TakesMap(table, 0x02, KeySourceCodec, PublicKeyData) && TakesMap(table, 0x07, TapKeyOriginCodec, XOnlyData)
  {
  }

  lemma AmountRules()
    ensures TakesSingle(OutputV2, 0x03, Number(8, 0, U64 - 1)) && TakesSingle(OutputV2, 0x04, BytesCodec)
    ensures TakesMap(OutputV2, 0xfc, BytesCodec, ProprietaryData)
  {
  }

  lemma ScriptFields(table: Table, slot: Key -> Option<Value>, f: O.OutputFields)
    requires OutputTable(table) && WritesFields(slot, f)
    ensures TypeFits(table, slot, 0x01) <==> (f.witnessScript.Some? ==> |f.witnessScript.value| <= CAP)
    ensures TypeFits(table, slot, 0x05) <==>
      (f.tapInternalKey.Some? ==> |f.tapInternalKey.value| == 32 && CRYPTO.xOnlyKey(f.tapInternalKey.value))
    ensures TypeFits(table, slot, 0x06) <==> (f.tapTree.Some? ==> TreeFits(f.tapTree.value))
  {
    SharedRules(table);
    hide TypeFits, TakesSingle, TakesMap, Put, Look, O.FieldsSlot, TreeFits, OptBlob, OptNum;
    forall d: bytes
      ensures slot(Key(0x01, d)) == Put(d, OptBlob(f.witnessScript))
      ensures slot(Key(0x05, d)) == Put(d, OptBlob(f.tapInternalKey))
      ensures slot(Key(0x06, d)) == Put(d, if f.tapTree.Some? then Some(Tree(f.tapTree.value)) else None)
    {
      FieldKeys(f, d);
    }
    hide WritesFields;
    BytesField(table, slot, 0x01, f.witnessScript);
    BlobField(table, slot, 0x05, 32, XOnly, f.tapInternalKey);
    TreeField(table, slot, 0x06, f.tapTree);
  }

  lemma InfoPasses(b: bytes)
    ensures |b| == 66 && Passes(TwoCompressed, b) <==> SilentPaymentInfo(b)
  {
  }

  lemma SilentPaymentFields(table: Table, slot: Key -> Option<Value>, f: O.OutputFields)
    requires OutputTable(table) && WritesFields(slot, f)
    ensures TypeFits(table, slot, 0x09) <==> (f.spV0Info.Some? ==> SilentPaymentInfo(f.spV0Info.value))
    ensures TypeFits(table, slot, 0x0a) <==> (f.spV0Label.Some? ==> f.spV0Label.value < 0x1_0000_0000)
  {
    SharedRules(table);
    hide TypeFits, TakesSingle, TakesMap, Put, Look, O.FieldsSlot, OptBlob, OptNum;
    forall d: bytes
      ensures slot(Key(0x09, d)) == Put(d, OptBlob(f.spV0Info))
      ensures slot(Key(0x0a, d)) == Put(d, OptNum(f.spV0Label))
    {
      FieldKeys(f, d);
    }
    hide WritesFields, Passes, SilentPaymentInfo;
    if f.spV0Info.Some? { InfoPasses(f.spV0Info.value); }
    BlobField(table, slot, 0x09, 66, TwoCompressed, f.spV0Info);
    NumberField(table, slot, 0x0a, 0, 0xFFFF_FFFF, f.spV0Label);
  }

  lemma SharedMaps(table: Table, slot: Key -> Option<Value>, f: O.OutputFields)
    requires OutputTable(table) && WritesFields(slot, f)
    ensures TypeFits(table, slot, 0x02) <==> DerivationsFit(f.bip32Derivations)
    ensures TypeFits(table, slot, 0x07) <==> OriginsFit(f.tapKeyOrigins)
  {
    forall d: bytes { FieldKeys(f, d); }
    SharedRules(table);
    hide TypeFits, TakesSingle, TakesMap, Put, Look, O.FieldsSlot, DerivationsFit, OriginsFit;
    DerivationField(table, slot, 0x02, f.bip32Derivations);
    OriginField(table, slot, 0x07, f.tapKeyOrigins);
  }

  lemma AmountFields(o: O.Output)
    ensures TypeFits(OutputV2, Outputs(o), 0x03) <==> o.amount < 0x1_0000_0000_0000_0000
    ensures TypeFits(OutputV2, Outputs(o), 0x04) <==> |o.scriptPubkey| <= CAP
  {
    var slot := Outputs(o);
    var script := if o.fields.spV0Info.Some? && o.scriptPubkey == [] then None else Some(o.scriptPubkey);
    AmountRules();
    assert OptNum(Some(o.amount)) == Some(Num(o.amount));
    hide TypeFits, TakesSingle, TakesMap, Put, O.FieldsSlot, O.OutputSlot, OptBlob, OptNum;
    forall d: bytes
      ensures slot(Key(0x03, d)) == Put(d, Some(Num(o.amount)))
      ensures slot(Key(0x04, d)) == Put(d, OptBlob(script))
    {
      OutputKeys(o, d);
    }
    AmountField(OutputV2, slot, 0x03, Some(o.amount));
    BytesField(OutputV2, slot, 0x04, script);
  }

  lemma OtherFields(o: O.Output)
    ensures TypeFits(OutputV2, Outputs(o), 0x00) <==> RedeemFits(o.fields)
    ensures TypeFits(OutputV2, Outputs(o), 0xfc) <==> ProprietariesFit(o.fields.proprietaries)
  {
    var slot := Outputs(o);
    SharedRules(OutputV2);
    AmountRules();
    hide TypeFits, TakesSingle, TakesMap, Put, Look, O.FieldsSlot, O.OutputSlot, OptBlob, ProprietariesFit;
    forall d: bytes
      ensures slot(Key(0x00, d)) == Put(d, OptBlob(o.fields.redeemScript))
      ensures slot(Key(0xfc, d)) == Look(d, o.fields.proprietaries, MakeBlob)
    {
      OutputKeys(o, d);
      FieldKeys(o.fields, d);
    }
    BytesField(OutputV2, slot, 0x00, o.fields.redeemScript);
    ProprietaryField(OutputV2, slot, 0xfc, o.fields.proprietaries);
  }

  lemma RawOutputs(o: O.Output)
    requires forall k | k in o.fields.unknowns :: !OutputType(k.keyType)
    ensures (forall t: nat | !OutputType(t) :: TypeFits(OutputV2, Outputs(o), t)) <==>
      (forall k | k in o.fields.unknowns :: UnknownFits(k, o.fields.unknowns[k]))
  {
    forall k: Key | !OutputType(k.keyType)
      ensures RuleOf(OutputV2, k) == Accept(BytesCodec, RawData)
      ensures Outputs(o)(k) == if k in o.fields.unknowns then Some(Blob(o.fields.unknowns[k])) else None
    {
    }
    hide RuleOf, O.OutputSlot, UnknownFits, EntryOk;
    UnknownFields(OutputV2, Outputs(o), o.fields.unknowns, OutputType);
  }

  lemma OutputTypes(slot: Key -> Option<Value>)
    ensures (forall t: nat :: TypeFits(OutputV2, slot, t)) <==>
      && TypeFits(OutputV2, slot, 0x00) && TypeFits(OutputV2, slot, 0x01) && TypeFits(OutputV2, slot, 0x02)
      && TypeFits(OutputV2, slot, 0x03) && TypeFits(OutputV2, slot, 0x04) && TypeFits(OutputV2, slot, 0x05)
      && TypeFits(OutputV2, slot, 0x06) && TypeFits(OutputV2, slot, 0x07) && TypeFits(OutputV2, slot, 0x09)
      && TypeFits(OutputV2, slot, 0x0a) && TypeFits(OutputV2, slot, 0xfc)
      && (forall t: nat | !OutputType(t) :: TypeFits(OutputV2, slot, t))
  {
    hide TypeFits;
  }

  lemma OutputRecordFits(o: O.Output)
    ensures RecordOk(OutputV2, O.OutputRecord(o)) <==> forall t: nat :: TypeFits(OutputV2, Outputs(o), t)
  {
    hide RecordOk, TypeFits, O.OutputSlot, O.OutputRecord;
    forall k: Key
      ensures k in O.OutputRecord(o) <==> Outputs(o)(k).Some?
      ensures k in O.OutputRecord(o) ==> O.OutputRecord(o)[k] == Outputs(o)(k).value
    {
      O.OutputRecordSlots(o, k);
    }
    RecordFits(OutputV2, O.OutputRecord(o), Outputs(o));
  }

  lemma OutputsWriteFields(o: O.Output)
    ensures WritesFields(Outputs(o), o.fields)
  {
    hide O.FieldsSlot;
    forall d: bytes { OutputKeys(o, d); }
  }

  lemma RangesOf(o: O.Output)
    requires forall k | k in o.fields.unknowns :: !OutputType(k.keyType)
    ensures RecordOk(OutputV2, O.OutputRecord(o)) <==>
      && o.amount < 0x1_0000_0000_0000_0000 && |o.scriptPubkey| <= CAP
      && RedeemFits(o.fields) && SharedFit(o.fields) && ProprietariesFit(o.fields.proprietaries)
  {
    OutputsWriteFields(o);
    hide TypeFits, WritesFields, Outputs, DerivationsFit, OriginsFit, ProprietariesFit, UnknownFits, TreeFits,
         RedeemFits, SilentPaymentInfo, RecordOk, O.OutputRecord, OutputType;
    ScriptFields(OutputV2, Outputs(o), o.fields);
    SilentPaymentFields(OutputV2, Outputs(o), o.fields);
    OtherFields(o);
    SharedMaps(OutputV2, Outputs(o), o.fields);
    AmountFields(o);
    OutputTypes(Outputs(o));
    OutputRecordFits(o);
    RawOutputs(o);
  }

  /** An output's map is complete exactly if a label has its address. */
  lemma OutputLabels(o: O.Output)
    ensures Complete(OutputV2, O.OutputRecord(o)) == None <==> (o.fields.spV0Label.Some? ==> o.fields.spV0Info.Some?)
  {
    hide O.OutputRecord;
    O.OutputRecordSlots(o, Key(OUT_AMOUNT, []));
    O.OutputRecordSlots(o, Key(OUT_SCRIPT, []));
    O.OutputRecordSlots(o, Key(OUT_SP_V0_INFO, []));
    O.OutputRecordSlots(o, Key(OUT_SP_V0_LABEL, []));
  }

  /** A well-formed output is one whose every field is in range. */
  lemma OutputWellFormed(o: O.Output)
    ensures O.OutputOk(o) <==> OutputFits(o)
  {
    forall t: nat ensures O.Named(t, false) <==> OutputType(t) { }
    hide RedeemFits, SharedFit, ProprietariesFit, RecordOk, Complete, O.OutputRecord, OutputType, O.Named;
    assert O.UnknownsOk(o.fields, false) <==> forall k | k in o.fields.unknowns :: !OutputType(k.keyType);
    OutputLabels(o);
    if O.UnknownsOk(o.fields, false) { RangesOf(o); }
  }

  /* ----- version 0 ----- */

  lemma OutputsWriteFieldsV0(f: O.OutputFields)
    ensures WritesFields(OutputsV0(f), f)
    ensures forall d: bytes :: OutputsV0(f)(Key(0x00, d)) == None
    ensures forall d: bytes :: OutputsV0(f)(Key(0xfc, d)) == Look(d, f.proprietaries, MakeBlob)
  {
    hide O.FieldsSlot, Put, Look;
    forall t: nat, d: bytes | t != 0x00 ensures OutputsV0(f)(Key(t, d)) == O.FieldsSlot(f, Key(t, d), false) {
      FieldKeys(f, d);
    }
    forall d: bytes
      ensures OutputsV0(f)(Key(0x00, d)) == None
      ensures OutputsV0(f)(Key(0xfc, d)) == Look(d, f.proprietaries, MakeBlob)
    {
      FieldKeys(f, d);
    }
  }

  lemma ProprietaryRefused(d: bytes, v: Value)
    ensures !EntryOk(OutputV0, Key(0xfc, d), v)
  {
    hide ValueOk, KeyFits;
    assert ReadProprietary([]).None?;
    hide ReadProprietary;
  }

  lemma RefusedFields(f: O.OutputFields)
    ensures TypeFits(OutputV0, OutputsV0(f), 0x00)
    ensures TypeFits(OutputV0, OutputsV0(f), 0xfc) <==> f.proprietaries == map[]
  {
    hide EntryOk, O.FieldsSlot, Look;
    OutputsWriteFieldsV0(f);
    forall d: bytes, v: Value ensures !EntryOk(OutputV0, Key(0xfc, d), v) { ProprietaryRefused(d, v); }
    RefusedField(OutputV0, OutputsV0(f), 0xfc, f.proprietaries);
  }

  lemma RawOutputsV0(f: O.OutputFields)
    requires forall k | k in f.unknowns :: !OutputTypeV0(k.keyType)
    ensures (forall t: nat | !OutputTypeV0(t) :: TypeFits(OutputV0, OutputsV0(f), t)) <==>
      (forall k | k in f.unknowns :: UnknownFits(k, f.unknowns[k]))
  {
    forall k: Key | !OutputTypeV0(k.keyType)
      ensures RuleOf(OutputV0, k) == Accept(BytesCodec, RawData)
      ensures OutputsV0(f)(k) == if k in f.unknowns then Some(Blob(f.unknowns[k])) else None
    {
    }
    hide RuleOf, O.FieldsSlot, UnknownFits, EntryOk;
    UnknownFields(OutputV0, OutputsV0(f), f.unknowns, OutputTypeV0);
  }

  lemma OutputTypesV0(slot: Key -> Option<Value>)
    ensures (forall t: nat :: TypeFits(OutputV0, slot, t)) <==>
      && TypeFits(OutputV0, slot, 0x00) && TypeFits(OutputV0, slot, 0x01) && TypeFits(OutputV0, slot, 0x02)
      && TypeFits(OutputV0, slot, 0x05) && TypeFits(OutputV0, slot, 0x06) && TypeFits(OutputV0, slot, 0x07)
      && TypeFits(OutputV0, slot, 0x09) && TypeFits(OutputV0, slot, 0x0a) && TypeFits(OutputV0, slot, 0xfc)
      && (forall t: nat | !OutputTypeV0(t) :: TypeFits(OutputV0, slot, t))
  {
    hide TypeFits;
  }

  lemma OutputRecordFitsV0(f: O.OutputFields)
    ensures RecordOk(OutputV0, O.FieldsRecord(f)) <==> forall t: nat :: TypeFits(OutputV0, OutputsV0(f), t)
  {
    hide RecordOk, TypeFits, O.FieldsSlot, O.FieldsRecord;
    forall k: Key
      ensures k in O.FieldsRecord(f) <==> OutputsV0(f)(k).Some?
      ensures k in O.FieldsRecord(f) ==> O.FieldsRecord(f)[k] == OutputsV0(f)(k).value
    {
      O.FieldsRecordSlots(f, k);
    }
    RecordFits(OutputV0, O.FieldsRecord(f), OutputsV0(f));
  }

  lemma RangesOfV0(f: O.OutputFields)
    requires forall k | k in f.unknowns :: !OutputTypeV0(k.keyType)
    ensures RecordOk(OutputV0, O.FieldsRecord(f)) <==> SharedFit(f) && f.proprietaries == map[]
  {
    OutputsWriteFieldsV0(f);
    hide TypeFits, WritesFields, OutputsV0, DerivationsFit, OriginsFit, UnknownFits, TreeFits, SilentPaymentInfo,
         RecordOk, O.FieldsRecord, OutputTypeV0, Look;
    ScriptFields(OutputV0, OutputsV0(f), f);
    SilentPaymentFields(OutputV0, OutputsV0(f), f);
    SharedMaps(OutputV0, OutputsV0(f), f);
    RefusedFields(f);
    OutputTypesV0(OutputsV0(f));
    OutputRecordFitsV0(f);
    RawOutputsV0(f);
  }

  /** What version 0 takes of an output, field by field. */
  lemma OutputWellFormedV0(f: O.OutputFields)
    ensures O.UnknownsOk(f, true) && RecordOk(OutputV0, O.FieldsRecord(f)) <==> OutputFitsV0(f)
  {
    forall t: nat ensures O.Named(t, true) <==> OutputTypeV0(t) { }
    hide SharedFit, RecordOk, O.FieldsRecord, OutputTypeV0, O.Named;
    assert O.UnknownsOk(f, true) <==> forall k | k in f.unknowns :: !OutputTypeV0(k.keyType);
    if O.UnknownsOk(f, true) { RangesOfV0(f); }
  }
}
