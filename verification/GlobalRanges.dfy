/** What a well-formed global map is, field by field, in both versions. */
module GlobalRanges {
  import opened Bytes
  import opened CompactSize
  import opened Values
  import opened ValueCodecs
  import opened Tables
  import opened Maps
  import opened MapEncoding
  import opened Fields
  import opened Ranges
  import opened FieldRanges
  import opened Promotion
  import G = Global

  /** The key types of the global map, in version 2. */
  predicate GlobalType(t: nat) { 0x00 <= t <= 0x08 || t == 0xfb || t == 0xfc }

  /** And in version 0. */
  predicate GlobalTypeV0(t: nat) { t == 0x00 || t == 0x01 || t == 0x07 || t == 0x08 || t == 0xfb || t == 0xfc }

  /** The fields of both versions, in range. */
  ghost predicate FieldsFit(f: G.GlobalFields) {
    && XpubsFit(f.xpubs) && SharesFit(f.spEcdhShares) && ProofsFit(f.spDleqProofs) && ProprietariesFit(f.proprietaries)
    && (forall k | k in f.unknowns :: UnknownFits(k, f.unknowns[k]))
  }

  predicate SharesProven(f: G.GlobalFields) { f.spEcdhShares == map[] <==> f.spDleqProofs == map[] }

  predicate HeadFits(g: G.Global) {
    && g.version == 2 && g.txVersion < 0x1_0000_0000
    && (g.fallbackLockTime.Some? ==> g.fallbackLockTime.value < 0x1_0000_0000)
    && g.inputCount <= CAP && g.outputCount <= CAP
  }

  ghost predicate GlobalFits(g: G.Global) {
    && HeadFits(g) && FieldsFit(g.fields) && SharesProven(g.fields)
    && forall k | k in g.fields.unknowns :: !GlobalType(k.keyType)
  }

  /** A version-0 global map: the embedded transaction, and the fields. */
  ghost predicate GlobalFitsV0(utx: UnsignedTx, f: G.GlobalFields) {
    UnsignedFits(utx) && FieldsFit(f) && forall k | k in f.unknowns :: !GlobalTypeV0(k.keyType)
  }

  function Globals(g: G.Global): Key -> Option<Value> { (k: Key) => G.GlobalSlot(g, k) }
  function GlobalsV0(utx: UnsignedTx, f: G.GlobalFields): Key -> Option<Value> {
    (k: Key) => G.GlobalSlotV0(utx, f, k)
  }

  predicate GlobalTable(table: Table) { table.GlobalV2? || table.GlobalV0? }

  ghost predicate WritesFields(slot: Key -> Option<Value>, f: G.GlobalFields) {
    forall t: nat, d: bytes | t == 0x01 || t == 0x07 || t == 0x08 || t == 0xfc ::
      slot(Key(t, d)) == G.FieldsSlot(f, Key(t, d))
  }

  /** Where each field of a global map stands on the wire. */
  lemma FieldKeys(f: G.GlobalFields, d: bytes)
    ensures G.FieldsSlot(f, Key(0x01, d)) == Look(d, f.xpubs, MakeSource)
    ensures G.FieldsSlot(f, Key(0x07, d)) == Look(d, f.spEcdhShares, MakeBlob)
    ensures G.FieldsSlot(f, Key(0x08, d)) == Look(d, f.spDleqProofs, MakeBlob)
    ensures G.FieldsSlot(f, Key(0xfc, d)) == Look(d, f.proprietaries, MakeBlob)
  {
    hide Look;
  }

  lemma GlobalKeys(g: G.Global, d: bytes)
    ensures G.GlobalSlot(g, Key(0xfb, d)) == Put(d, Some(Num(g.version)))
    ensures G.GlobalSlot(g, Key(0x02, d)) == Put(d, Some(Num(g.txVersion)))
    ensures G.GlobalSlot(g, Key(0x03, d)) == Put(d, OptNum(g.fallbackLockTime))
    ensures G.GlobalSlot(g, Key(0x04, d)) == Put(d, Some(Num(g.inputCount)))
    ensures G.GlobalSlot(g, Key(0x05, d)) == Put(d, Some(Num(g.outputCount)))
    ensures G.GlobalSlot(g, Key(0x06, d)) == Put(d, Some(Num(g.txModifiableFlags)))
    ensures forall t: nat | !(0x02 <= t <= 0x06) && t != 0xfb ::
      G.GlobalSlot(g, Key(t, d)) == G.FieldsSlot(g.fields, Key(t, d))
  {
    hide Put, OptNum, G.FieldsSlot;
  }

  lemma FieldRules(table: Table)
    requires GlobalTable(table)
    ensures TakesMap(table, 0x01, KeySourceCodec, XpubData) && TakesMap(table, 0xfc, BytesCodec, ProprietaryData)
    ensures TakesMap(table, 0x07, FixedBlob(33, Compressed), CompressedData)
    ensures TakesMap(table, 0x08, FixedBlob(64, AnyBytes), CompressedData)
  {
  }

  lemma HeadRules()
    ensures TakesSingle(GlobalV2, 0xfb, Number(4, 2, 2)) && TakesSingle(GlobalV2, 0x06, Number(1, 0, 255))
    ensures TakesSingle(GlobalV2, 0x02, Number(4, 0, 0xFFFF_FFFF))
    ensures TakesSingle(GlobalV2, 0x03, Number(4, 0, 0xFFFF_FFFF))
    ensures TakesSingle(GlobalV2, 0x04, CountCodec) && TakesSingle(GlobalV2, 0x05, CountCodec)
    ensures TakesSingle(GlobalV0, 0x00, UnsignedTxCodec) && TakesSingle(GlobalV0, 0xfb, Number(4, 0, 0))
  {
  }

  lemma SharedFields(table: Table, slot: Key -> Option<Value>, f: G.GlobalFields)
    requires GlobalTable(table) && WritesFields(slot, f)
    ensures TypeFits(table, slot, 0x01) <==> XpubsFit(f.xpubs)
    ensures TypeFits(table, slot, 0x07) <==> SharesFit(f.spEcdhShares)
    ensures TypeFits(table, slot, 0x08) <==> ProofsFit(f.spDleqProofs)
    ensures TypeFits(table, slot, 0xfc) <==> ProprietariesFit(f.proprietaries)
  {
    forall d: bytes { FieldKeys(f, d); }
    FieldRules(table);
    hide TypeFits, TakesMap, Look, G.FieldsSlot, XpubsFit, SharesFit, ProofsFit, ProprietariesFit;
    XpubField(table, slot, 0x01, f.xpubs);
    ShareField(table, slot, 0x07, f.spEcdhShares);
    ProofField(table, slot, 0x08, f.spDleqProofs);
    ProprietaryField(table, slot, 0xfc, f.proprietaries);
  }

  lemma VersionFields(g: G.Global)
    ensures TypeFits(GlobalV2, Globals(g), 0xfb) <==> g.version == 2
    ensures TypeFits(GlobalV2, Globals(g), 0x02) <==> g.txVersion < 0x1_0000_0000
    ensures TypeFits(GlobalV2, Globals(g), 0x03) <==>
      (g.fallbackLockTime.Some? ==> g.fallbackLockTime.value < 0x1_0000_0000)
  {
    var slot := Globals(g);
    HeadRules();
    assert OptNum(Some(g.version)) == Some(Num(g.version)) && OptNum(Some(g.txVersion)) == Some(Num(g.txVersion));
    hide TypeFits, TakesSingle, Put, G.GlobalSlot, OptNum;
    forall d: bytes
      ensures slot(Key(0xfb, d)) == Put(d, Some(Num(g.version))) && slot(Key(0x02, d)) == Put(d, Some(Num(g.txVersion)))
      ensures slot(Key(0x03, d)) == Put(d, OptNum(g.fallbackLockTime))
    {
      GlobalKeys(g, d);
    }
    NumberField(GlobalV2, slot, 0xfb, 2, 2, Some(g.version));
    NumberField(GlobalV2, slot, 0x02, 0, 0xFFFF_FFFF, Some(g.txVersion));
    NumberField(GlobalV2, slot, 0x03, 0, 0xFFFF_FFFF, g.fallbackLockTime);
  }

  lemma CountFields(g: G.Global)
    ensures TypeFits(GlobalV2, Globals(g), 0x04) <==> g.inputCount <= CAP
    ensures TypeFits(GlobalV2, Globals(g), 0x05) <==> g.outputCount <= CAP
    ensures TypeFits(GlobalV2, Globals(g), 0x06)
  {
    var slot := Globals(g);
    HeadRules();
    hide TypeFits, TakesSingle, Put, G.GlobalSlot;
    forall d: bytes
      ensures slot(Key(0x04, d)) == Put(d, Some(Num(g.inputCount)))
      ensures slot(Key(0x05, d)) == Put(d, Some(Num(g.outputCount)))
      ensures slot(Key(0x06, d)) == Put(d, Some(Num(g.txModifiableFlags)))
    {
      GlobalKeys(g, d);
    }
    CountField(GlobalV2, slot, 0x04, g.inputCount);
    CountField(GlobalV2, slot, 0x05, g.outputCount);
    FlagsField(GlobalV2, slot, 0x06, g.txModifiableFlags);
  }

  lemma RawGlobals(g: G.Global)
    requires forall k | k in g.fields.unknowns :: !GlobalType(k.keyType)
    ensures (forall t: nat | !GlobalType(t) :: TypeFits(GlobalV2, Globals(g), t)) <==>
      (forall k | k in g.fields.unknowns :: UnknownFits(k, g.fields.unknowns[k]))
    ensures TypeFits(GlobalV2, Globals(g), 0x00)
  {
    forall k: Key | !GlobalType(k.keyType)
      ensures RuleOf(GlobalV2, k) == Accept(BytesCodec, RawData)
      ensures Globals(g)(k) == if k in g.fields.unknowns then Some(Blob(g.fields.unknowns[k])) else None
    {
    }
    forall d: bytes ensures Globals(g)(Key(0x00, d)).None? { }
    hide RuleOf, G.GlobalSlot, UnknownFits, EntryOk;
    UnknownFields(GlobalV2, Globals(g), g.fields.unknowns, GlobalType);
  }

  lemma GlobalTypes(slot: Key -> Option<Value>)
    ensures (forall t: nat :: TypeFits(GlobalV2, slot, t)) <==>
      && TypeFits(GlobalV2, slot, 0x00) && TypeFits(GlobalV2, slot, 0x01) && TypeFits(GlobalV2, slot, 0x02)
      && TypeFits(GlobalV2, slot, 0x03) && TypeFits(GlobalV2, slot, 0x04) && TypeFits(GlobalV2, slot, 0x05)
      && TypeFits(GlobalV2, slot, 0x06) && TypeFits(GlobalV2, slot, 0x07) && TypeFits(GlobalV2, slot, 0x08)
      && TypeFits(GlobalV2, slot, 0xfb) && TypeFits(GlobalV2, slot, 0xfc)
      && (forall t: nat | !GlobalType(t) :: TypeFits(GlobalV2, slot, t))
  {
    hide TypeFits;
  }

  lemma GlobalRecordFits(g: G.Global)
    ensures RecordOk(GlobalV2, G.GlobalRecord(g)) <==> forall t: nat :: TypeFits(GlobalV2, Globals(g), t)
  {
    hide RecordOk, TypeFits, G.GlobalSlot, G.GlobalRecord;
    forall k: Key
      ensures k in G.GlobalRecord(g) <==> Globals(g)(k).Some?
      ensures k in G.GlobalRecord(g) ==> G.GlobalRecord(g)[k] == Globals(g)(k).value
    {
      G.GlobalRecordSlots(g, k);
    }
    RecordFits(GlobalV2, G.GlobalRecord(g), Globals(g));
  }

  lemma GlobalsWriteFields(g: G.Global)
    ensures WritesFields(Globals(g), g.fields)
  {
    hide G.FieldsSlot;
    forall d: bytes { GlobalKeys(g, d); }
  }

  lemma RangesOf(g: G.Global)
    requires forall k | k in g.fields.unknowns :: !GlobalType(k.keyType)
    ensures RecordOk(GlobalV2, G.GlobalRecord(g)) <==> HeadFits(g) && FieldsFit(g.fields)
  {
    GlobalsWriteFields(g);
    hide TypeFits, WritesFields, Globals, XpubsFit, SharesFit, ProofsFit, ProprietariesFit, UnknownFits,
         RecordOk, G.GlobalRecord, GlobalType;
    SharedFields(GlobalV2, Globals(g), g.fields);
    VersionFields(g);
    CountFields(g);
    GlobalTypes(Globals(g));
    GlobalRecordFits(g);
    RawGlobals(g);
  }

  /** Shares come with proofs in every complete global map. */
  lemma GlobalShares(g: G.Global)
    ensures Complete(GlobalV2, G.GlobalRecord(g)) == None <==> SharesProven(g.fields)
  {
    var r, f := G.GlobalRecord(g), g.fields;
    hide G.GlobalRecord, G.FieldsSlot, HasType;
    RequiredSlots(g);
    forall d: bytes
      ensures Key(GLOBAL_SP_ECDH, d) in r <==> d in f.spEcdhShares
      ensures Key(GLOBAL_SP_DLEQ, d) in r <==> d in f.spDleqProofs
    {
      G.GlobalRecordSlots(g, Key(GLOBAL_SP_ECDH, d));
      G.GlobalRecordSlots(g, Key(GLOBAL_SP_DLEQ, d));
      GlobalSpSlots(f, d);
    }
    TypeIsMap(r, GLOBAL_SP_ECDH, f.spEcdhShares);
    TypeIsMap(r, GLOBAL_SP_DLEQ, f.spDleqProofs);
  }

  /** A well-formed global map is one whose every field is in range. */
  lemma GlobalWellFormed(g: G.Global)
    ensures G.GlobalOk(g) <==> GlobalFits(g)
  {
    forall t: nat ensures G.Named(t, false) <==> GlobalType(t) { }
    hide HeadFits, FieldsFit, SharesProven, RecordOk, Complete, G.GlobalRecord, GlobalType, G.Named;
    assert G.UnknownsOk(g.fields, false) <==> forall k | k in g.fields.unknowns :: !GlobalType(k.keyType);
    GlobalShares(g);
    if G.UnknownsOk(g.fields, false) { RangesOf(g); }
  }

  /* ----- version 0 ----- */

  lemma GlobalKeysV0(utx: UnsignedTx, f: G.GlobalFields, d: bytes)
    ensures G.GlobalSlotV0(utx, f, Key(0x00, d)) == Put(d, Some(Unsigned(utx)))
    ensures forall t: nat | t != 0x00 :: G.GlobalSlotV0(utx, f, Key(t, d)) == G.FieldsSlot(f, Key(t, d))
  {
    hide Put, G.FieldsSlot;
  }

  lemma RawGlobalsV0(utx: UnsignedTx, f: G.GlobalFields)
    requires forall k | k in f.unknowns :: !GlobalTypeV0(k.keyType)
    ensures (forall t: nat | !GlobalTypeV0(t) :: TypeFits(GlobalV0, GlobalsV0(utx, f), t)) <==>
      (forall k | k in f.unknowns :: UnknownFits(k, f.unknowns[k]))
    ensures TypeFits(GlobalV0, GlobalsV0(utx, f), 0xfb)
  {
    var slot := GlobalsV0(utx, f);
    forall k: Key | !GlobalTypeV0(k.keyType)
      ensures RuleOf(GlobalV0, k) == Accept(BytesCodec, RawData)
      ensures slot(k) == if k in f.unknowns then Some(Blob(f.unknowns[k])) else None
    {
    }
    forall d: bytes ensures slot(Key(0xfb, d)).None? { }
    hide RuleOf, G.GlobalSlotV0, UnknownFits, EntryOk;
    UnknownFields(GlobalV0, slot, f.unknowns, GlobalTypeV0);
  }

  /** A version-0 global map may say its version, which must be zero; it is not written back. */
  lemma VersionZero(d: bytes, v: Value)
    ensures EntryOk(GlobalV0, Key(0xfb, d), v) <==> d == [] && v == Num(0)
  {
    assert RuleOf(GlobalV0, Key(0xfb, d)) == Accept(Number(4, 0, 0), EmptyData);
    hide RuleOf, ValueOk;
    KeyBytes(0xfb, d);
    Pow256Values();
    if v.Num? { NumberRange(4, 0, 0, v.n); } else { NotNumber(v); }
  }

  lemma NotNumber(v: Value)
    ensures ValueOk(Number(4, 0, 0), v) ==> v.Num?
  {
    NumberMeans(4, 0, 0, v);
    hide Enc;
  }

  lemma GlobalTypesV0(slot: Key -> Option<Value>)
    ensures (forall t: nat :: TypeFits(GlobalV0, slot, t)) <==>
      && TypeFits(GlobalV0, slot, 0x00) && TypeFits(GlobalV0, slot, 0x01) && TypeFits(GlobalV0, slot, 0x07)
      && TypeFits(GlobalV0, slot, 0x08) && TypeFits(GlobalV0, slot, 0xfb) && TypeFits(GlobalV0, slot, 0xfc)
      && (forall t: nat | !GlobalTypeV0(t) :: TypeFits(GlobalV0, slot, t))
  {
    hide TypeFits;
  }

  lemma GlobalRecordFitsV0(utx: UnsignedTx, f: G.GlobalFields)
    ensures RecordOk(GlobalV0, G.GlobalRecordV0(utx, f)) <==> forall t: nat :: TypeFits(GlobalV0, GlobalsV0(utx, f), t)
  {
    var slot := GlobalsV0(utx, f);
    hide RecordOk, TypeFits, G.GlobalSlotV0, G.GlobalRecordV0;
    forall k: Key
      ensures k in G.GlobalRecordV0(utx, f) <==> slot(k).Some?
      ensures k in G.GlobalRecordV0(utx, f) ==> G.GlobalRecordV0(utx, f)[k] == slot(k).value
    {
      G.GlobalRecordV0Slots(utx, f, k);
    }
    RecordFits(GlobalV0, G.GlobalRecordV0(utx, f), slot);
  }

  lemma GlobalsWriteFieldsV0(utx: UnsignedTx, f: G.GlobalFields)
    ensures WritesFields(GlobalsV0(utx, f), f)
  {
    hide G.FieldsSlot;
    forall d: bytes { GlobalKeysV0(utx, f, d); }
  }

  lemma EmbeddedField(utx: UnsignedTx, f: G.GlobalFields)
    ensures TypeFits(GlobalV0, GlobalsV0(utx, f), 0x00) <==> UnsignedFits(utx)
  {
    forall d: bytes { GlobalKeysV0(utx, f, d); }
    HeadRules();
    hide TypeFits, TakesSingle, Put, G.GlobalSlotV0, G.FieldsSlot, UnsignedFits;
    UnsignedField(GlobalV0, GlobalsV0(utx, f), 0x00, utx);
  }

  lemma RangesOfV0(utx: UnsignedTx, f: G.GlobalFields)
    requires forall k | k in f.unknowns :: !GlobalTypeV0(k.keyType)
    ensures RecordOk(GlobalV0, G.GlobalRecordV0(utx, f)) <==> UnsignedFits(utx) && FieldsFit(f)
  {
    hide TypeFits, WritesFields, GlobalsV0, UnsignedFits, XpubsFit, SharesFit, ProofsFit, ProprietariesFit, UnknownFits,
         RecordOk, G.GlobalRecordV0, GlobalTypeV0;
    EmbeddedField(utx, f);
    GlobalsWriteFieldsV0(utx, f);
    SharedFields(GlobalV0, GlobalsV0(utx, f), f);
    GlobalTypesV0(GlobalsV0(utx, f));
    GlobalRecordFitsV0(utx, f);
    RawGlobalsV0(utx, f);
  }

  /** What version 0 takes of a global map, field by field. */
  lemma GlobalWellFormedV0(utx: UnsignedTx, f: G.GlobalFields)
    ensures G.UnknownsOk(f, true) && RecordOk(GlobalV0, G.GlobalRecordV0(utx, f)) <==> GlobalFitsV0(utx, f)
  {
    forall t: nat ensures G.Named(t, true) <==> GlobalTypeV0(t) { }
    hide UnsignedFits, FieldsFit, RecordOk, G.GlobalRecordV0, GlobalTypeV0, G.Named;
    assert G.UnknownsOk(f, true) <==> forall k | k in f.unknowns :: !GlobalTypeV0(k.keyType);
    if G.UnknownsOk(f, true) { RangesOfV0(utx, f); }
  }
}
