/** The global map of a PSBT, in memory. */
module Global {
  import opened Bytes
  import opened CompactSize
  import opened Bitcoin
  import opened Values
  import opened ValueCodecs
  import opened Tables
  import opened Maps
  import opened MapEncoding
  import opened Fields

  /** The fields both versions of the global map carry. */
  datatype GlobalFields = GlobalFields(
    xpubs: map<bytes, KeySource>,
    spEcdhShares: map<bytes, bytes>,
    spDleqProofs: map<bytes, bytes>,
    proprietaries: map<bytes, bytes>,
    unknowns: map<Key, bytes>)

  datatype Global = Global(
    version: nat,
    txVersion: nat,
    fallbackLockTime: Option<nat>,
    txModifiableFlags: byte,
    inputCount: nat,
    outputCount: nat,
    fields: GlobalFields)

  const V2: nat := 2

  predicate Named(t: nat, v0: bool) {
    || t == UNSIGNED_TX || t == XPUB || t == GLOBAL_SP_ECDH || t == GLOBAL_SP_DLEQ || t == VERSION || t == PROPRIETARY
    || (!v0 && TX_VERSION <= t <= TX_MODIFIABLE)
  }

  function FieldsSlot(f: GlobalFields, k: Key): Option<Value> {
    var t, d := k.keyType, k.data;
    if t == XPUB then Look(d, f.xpubs, MakeSource)
    else if t == GLOBAL_SP_ECDH then Look(d, f.spEcdhShares, MakeBlob)
    else if t == GLOBAL_SP_DLEQ then Look(d, f.spDleqProofs, MakeBlob)
    else if t == PROPRIETARY then Look(d, f.proprietaries, MakeBlob)
    else if k in f.unknowns then Some(Blob(f.unknowns[k])) else None
  }

  function GlobalSlot(g: Global, k: Key): Option<Value> {
    var t, d := k.keyType, k.data;
    if t == VERSION then Put(d, Some(Num(g.version)))
    else if t == TX_VERSION then Put(d, Some(Num(g.txVersion)))
    else if t == FALLBACK_LOCKTIME then Put(d, OptNum(g.fallbackLockTime))
    else if t == INPUT_COUNT then Put(d, Some(Num(g.inputCount)))
    else if t == OUTPUT_COUNT then Put(d, Some(Num(g.outputCount)))
    else if t == TX_MODIFIABLE then Put(d, Some(Num(g.txModifiableFlags)))
    else FieldsSlot(g.fields, k)
  }

  /** A version-0 global map: the unsigned transaction stands in for the version-2 fields. */
  function GlobalSlotV0(utx: UnsignedTx, f: GlobalFields, k: Key): Option<Value> {
    if k.keyType == UNSIGNED_TX then Put(k.data, Some(Unsigned(utx))) else FieldsSlot(f, k)
  }

  function Candidates(f: GlobalFields): set<Key> {
    SingleKeys() + MapKeys(f) + f.unknowns.Keys
  }

  function MapKeys(f: GlobalFields): set<Key> {
    KeysOfType(XPUB, f.xpubs.Keys) + KeysOfType(GLOBAL_SP_ECDH, f.spEcdhShares.Keys)
    + KeysOfType(GLOBAL_SP_DLEQ, f.spDleqProofs.Keys) + KeysOfType(PROPRIETARY, f.proprietaries.Keys)
  }

  function GlobalRecord(g: Global): Record {
    map k | k in Candidates(g.fields) && GlobalSlot(g, k).Some? :: GlobalSlot(g, k).value
  }

  function GlobalRecordV0(utx: UnsignedTx, f: GlobalFields): Record {
    map k | k in Candidates(f) && GlobalSlotV0(utx, f, k).Some? :: GlobalSlotV0(utx, f, k).value
  }

  function UnknownsOf(r: Record, v0: bool): map<Key, bytes> {
    map k | k in r && !Named(k.keyType, v0) :: BlobOf(r[k])
  }

  function BuildFields(r: Record, v0: bool): GlobalFields {
    GlobalFields(Many(r, XPUB, KeySourceOf), Many(r, GLOBAL_SP_ECDH, BlobOf), Many(r, GLOBAL_SP_DLEQ, BlobOf),
                 Many(r, PROPRIETARY, BlobOf), UnknownsOf(r, v0))
  }

  function FlagsOf(v: Value): byte { if v.Num? && v.n < 256 then v.n else 0 }

  /** What the decoder hands out at the separator; missing flags are all clear. */
  function BuildGlobal(r: Record): Global {
    Global(Required(r, VERSION, NumOf, V2), Required(r, TX_VERSION, NumOf, 0), One(r, FALLBACK_LOCKTIME, NumOf),
           Required(r, TX_MODIFIABLE, FlagsOf, 0), Required(r, INPUT_COUNT, NumOf, 0),
           Required(r, OUTPUT_COUNT, NumOf, 0), BuildFields(r, false))
  }

  function UnsignedTxOf(r: Record): UnsignedTx {
    Required(r, UNSIGNED_TX, UnsignedOf, UnsignedTx(0, [], [], 0))
  }

  predicate UnknownsOk(f: GlobalFields, v0: bool) {
    forall k | k in f.unknowns :: !Named(k.keyType, v0)
  }

  predicate GlobalOk(g: Global) {
    && UnknownsOk(g.fields, false)
    && RecordOk(GlobalV2, GlobalRecord(g))
    && Complete(GlobalV2, GlobalRecord(g)) == None
  }

  lemma FieldsSlots(f: GlobalFields, k: Key)
    ensures FieldsSlot(f, k).Some? ==> k in Candidates(f)
  {
    hide SingleKeys;
    assert k == Key(k.keyType, k.data);
  }

  lemma GlobalRecordSlots(g: Global, k: Key)
    ensures k in GlobalRecord(g) <==> GlobalSlot(g, k).Some?
    ensures k in GlobalRecord(g) ==> GlobalRecord(g)[k] == GlobalSlot(g, k).value
  {
    hide FieldsSlot, MapKeys, SingleKeys;
    SingleKeysExact();
    FieldsSlots(g.fields, k);
  }

  lemma GlobalRecordV0Slots(utx: UnsignedTx, f: GlobalFields, k: Key)
    ensures k in GlobalRecordV0(utx, f) <==> GlobalSlotV0(utx, f, k).Some?
    ensures k in GlobalRecordV0(utx, f) ==> GlobalRecordV0(utx, f)[k] == GlobalSlotV0(utx, f, k).value
  {
    hide FieldsSlot, MapKeys, SingleKeys;
    SingleKeysExact();
    FieldsSlots(f, k);
  }

  /** The record agrees with the fields wherever they are the ones to say. */
  ghost predicate Agrees(r: Record, f: GlobalFields, v0: bool) {
    forall k: Key | k.keyType != UNSIGNED_TX && k.keyType != VERSION && (Named(k.keyType, true) || !Named(k.keyType, v0)) ::
      (k in r <==> FieldsSlot(f, k).Some?) && (k in r ==> r[k] == FieldsSlot(f, k).value)
  }

  lemma BuildUnknowns(r: Record, f: GlobalFields, v0: bool)
    requires Agrees(r, f, v0) && UnknownsOk(f, v0)
    ensures UnknownsOf(r, v0) == f.unknowns
  {
    forall k: Key ensures k in UnknownsOf(r, v0) <==> k in f.unknowns
      ensures k in UnknownsOf(r, v0) ==> UnknownsOf(r, v0)[k] == f.unknowns[k]
    {
    }
  }

  lemma FieldsBack(r: Record, f: GlobalFields, v0: bool)
    requires Agrees(r, f, v0) && UnknownsOk(f, v0)
    ensures BuildFields(r, v0) == f
  {
    hide UnknownsOf;
    BuildUnknowns(r, f, v0);
    ManyIs(r, XPUB, KeySourceOf, MakeSource, f.xpubs);
    ManyIs(r, GLOBAL_SP_ECDH, BlobOf, MakeBlob, f.spEcdhShares);
    ManyIs(r, GLOBAL_SP_DLEQ, BlobOf, MakeBlob, f.spDleqProofs);
    ManyIs(r, PROPRIETARY, BlobOf, MakeBlob, f.proprietaries);
  }

  /** Reading the global map back out of what its encoder writes gives the same map. */
  lemma GlobalBack(g: Global)
    requires UnknownsOk(g.fields, false)
    ensures BuildGlobal(GlobalRecord(g)) == g
  {
    hide FieldsSlot, GlobalRecord, BuildFields, UnknownsOk;
    forall k: Key
      ensures k in GlobalRecord(g) <==> GlobalSlot(g, k).Some?
      ensures k in GlobalRecord(g) ==> GlobalRecord(g)[k] == GlobalSlot(g, k).value
    {
      GlobalRecordSlots(g, k);
    }
    FieldsBack(GlobalRecord(g), g.fields, false);
  }

  lemma GlobalV0Back(utx: UnsignedTx, f: GlobalFields)
    requires UnknownsOk(f, true)
    ensures BuildFields(GlobalRecordV0(utx, f), true) == f
    ensures UnsignedTxOf(GlobalRecordV0(utx, f)) == utx && Has(GlobalRecordV0(utx, f), UNSIGNED_TX)
  {
    hide FieldsSlot, GlobalRecordV0, BuildFields, UnknownsOk;
    forall k: Key
      ensures k in GlobalRecordV0(utx, f) <==> GlobalSlotV0(utx, f, k).Some?
      ensures k in GlobalRecordV0(utx, f) ==> GlobalRecordV0(utx, f)[k] == GlobalSlotV0(utx, f, k).value
    {
      GlobalRecordV0Slots(utx, f, k);
    }
    FieldsBack(GlobalRecordV0(utx, f), f, true);
  }

  /* ----- what the decoder built is written back as what it read ----- */

  function FlagsSlot(): Key { Key(TX_MODIFIABLE, []) }

  /** The record with its flags made explicit. */
  function WithFlags(r: Record): Record {
    if Has(r, TX_MODIFIABLE) then r else r[FlagsSlot() := Num(0)]
  }

  predicate KindFor(k: Key, v: Value) {
    var t := k.keyType;
    if t == VERSION || TX_VERSION <= t <= TX_MODIFIABLE then k.data == [] && v.Num?
    else if t == XPUB then v.Source?
    else t != UNSIGNED_TX && v.Blob?
  }

  lemma GlobalKinds(k: Key, v: Value)
    requires EntryOk(GlobalV2, k, v)
    ensures KindFor(k, v) && (k.keyType == TX_MODIFIABLE ==> v.n < 256)
  {
    hide EntryOk;
    EntryKind(GlobalV2, k, v);
    if k.keyType == TX_MODIFIABLE { FlagsKind(k, v); }
  }

  lemma FlagsKind(k: Key, v: Value)
    requires EntryOk(GlobalV2, k, v) && k.keyType == TX_MODIFIABLE
    ensures v.Num? && v.n < 256
  {
    assert RuleOf(GlobalV2, k) == Accept(Number(1, 0, 255), IgnoreData);
    hide RuleOf, KeyFits, Enc;
    NumberMeans(1, 0, 255, v);
  }

  lemma FieldsSlotBack(r: Record, k: Key)
    requires forall k | k in r :: KindFor(k, r[k])
    requires k.keyType != VERSION && !(TX_VERSION <= k.keyType <= TX_MODIFIABLE)
    ensures FieldsSlot(BuildFields(r, false), k) == At(r, k)
  {
    assert k == Key(k.keyType, k.data);
  }

  lemma GlobalSlotBack(r: Record, k: Key)
    requires forall k | k in r :: KindFor(k, r[k])
    requires FlagsSlot() in r ==> NumOf(r[FlagsSlot()]) < 256
    requires Complete(GlobalV2, r) == None
    ensures GlobalSlot(BuildGlobal(r), k) == At(WithFlags(r), k)
  {
    hide FieldsSlot, BuildFields;
    assert k == Key(k.keyType, k.data);
    if k.keyType != VERSION && !(TX_VERSION <= k.keyType <= TX_MODIFIABLE) { FieldsSlotBack(r, k); }
  }

  lemma FlagsEntryOk()
    ensures EntryOk(GlobalV2, FlagsSlot(), Num(0))
  {
    OneByte(0);
    assert NumberFormat(1, 0, 255).enc(Num(0)) == LE(0, 1);
    assert Pow256(1) == 256 * Pow256(0);
    assert NumberFormat(1, 0, 255).ok(Num(0));
    assert KeyBody(FlagsSlot()) == [6];
  }

  /** Writing what was read: the encoder's record of a decoded global map is the decoder's, flags made explicit. */
  lemma GlobalForth(r: Record)
    requires RecordOk(GlobalV2, r) && Complete(GlobalV2, r) == None
    ensures GlobalRecord(BuildGlobal(r)) == WithFlags(r) && GlobalOk(BuildGlobal(r))
  {
    hide GlobalSlot, BuildGlobal, EntryOk, KindFor;
    forall k | k in r ensures KindFor(k, r[k]) && (k == FlagsSlot() ==> NumOf(r[k]) < 256) {
      assert EntryOk(GlobalV2, k, r[k]);
      GlobalKinds(k, r[k]);
    }
    forall k: Key
      ensures k in GlobalRecord(BuildGlobal(r)) <==> k in WithFlags(r)
      ensures k in WithFlags(r) ==> GlobalRecord(BuildGlobal(r))[k] == WithFlags(r)[k]
    {
      GlobalRecordSlots(BuildGlobal(r), k);
      GlobalSlotBack(r, k);
    }
    assert GlobalRecord(BuildGlobal(r)) == WithFlags(r);
    FlagsEntryOk();
    BuiltUnknowns(r, false);
    CompleteWithFlags(r);
  }

  lemma CompleteWithFlags(r: Record)
    requires Complete(GlobalV2, r) == None
    ensures Complete(GlobalV2, WithFlags(r)) == None
  {
    var s := WithFlags(r);
    assert forall k | k in r :: k in s;
    assert forall k | k in s :: k in r || k == FlagsSlot();
    assert forall t | t != TX_MODIFIABLE :: HasType(r, t) == HasType(s, t);
  }

  lemma BuiltUnknowns(r: Record, v0: bool)
    ensures UnknownsOk(BuildFields(r, v0), v0)
    ensures BuildGlobal(r).fields == BuildFields(r, false)
  {
  }

  /* ----- what well-formedness means for the fields ----- */

  lemma SlotIsOk(g: Global, k: Key)
    requires GlobalOk(g) && GlobalSlot(g, k).Some?
    ensures EntryOk(GlobalV2, k, GlobalSlot(g, k).value)
  {
    hide GlobalSlot, EntryOk;
    GlobalRecordSlots(g, k);
  }

  lemma GlobalWidths(g: Global)
    requires GlobalOk(g)
    ensures g.version == V2 && g.txVersion < U32 && g.inputCount <= CAP && g.outputCount <= CAP
    ensures g.fallbackLockTime.Some? ==> g.fallbackLockTime.value < U32
  {
    hide FieldsSlot, KindOk, GlobalOk, Enc;
    SlotIsOk(g, Key(VERSION, []));
    NumberMeans(4, 2, 2, Num(g.version));
    SlotIsOk(g, Key(TX_VERSION, []));
    NumberMeans(4, 0, 0xFFFF_FFFF, Num(g.txVersion));
    SlotIsOk(g, Key(INPUT_COUNT, []));
    CountMeans(Num(g.inputCount));
    SlotIsOk(g, Key(OUTPUT_COUNT, []));
    CountMeans(Num(g.outputCount));
    if g.fallbackLockTime.Some? {
      SlotIsOk(g, Key(FALLBACK_LOCKTIME, []));
      NumberMeans(4, 0, 0xFFFF_FFFF, Num(g.fallbackLockTime.value));
    }
  }

  /* ----- a version-2 global map as version 0 ----- */

  lemma RuleDemoted(k: Key, v: Value)
    requires EntryOk(GlobalV2, k, v)
    requires k.keyType != VERSION && !(UNSIGNED_TX == k.keyType) && !(TX_VERSION <= k.keyType <= TX_MODIFIABLE)
    ensures EntryOk(GlobalV0, k, v)
  {
    hide KindOk, ValueOk, Enc, KeyFits, KeyBody;
  }

  predicate UnsignedFits(utx: UnsignedTx) {
    UnsignedTxOk(utx) && |Enc(UnsignedTxCodec, Unsigned(utx))| <= CAP
  }

  lemma UnsignedKindOk(utx: UnsignedTx)
    requires UnsignedTxOk(utx)
    ensures KindOk(UnsignedTxCodec, Unsigned(utx))
  {
    hide UnsignedTxOk;
    assert KindOk(UnsignedTxCodec, Unsigned(utx)) == UnsignedTxValueFormat().ok(Unsigned(utx));
  }

  lemma UnsignedEntryOk(utx: UnsignedTx)
    requires UnsignedFits(utx)
    ensures EntryOk(GlobalV0, Key(UNSIGNED_TX, []), Unsigned(utx))
  {
    hide Enc, UnsignedTxOk;
    UnsignedKindOk(utx);
    assert KeyBody(Key(UNSIGNED_TX, [])) == [0];
    assert RuleOf(GlobalV0, Key(UNSIGNED_TX, [])) == Accept(UnsignedTxCodec, EmptyData);
  }

  lemma FieldsKeys(g: Global, k: Key)
    requires UnknownsOk(g.fields, false) && FieldsSlot(g.fields, k).Some?
    ensures k.keyType != VERSION && k.keyType != UNSIGNED_TX && !(TX_VERSION <= k.keyType <= TX_MODIFIABLE)
    ensures GlobalSlot(g, k) == FieldsSlot(g.fields, k)
  {
  }

  lemma UnknownsDemoted(f: GlobalFields)
    requires UnknownsOk(f, false)
    ensures UnknownsOk(f, true)
  {
  }

  /** The version-0 global map of a well-formed PSBT is well-formed and complete. */
  lemma GlobalDemoted(g: Global, utx: UnsignedTx)
    requires GlobalOk(g) && UnsignedFits(utx)
    ensures UnknownsOk(g.fields, true)
    ensures RecordOk(GlobalV0, GlobalRecordV0(utx, g.fields))
    ensures Complete(GlobalV0, GlobalRecordV0(utx, g.fields)) == None
  {
    var r := GlobalRecordV0(utx, g.fields);
    hide FieldsSlot, GlobalSlot, GlobalRecordV0, GlobalRecord, EntryOk, Named, UnsignedFits;
    UnknownsDemoted(g.fields);
    UnsignedEntryOk(utx);
    forall k: Key
      ensures k in r <==> GlobalSlotV0(utx, g.fields, k).Some?
      ensures k in r ==> EntryOk(GlobalV0, k, r[k])
      ensures k in r && k.keyType != UNSIGNED_TX ==> k in GlobalRecord(g)
      ensures k in GlobalRecord(g) && (k.keyType == GLOBAL_SP_ECDH || k.keyType == GLOBAL_SP_DLEQ) ==> k in r
    {
      GlobalRecordV0Slots(utx, g.fields, k);
      GlobalRecordSlots(g, k);
      if k in r {
        if k.keyType == UNSIGNED_TX {
          assert k == Key(UNSIGNED_TX, []);
        } else {
          FieldsKeys(g, k);
          assert EntryOk(GlobalV2, k, r[k]);
          RuleDemoted(k, r[k]);
        }
      }
      if k in GlobalRecord(g) && (k.keyType == GLOBAL_SP_ECDH || k.keyType == GLOBAL_SP_DLEQ) { SpSlots(g, k); }
    }
  }

  lemma SpSlots(g: Global, k: Key)
    requires k.keyType == GLOBAL_SP_ECDH || k.keyType == GLOBAL_SP_DLEQ
    ensures GlobalSlot(g, k) == FieldsSlot(g.fields, k)
  {
  }
}
