/** The output map of a PSBT, in memory. */
module Output {
  import opened Bytes
  import opened CompactSize
  import opened Bitcoin
  import opened Values
  import opened ValueCodecs
  import opened Tables
  import opened Maps
  import opened MapEncoding
  import opened Fields
  import I = Input

  /** The fields both versions of the output map carry (`OutputV0`). */
  datatype OutputFields = OutputFields(
    redeemScript: Option<bytes>,
    witnessScript: Option<bytes>,
    bip32Derivations: map<bytes, KeySource>,
    tapInternalKey: Option<bytes>,
    tapTree: Option<seq<TapLeaf>>,
    tapKeyOrigins: map<bytes, TapKeyOrigin>,
    spV0Info: Option<bytes>,
    spV0Label: Option<nat>,
    proprietaries: map<bytes, bytes>,
    unknowns: map<Key, bytes>)

  datatype Output = Output(amount: nat, scriptPubkey: bytes, fields: OutputFields)

  predicate Named(t: nat, v0: bool) {
    || t <= OUT_BIP32_DERIVATION || (!v0 && (t == OUT_AMOUNT || t == OUT_SCRIPT))
    || OUT_TAP_INTERNAL_KEY <= t <= OUT_TAP_BIP32_DERIVATION
    || t == OUT_SP_V0_INFO || t == OUT_SP_V0_LABEL || t == PROPRIETARY
  }

  /** The version-0 encoder has no state for the redeem script. */
  function FieldsSlot(f: OutputFields, k: Key, v0: bool): Option<Value> {
    var t, d := k.keyType, k.data;
    if t == OUT_REDEEM_SCRIPT then if v0 then None else Put(d, OptBlob(f.redeemScript))
    else if t == OUT_WITNESS_SCRIPT then Put(d, OptBlob(f.witnessScript))
    else if t == OUT_BIP32_DERIVATION then Look(d, f.bip32Derivations, MakeSource)
    else if t == OUT_TAP_INTERNAL_KEY then Put(d, OptBlob(f.tapInternalKey))
    else if t == OUT_TAP_TREE then Put(d, if f.tapTree.Some? then Some(Tree(f.tapTree.value)) else None)
    else if t == OUT_TAP_BIP32_DERIVATION then Look(d, f.tapKeyOrigins, MakeOrigin)
    else if t == OUT_SP_V0_INFO then Put(d, OptBlob(f.spV0Info))
    else if t == OUT_SP_V0_LABEL then Put(d, OptNum(f.spV0Label))
    else if t == PROPRIETARY then Look(d, f.proprietaries, MakeBlob)
    else if k in f.unknowns then Some(Blob(f.unknowns[k])) else None
  }

  /** A silent payment output whose script is yet to be computed (BIP-375): its map leaves the script out. */
  predicate Uncomputed(o: Output) { o.fields.spV0Info.Some? && o.scriptPubkey == [] }

  function OutputSlot(o: Output, k: Key): Option<Value> {
    var t, d := k.keyType, k.data;
    if t == OUT_AMOUNT then Put(d, Some(Num(o.amount)))
    else if t == OUT_SCRIPT then if Uncomputed(o) then None else Put(d, Some(Blob(o.scriptPubkey)))
    else FieldsSlot(o.fields, k, false)
  }

  function Candidates(f: OutputFields): set<Key> {
    SingleKeys() + MapKeys(f) + f.unknowns.Keys
  }

  function MapKeys(f: OutputFields): set<Key> {
    KeysOfType(OUT_BIP32_DERIVATION, f.bip32Derivations.Keys)
    + KeysOfType(OUT_TAP_BIP32_DERIVATION, f.tapKeyOrigins.Keys) + KeysOfType(PROPRIETARY, f.proprietaries.Keys)
  }

  function FieldsRecord(f: OutputFields): Record {
    map k | k in Candidates(f) && FieldsSlot(f, k, true).Some? :: FieldsSlot(f, k, true).value
  }

  function OutputRecord(o: Output): Record {
    map k | k in Candidates(o.fields) && OutputSlot(o, k).Some? :: OutputSlot(o, k).value
  }

  function UnknownsOf(r: Record, v0: bool): map<Key, bytes> {
    map k | k in r && !Named(k.keyType, v0) :: BlobOf(r[k])
  }

  function BuildFields(r: Record, v0: bool): OutputFields {
    OutputFields(
      One(r, OUT_REDEEM_SCRIPT, BlobOf), One(r, OUT_WITNESS_SCRIPT, BlobOf),
      Many(r, OUT_BIP32_DERIVATION, KeySourceOf), One(r, OUT_TAP_INTERNAL_KEY, BlobOf),
      One(r, OUT_TAP_TREE, TreeOf), Many(r, OUT_TAP_BIP32_DERIVATION, OriginOf),
      One(r, OUT_SP_V0_INFO, BlobOf), One(r, OUT_SP_V0_LABEL, NumOf),
      Many(r, PROPRIETARY, BlobOf), UnknownsOf(r, v0))
  }

  /** What the decoder hands out at the separator; a script may be missing beside silent payment info. */
  function BuildOutput(r: Record): Output {
    Output(Required(r, OUT_AMOUNT, NumOf, 0), Required(r, OUT_SCRIPT, BlobOf, []), BuildFields(r, false))
  }

  predicate UnknownsOk(f: OutputFields, v0: bool) {
    forall k | k in f.unknowns :: !Named(k.keyType, v0)
  }

  predicate OutputOk(o: Output) {
    && UnknownsOk(o.fields, false)
    && RecordOk(OutputV2, OutputRecord(o))
    && Complete(OutputV2, OutputRecord(o)) == None
  }

  lemma FieldsSlots(f: OutputFields, k: Key, v0: bool)
    ensures FieldsSlot(f, k, v0).Some? ==> k in Candidates(f)
  {
    hide SingleKeys;
    SingleKeysExact();
    assert k == Key(k.keyType, k.data);
  }

  lemma FieldsRecordSlots(f: OutputFields, k: Key)
    ensures k in FieldsRecord(f) <==> FieldsSlot(f, k, true).Some?
    ensures k in FieldsRecord(f) ==> FieldsRecord(f)[k] == FieldsSlot(f, k, true).value
  {
    hide FieldsSlot, Candidates;
    FieldsSlots(f, k, true);
  }

  lemma OutputRecordSlots(o: Output, k: Key)
    ensures k in OutputRecord(o) <==> OutputSlot(o, k).Some?
    ensures k in OutputRecord(o) ==> OutputRecord(o)[k] == OutputSlot(o, k).value
  {
    hide FieldsSlot, MapKeys, SingleKeys;
    SingleKeysExact();
    FieldsSlots(o.fields, k, false);
  }

  /** The record agrees with the fields wherever they are the ones to say. */
  ghost predicate Agrees(r: Record, f: OutputFields, v0: bool) {
    forall k: Key | Named(k.keyType, true) || !Named(k.keyType, v0) ::
      (k in r <==> FieldsSlot(f, k, v0).Some?) && (k in r ==> r[k] == FieldsSlot(f, k, v0).value)
  }

  lemma BuildUnknowns(r: Record, f: OutputFields, v0: bool)
    requires Agrees(r, f, v0) && UnknownsOk(f, v0)
    ensures UnknownsOf(r, v0) == f.unknowns
  {
    forall k: Key ensures k in UnknownsOf(r, v0) <==> k in f.unknowns
      ensures k in UnknownsOf(r, v0) ==> UnknownsOf(r, v0)[k] == f.unknowns[k]
    {
    }
  }

  lemma BuildMaps(r: Record, f: OutputFields, v0: bool)
    requires Agrees(r, f, v0)
    ensures Many(r, OUT_BIP32_DERIVATION, KeySourceOf) == f.bip32Derivations
    ensures Many(r, OUT_TAP_BIP32_DERIVATION, OriginOf) == f.tapKeyOrigins
    ensures Many(r, PROPRIETARY, BlobOf) == f.proprietaries
  {
    ManyIs(r, OUT_BIP32_DERIVATION, KeySourceOf, MakeSource, f.bip32Derivations);
    ManyIs(r, OUT_TAP_BIP32_DERIVATION, OriginOf, MakeOrigin, f.tapKeyOrigins);
    ManyIs(r, PROPRIETARY, BlobOf, MakeBlob, f.proprietaries);
  }

  /** Version 0 gives everything back but the redeem script. */
  lemma FieldsBack(r: Record, f: OutputFields, v0: bool)
    requires Agrees(r, f, v0) && UnknownsOk(f, v0)
    ensures BuildFields(r, v0) == if v0 then f.(redeemScript := None) else f
  {
    hide UnknownsOf, Many;
    BuildUnknowns(r, f, v0);
    BuildMaps(r, f, v0);
  }

  /** Reading an output back out of what its encoder writes gives the same output, omitted script included. */
  lemma OutputBack(o: Output)
    requires UnknownsOk(o.fields, false)
    ensures BuildOutput(OutputRecord(o)) == o
  {
    hide FieldsSlot, OutputRecord, BuildFields, UnknownsOk;
    forall k: Key
      ensures k in OutputRecord(o) <==> OutputSlot(o, k).Some?
      ensures k in OutputRecord(o) ==> OutputRecord(o)[k] == OutputSlot(o, k).value
    {
      OutputRecordSlots(o, k);
    }
    FieldsBack(OutputRecord(o), o.fields, false);
  }

  lemma FieldsRecordBack(f: OutputFields)
    requires UnknownsOk(f, true)
    ensures BuildFields(FieldsRecord(f), true) == f.(redeemScript := None)
  {
    hide FieldsSlot, FieldsRecord, BuildFields, UnknownsOk;
    forall k: Key
      ensures k in FieldsRecord(f) <==> FieldsSlot(f, k, true).Some?
      ensures k in FieldsRecord(f) ==> FieldsRecord(f)[k] == FieldsSlot(f, k, true).value
    {
      FieldsRecordSlots(f, k);
    }
    FieldsBack(FieldsRecord(f), f, true);
  }

  /* ----- what the decoder built is written back as what it read ----- */

  predicate KindFor(k: Key, v: Value) {
    var t, single := k.keyType, k.data == [];
    if t == OUT_REDEEM_SCRIPT || t == OUT_WITNESS_SCRIPT || t == OUT_SCRIPT || t == OUT_TAP_INTERNAL_KEY
       || t == OUT_SP_V0_INFO then single && v.Blob?
    else if t == OUT_AMOUNT || t == OUT_SP_V0_LABEL then single && v.Num?
    else if t == OUT_TAP_TREE then single && v.Tree?
    else if t == OUT_BIP32_DERIVATION then v.Source?
    else if t == OUT_TAP_BIP32_DERIVATION then v.Origin?
    else v.Blob?
  }

  lemma OutputKinds(k: Key, v: Value)
    requires EntryOk(OutputV2, k, v)
    ensures KindFor(k, v)
  {
    hide EntryOk;
    EntryKind(OutputV2, k, v);
  }

  lemma FieldsSlotBack(r: Record, k: Key)
    requires forall k | k in r :: KindFor(k, r[k])
    requires k.keyType != OUT_AMOUNT && k.keyType != OUT_SCRIPT
    ensures FieldsSlot(BuildFields(r, false), k, false) == At(r, k)
  {
    assert k == Key(k.keyType, k.data);
  }

  /** The record without the script an underived silent payment output leaves out. */
  function Omitting(r: Record): Record {
    if Uncomputed(BuildOutput(r)) then r - {Key(OUT_SCRIPT, [])} else r
  }

  lemma OutputSlotBack(r: Record, k: Key)
    requires forall k | k in r :: KindFor(k, r[k])
    requires Complete(OutputV2, r) == None
    ensures OutputSlot(BuildOutput(r), k) == At(Omitting(r), k)
  {
    hide FieldsSlot;
    assert k == Key(k.keyType, k.data);
    if k.keyType != OUT_AMOUNT && k.keyType != OUT_SCRIPT { FieldsSlotBack(r, k); }
  }

  /** Writing what was read: the encoder's record of a decoded output is the decoder's, less an empty script. */
  lemma OutputForth(r: Record)
    requires RecordOk(OutputV2, r) && Complete(OutputV2, r) == None
    ensures OutputRecord(BuildOutput(r)) == Omitting(r) && OutputOk(BuildOutput(r))
  {
    hide OutputSlot, BuildFields, EntryOk, KindFor;
    forall k | k in r ensures KindFor(k, r[k]) {
      assert EntryOk(OutputV2, k, r[k]);
      OutputKinds(k, r[k]);
    }
    forall k: Key
      ensures k in OutputRecord(BuildOutput(r)) <==> k in Omitting(r)
      ensures k in Omitting(r) ==> OutputRecord(BuildOutput(r))[k] == Omitting(r)[k]
    {
      OutputRecordSlots(BuildOutput(r), k);
      OutputSlotBack(r, k);
    }
    assert OutputRecord(BuildOutput(r)) == Omitting(r);
    BuiltUnknowns(r, false);
    assert BuildOutput(r).fields.spV0Info == One(r, OUT_SP_V0_INFO, BlobOf) by { BuiltInfo(r); }
  }

  lemma BuiltInfo(r: Record)
    ensures BuildOutput(r).fields.spV0Info == One(r, OUT_SP_V0_INFO, BlobOf)
  {
  }

  lemma BuiltUnknowns(r: Record, v0: bool)
    ensures UnknownsOk(BuildFields(r, v0), v0)
    ensures BuildOutput(r).fields == BuildFields(r, false)
  {
  }

  /* ----- what well-formedness means for the fields ----- */

  lemma SlotIsOk(o: Output, k: Key)
    requires OutputOk(o) && OutputSlot(o, k).Some?
    ensures EntryOk(OutputV2, k, OutputSlot(o, k).value)
  {
    hide OutputSlot, EntryOk;
    OutputRecordSlots(o, k);
  }

  lemma OutputWidths(o: Output)
    requires OutputOk(o)
    ensures o.amount < U64 && |o.scriptPubkey| <= CAP
    ensures o.fields.spV0Label.Some? ==> o.fields.spV0Info.Some?
  {
    hide FieldsSlot, KindOk, KeyFits, RecordOk, Enc, OutputRecord;
    SlotIsOk(o, Key(OUT_AMOUNT, []));
    NumberMeans(8, 0, U64 - 1, Num(o.amount));
    if !Uncomputed(o) {
      SlotIsOk(o, Key(OUT_SCRIPT, []));
      assert |Enc(BytesCodec, Blob(o.scriptPubkey))| <= CAP;
      BlobBytes(o.scriptPubkey);
    }
    OutputRecordSlots(o, Key(OUT_SP_V0_INFO, []));
    OutputRecordSlots(o, Key(OUT_SP_V0_LABEL, []));
    SpSlots(o);
  }

  lemma SpSlots(o: Output)
    ensures OutputSlot(o, Key(OUT_SP_V0_INFO, [])) == OptBlob(o.fields.spV0Info)
    ensures OutputSlot(o, Key(OUT_SP_V0_LABEL, [])) == OptNum(o.fields.spV0Label)
  {
  }

  lemma BlobBytes(b: bytes)
    ensures Enc(BytesCodec, Blob(b)) == b
  {
  }

  /* ----- version-2 outputs in version-0 maps ----- */

  lemma RuleDemoted(k: Key, v: Value)
    requires EntryOk(OutputV2, k, v)
    requires k.keyType != OUT_AMOUNT && k.keyType != OUT_SCRIPT && k.keyType != OUT_REDEEM_SCRIPT
    ensures EntryJudged(OutputV0, k, v)
    ensures EntryOk(OutputV0, k, v) <==> k.keyType != PROPRIETARY
  {
    hide KindOk, ValueOk, Enc, KeyFits, KeyBody;
    EntryKind(OutputV2, k, v);
    if k.keyType == PROPRIETARY { assert ValueOk(BytesCodec, v); I.BytesFit(v); I.ProprietaryNonEmpty(k.data); }
  }

  /** The version-0 map of a well-formed output is accepted iff it has no proprietary pair. */
  lemma FieldsDemoted(o: Output)
    requires OutputOk(o)
    ensures UnknownsOk(o.fields, true)
    ensures forall k | k in FieldsRecord(o.fields) :: EntryJudged(OutputV0, k, FieldsRecord(o.fields)[k])
    ensures RecordOk(OutputV0, FieldsRecord(o.fields)) <==> o.fields.proprietaries == map[]
  {
    var f, r := o.fields, FieldsRecord(o.fields);
    hide FieldsSlot, FieldsRecord, OutputRecord, EntryOk, EntryJudged, Named;
    UnknownsDemoted(f);
    forall k: Key
      ensures k in r <==> FieldsSlot(f, k, true).Some?
      ensures k in r ==> EntryJudged(OutputV0, k, r[k])
      ensures k in r ==> (EntryOk(OutputV0, k, r[k]) <==> k.keyType != PROPRIETARY)
    {
      FieldsRecordSlots(f, k);
      if k in r {
        FieldsKeys(f, k);
        OutputRecordSlots(o, k);
        assert EntryOk(OutputV2, k, r[k]);
        RuleDemoted(k, r[k]);
      }
    }
    ProprietarySlots(f);
  }

  lemma UnknownsDemoted(f: OutputFields)
    requires UnknownsOk(f, false)
    ensures UnknownsOk(f, true)
  {
  }

  lemma ProprietarySlots(f: OutputFields)
    ensures f.proprietaries == map[] <==> forall k: Key | k.keyType == PROPRIETARY :: FieldsSlot(f, k, true).None?
  {
    if d :| d in f.proprietaries { assert FieldsSlot(f, Key(PROPRIETARY, d), true).Some?; }
  }

  lemma FieldsKeys(f: OutputFields, k: Key)
    requires FieldsSlot(f, k, true).Some? && UnknownsOk(f, false)
    ensures k.keyType != OUT_AMOUNT && k.keyType != OUT_SCRIPT && k.keyType != OUT_REDEEM_SCRIPT
    ensures FieldsSlot(f, k, true) == FieldsSlot(f, k, false)
  {
  }
}
