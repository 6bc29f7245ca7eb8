/** When what a version-0 decoder returns is also well-formed as version 2. */
module Promotion {
  import opened Bytes
  import opened CompactSize
  import opened Bitcoin
  import opened Formats
  import opened Values
  import opened ValueCodecs
  import opened Tables
  import opened Maps
  import opened MapEncoding
  import opened Fields
  import opened Psbt
  import opened V0
  import G = Global
  import I = Input
  import O = Output

  /* ----- entries made from the unsigned transaction ----- */

  lemma NumberEntry(table: Table, t: nat, w: nat, least: nat, most: nat, n: nat)
    requires t < 0xFD && w <= 8 && least <= n <= most && n < Pow256(w)
    requires RuleOf(table, Key(t, [])) == Accept(Number(w, least, most), IgnoreData)
    ensures EntryOk(table, Key(t, []), Num(n))
  {
    NumberMeans(w, least, most, Num(n));
    hide RuleOf, KindOk;
    assert KeyBody(Key(t, [])) == [t];
    assert Enc(Number(w, least, most), Num(n)) == LE(n, w);
  }

  lemma CountEncoding(n: nat)
    ensures CountFormat().enc(Num(n)) == Size(n)
  {
    var v := Num(n);
    assert NumOf(v) == n;
    assert CountFormat().enc(v) == Count().enc(NumOf(v));
  }

  lemma CountEntry(t: nat, n: nat)
    requires (t == INPUT_COUNT || t == OUTPUT_COUNT) && n <= CAP
    ensures EntryOk(GlobalV2, Key(t, []), Num(n))
  {
    CountMeans(Num(n));
    hide KindOk;
    assert KeyBody(Key(t, [])) == [t];
    assert Enc(CountCodec, Num(n)) == CountFormat().enc(Num(n));
    CountEncoding(n);
  }

  lemma TxidEntry(txid: bytes)
    requires |txid| == 32
    ensures EntryOk(InputV2, Key(PREVIOUS_TXID, []), Blob(txid))
  {
    BlobMeans(32, AnyBytes, Blob(txid));
    hide KindOk;
    assert KeyBody(Key(PREVIOUS_TXID, [])) == [PREVIOUS_TXID];
    assert Enc(FixedBlob(32, AnyBytes), Blob(txid)) == txid;
  }

  lemma ScriptEntry(script: bytes)
    requires |script| <= CAP
    ensures EntryOk(OutputV2, Key(OUT_SCRIPT, []), Blob(script))
  {
    assert KeyBody(Key(OUT_SCRIPT, [])) == [OUT_SCRIPT];
    O.BlobBytes(script);
  }

  /* ----- inputs ----- */

  predicate PromotableInput(i: I.Input) {
    && I.UnknownsOk(i.fields, false)
    && (i.fields.nonWitnessUtxo.Some? ==> CRYPTO.txid(i.fields.nonWitnessUtxo.value) == i.previousTxid)
    && (i.fields.spEcdhShares == map[] <==> i.fields.spDleqProofs == map[])
  }

  lemma InputRulePromoted(k: Key, v: Value)
    requires EntryOk(InputV0, k, v) && (I.Named(k.keyType, true) || !I.Named(k.keyType, false))
    ensures EntryOk(InputV2, k, v)
  {
    hide ValueOk, KeyFits;
    if k.keyType == PROPRIETARY { if ReadProprietary(k.data).Some? { I.ProprietaryNonEmpty(k.data); } }
  }

  /** The slots version 2 takes from the transaction. */
  lemma TxEntries(u: UnsignedIn, f: I.InputFields, k: Key)
    requires UnsignedInOk(u) && PREVIOUS_TXID <= k.keyType <= REQUIRED_HEIGHT
    requires I.InputSlot(IntoInput(u, f), k).Some?
    ensures EntryOk(InputV2, k, I.InputSlot(IntoInput(u, f), k).value)
  {
    hide I.FieldsSlot, EntryOk;
    assert k == Key(k.keyType, []);
    Pow256Values();
    TxidEntry(u.txid);
    NumberEntry(InputV2, OUTPUT_INDEX, 4, 0, 0xFFFF_FFFF, u.vout);
    NumberEntry(InputV2, SEQUENCE, 4, 0, 0xFFFF_FFFF, u.sequence);
  }

  lemma OtherSlot(i: I.Input, k: Key)
    requires !(PREVIOUS_TXID <= k.keyType <= REQUIRED_HEIGHT)
    ensures I.InputSlot(i, k) == I.FieldsSlot(i.fields, k)
  {
    hide I.FieldsSlot;
  }

  lemma FieldEntries(u: UnsignedIn, f: I.InputFields, k: Key)
    requires I.FieldsOk(f) && I.UnknownsOk(f, false) && !(PREVIOUS_TXID <= k.keyType <= REQUIRED_HEIGHT)
    requires I.InputSlot(IntoInput(u, f), k).Some?
    ensures EntryOk(InputV2, k, I.InputSlot(IntoInput(u, f), k).value)
  {
    hide I.FieldsSlot, I.InputSlot, EntryOk, I.FieldsRecord, I.UnknownsOk, I.Named;
    OtherSlot(IntoInput(u, f), k);
    I.FieldsKeys(f, k);
    I.FieldsRecordSlots(f, k);
    assert EntryOk(InputV0, k, I.FieldsRecord(f)[k]);
    InputRulePromoted(k, I.FieldsRecord(f)[k]);
  }

  /** The checks of a version-2 input, on its fields. */
  lemma InputCompleteMeans(i: I.Input)
    requires i.fields.nonWitnessUtxo.Some? ==> CRYPTO.txid(i.fields.nonWitnessUtxo.value) == i.previousTxid
    requires i.fields.spEcdhShares == map[] <==> i.fields.spDleqProofs == map[]
    ensures Complete(InputV2, I.InputRecord(i)) == None
  {
    var r := I.InputRecord(i);
    hide I.InputRecord, I.InputSlot;
    I.InputRecordSlots(i, Key(NON_WITNESS_UTXO, []));
    I.InputRecordSlots(i, Key(PREVIOUS_TXID, []));
    I.InputRecordSlots(i, Key(OUTPUT_INDEX, []));
    I.TxSlots(i);
    IndexSlot(i);
    forall d: bytes
      ensures Key(INPUT_SP_ECDH, d) in r <==> d in i.fields.spEcdhShares
      ensures Key(INPUT_SP_DLEQ, d) in r <==> d in i.fields.spDleqProofs
    {
      I.InputRecordSlots(i, Key(INPUT_SP_ECDH, d));
      I.InputRecordSlots(i, Key(INPUT_SP_DLEQ, d));
      I.SpSlots(i, d);
    }
    TypeIsMap(r, INPUT_SP_ECDH, i.fields.spEcdhShares);
    TypeIsMap(r, INPUT_SP_DLEQ, i.fields.spDleqProofs);
  }

  lemma IndexSlot(i: I.Input)
    ensures I.InputSlot(i, Key(OUTPUT_INDEX, [])).Some?
  {
  }

  lemma TypeIsMap(r: Record, t: nat, m: map<bytes, bytes>)
    requires forall d: bytes :: Key(t, d) in r <==> d in m
    ensures HasType(r, t) <==> m != map[]
  {
    if k :| k in r && k.keyType == t { assert k == Key(t, k.data); }
    if d :| d in m { assert Key(t, d) in r; }
  }

  lemma InputPromoted(u: UnsignedIn, f: I.InputFields)
    requires UnsignedInOk(u) && I.FieldsOk(f)
    ensures I.InputOk(IntoInput(u, f)) <==> PromotableInput(IntoInput(u, f))
  {
    var i := IntoInput(u, f);
    hide I.InputRecord, I.InputSlot, EntryOk, I.FieldsOk, Complete;
    if I.InputOk(i) { I.InputChecks(i); }
    if PromotableInput(IntoInput(u, f)) {
      forall k | k in I.InputRecord(i) ensures EntryOk(InputV2, k, I.InputRecord(i)[k]) {
        I.InputRecordSlots(i, k);
        if PREVIOUS_TXID <= k.keyType <= REQUIRED_HEIGHT { TxEntries(u, f, k); } else { FieldEntries(u, f, k); }
      }
      InputCompleteMeans(i);
    }
  }

  /* ----- outputs ----- */

  predicate PromotableOutput(f: O.OutputFields) {
    O.UnknownsOk(f, false) && (f.spV0Label.Some? ==> f.spV0Info.Some?)
  }

  /** Fields as the version-0 decoder leaves them, the redeem script included. */
  predicate OutputFieldsOk(f: O.OutputFields) {
    && O.UnknownsOk(f, true)
    && forall k | k in O.OutputRecord(O.Output(0, [], f)) && k.keyType != OUT_AMOUNT && k.keyType != OUT_SCRIPT ::
      EntryOk(OutputV0, k, O.OutputRecord(O.Output(0, [], f))[k])
  }

  lemma OutputRulePromoted(k: Key, v: Value)
    requires EntryOk(OutputV0, k, v) && k.keyType != OUT_AMOUNT && k.keyType != OUT_SCRIPT
    ensures EntryOk(OutputV2, k, v)
  {
    hide ValueOk, KeyFits;
    if k.keyType == PROPRIETARY { if ReadProprietary(k.data).Some? { I.ProprietaryNonEmpty(k.data); } }
  }

  lemma BuiltOutputFields(r: Record)
    requires RecordOk(OutputV0, r)
    ensures OutputFieldsOk(O.BuildFields(r, true))
  {
    var f := O.BuildFields(r, true);
    var o := O.Output(0, [], f);
    hide O.OutputRecord, O.BuildFields, EntryOk;
    O.BuiltUnknowns(r, true);
    forall k | k in O.OutputRecord(o) && k.keyType != OUT_AMOUNT && k.keyType != OUT_SCRIPT
      ensures EntryOk(OutputV0, k, O.OutputRecord(o)[k])
    {
      O.OutputRecordSlots(o, k);
      OutputSlotRead(r, k);
      assert EntryOk(OutputV0, k, r[k]);
    }
  }

  lemma OutputKindsV0(k: Key, v: Value)
    requires EntryOk(OutputV0, k, v) && k.keyType != OUT_AMOUNT && k.keyType != OUT_SCRIPT
    ensures O.KindFor(k, v)
  {
    hide EntryOk, O.KindFor;
    OutputRulePromoted(k, v);
    O.OutputKinds(k, v);
  }

  lemma OutputSlotRead(r: Record, k: Key)
    requires RecordOk(OutputV0, r) && k.keyType != OUT_AMOUNT && k.keyType != OUT_SCRIPT
    ensures O.FieldsSlot(O.BuildFields(r, true), k, false) == At(r, k)
  {
    hide EntryOk, O.KindFor;
    forall k | k in r && k.keyType != OUT_AMOUNT && k.keyType != OUT_SCRIPT ensures O.KindFor(k, r[k]) {
      assert EntryOk(OutputV0, k, r[k]);
      OutputKindsV0(k, r[k]);
    }
    OutputSlotOfKinds(r, k);
  }

  lemma OutputSlotOfKinds(r: Record, k: Key)
    requires forall k | k in r && k.keyType != OUT_AMOUNT && k.keyType != OUT_SCRIPT :: O.KindFor(k, r[k])
    requires k.keyType != OUT_AMOUNT && k.keyType != OUT_SCRIPT
    ensures O.FieldsSlot(O.BuildFields(r, true), k, false) == At(r, k)
  {
    assert k == Key(k.keyType, k.data);
  }

  lemma AmountEntries(t: TxOut, f: O.OutputFields, k: Key)
    requires TxOutOk(t) && (k.keyType == OUT_AMOUNT || k.keyType == OUT_SCRIPT)
    requires O.OutputSlot(IntoOutput(t, f), k).Some?
    ensures EntryOk(OutputV2, k, O.OutputSlot(IntoOutput(t, f), k).value)
  {
    hide O.FieldsSlot, EntryOk;
    assert k == Key(k.keyType, []);
    Pow256Values();
    NumberEntry(OutputV2, OUT_AMOUNT, 8, 0, U64 - 1, t.value);
    ScriptEntry(t.scriptPubkey);
  }

  lemma OutputFieldEntries(t: TxOut, f: O.OutputFields, k: Key)
    requires OutputFieldsOk(f) && O.UnknownsOk(f, false) && k.keyType != OUT_AMOUNT && k.keyType != OUT_SCRIPT
    requires O.OutputSlot(IntoOutput(t, f), k).Some?
    ensures EntryOk(OutputV2, k, O.OutputSlot(IntoOutput(t, f), k).value)
  {
    var o := O.Output(0, [], f);
    assert O.OutputSlot(IntoOutput(t, f), k) == O.OutputSlot(o, k);
    hide O.FieldsSlot, O.OutputSlot, EntryOk, O.OutputRecord;
    O.OutputRecordSlots(o, k);
    assert EntryOk(OutputV0, k, O.OutputRecord(o)[k]);
    OutputRulePromoted(k, O.OutputRecord(o)[k]);
  }

  lemma OutputPromoted(t: TxOut, f: O.OutputFields)
    requires TxOutOk(t) && OutputFieldsOk(f)
    ensures O.OutputOk(IntoOutput(t, f)) <==> PromotableOutput(f)
  {
    var o := IntoOutput(t, f);
    hide O.OutputRecord, O.OutputSlot, EntryOk, OutputFieldsOk, Complete;
    if O.OutputOk(o) { O.OutputWidths(o); }
    if PromotableOutput(f) {
      forall k | k in O.OutputRecord(o) ensures EntryOk(OutputV2, k, O.OutputRecord(o)[k]) {
        O.OutputRecordSlots(o, k);
        if k.keyType == OUT_AMOUNT || k.keyType == OUT_SCRIPT {
          AmountEntries(t, f, k);
        } else {
          OutputFieldEntries(t, f, k);
        }
      }
      OutputCompleteMeans(o);
    }
  }

  lemma OutputCompleteMeans(o: O.Output)
    requires o.fields.spV0Label.Some? ==> o.fields.spV0Info.Some?
    ensures Complete(OutputV2, O.OutputRecord(o)) == None
  {
    hide O.OutputRecord;
    O.OutputRecordSlots(o, Key(OUT_AMOUNT, []));
    O.OutputRecordSlots(o, Key(OUT_SCRIPT, []));
    O.OutputRecordSlots(o, Key(OUT_SP_V0_INFO, []));
    O.OutputRecordSlots(o, Key(OUT_SP_V0_LABEL, []));
  }

  /* ----- the global map ----- */

  predicate GlobalFieldsOk(f: G.GlobalFields) {
    && G.UnknownsOk(f, true)
    && (forall k | k in G.GlobalRecordV0(NO_TX, f) && k.keyType != UNSIGNED_TX ::
          EntryOk(GlobalV0, k, G.GlobalRecordV0(NO_TX, f)[k]))
    && (f.spEcdhShares == map[] <==> f.spDleqProofs == map[])
  }

  const NO_TX: UnsignedTx := UnsignedTx(0, [], [], 0)

  lemma GlobalRulePromoted(k: Key, v: Value)
    requires EntryOk(GlobalV0, k, v)
    requires k.keyType != VERSION && k.keyType != UNSIGNED_TX && !(TX_VERSION <= k.keyType <= TX_MODIFIABLE)
    ensures EntryOk(GlobalV2, k, v)
  {
    hide ValueOk, KeyFits;
  }

  predicate GlobalFieldKey(k: Key) { k.keyType != VERSION && k.keyType != UNSIGNED_TX }

  lemma GlobalSlotRead(r: Record, k: Key)
    requires RecordOk(GlobalV0, r) && GlobalFieldKey(k)
    ensures G.FieldsSlot(G.BuildFields(r, true), k) == At(r, k)
  {
    hide EntryOk;
    forall k | k in r && GlobalFieldKey(k) ensures if k.keyType == XPUB then r[k].Source? else r[k].Blob? {
      assert EntryOk(GlobalV0, k, r[k]);
      EntryKind(GlobalV0, k, r[k]);
    }
    GlobalSlotOfKinds(r, k);
  }

  lemma GlobalSlotOfKinds(r: Record, k: Key)
    requires forall k | k in r && GlobalFieldKey(k) :: if k.keyType == XPUB then r[k].Source? else r[k].Blob?
    requires GlobalFieldKey(k)
    ensures G.FieldsSlot(G.BuildFields(r, true), k) == At(r, k)
  {
    assert k in r ==> if k.keyType == XPUB then r[k].Source? else r[k].Blob?;
    hide Look, Many;
    if k.keyType == XPUB {
      LookMany(r, k, KeySourceOf, MakeSource);
    } else if G.Named(k.keyType, true) {
      LookMany(r, k, BlobOf, MakeBlob);
    }
  }

  lemma BuiltGlobalFields(r: Record)
    requires RecordOk(GlobalV0, r) && Complete(GlobalV0, r) == None
    ensures GlobalFieldsOk(G.BuildFields(r, true))
  {
    var f := G.BuildFields(r, true);
    hide EntryOk, G.GlobalRecordV0, G.FieldsSlot, G.BuildFields, Complete;
    G.BuiltUnknowns(r, true);
    forall k | k in G.GlobalRecordV0(NO_TX, f) && k.keyType != UNSIGNED_TX
      ensures EntryOk(GlobalV0, k, G.GlobalRecordV0(NO_TX, f)[k])
    {
      G.GlobalRecordV0Slots(NO_TX, f, k);
      if k.keyType == VERSION { VersionSlot(f, k); }
      GlobalSlotRead(r, k);
      assert EntryOk(GlobalV0, k, r[k]);
    }
    BuiltSp(r);
  }

  lemma BuiltSp(r: Record)
    requires Complete(GlobalV0, r) == None
    ensures G.BuildFields(r, true).spEcdhShares == map[] <==> G.BuildFields(r, true).spDleqProofs == map[]
  {
    var f := G.BuildFields(r, true);
    hide HasType;
    TypeIsMap(r, GLOBAL_SP_ECDH, f.spEcdhShares);
    TypeIsMap(r, GLOBAL_SP_DLEQ, f.spDleqProofs);
  }

  lemma VersionSlot(f: G.GlobalFields, k: Key)
    requires G.UnknownsOk(f, true) && k.keyType == VERSION
    ensures G.FieldsSlot(f, k).None?
  {
  }

  lemma GlobalTxEntries(info: GlobalInfo, k: Key)
    requires UnsignedTxOk(info.utx) && (k.keyType == VERSION || TX_VERSION <= k.keyType <= TX_MODIFIABLE)
    requires G.GlobalSlot(IntoGlobal(info), k).Some?
    ensures EntryOk(GlobalV2, k, G.GlobalSlot(IntoGlobal(info), k).value)
  {
    hide G.FieldsSlot, EntryOk;
    assert k == Key(k.keyType, []);
    Pow256Values();
    VersionEntry();
    NumberEntry(GlobalV2, TX_VERSION, 4, 0, 0xFFFF_FFFF, info.utx.version);
    NumberEntry(GlobalV2, FALLBACK_LOCKTIME, 4, 0, 0xFFFF_FFFF, info.utx.lockTime);
    CountEntry(INPUT_COUNT, |info.utx.inputs|);
    CountEntry(OUTPUT_COUNT, |info.utx.outputs|);
    G.FlagsEntryOk();
  }

  lemma VersionEntry()
    ensures EntryOk(GlobalV2, Key(VERSION, []), Num(2))
  {
    NumberMeans(4, 2, 2, Num(2));
    Pow256Values();
    hide KindOk;
    assert KeyBody(Key(VERSION, [])) == [VERSION];
    assert Enc(Number(4, 2, 2), Num(2)) == LE(2, 4);
  }

  lemma GlobalFieldEntries(info: GlobalInfo, k: Key)
    requires GlobalFieldsOk(info.fields) && G.UnknownsOk(info.fields, false)
    requires k.keyType != VERSION && !(TX_VERSION <= k.keyType <= TX_MODIFIABLE)
    requires G.GlobalSlot(IntoGlobal(info), k).Some?
    ensures EntryOk(GlobalV2, k, G.GlobalSlot(IntoGlobal(info), k).value)
  {
    hide G.FieldsSlot, G.GlobalSlot, EntryOk, G.GlobalRecordV0;
    GlobalSlots(info, k);
    G.FieldsKeys(IntoGlobal(info), k);
    G.GlobalRecordV0Slots(NO_TX, info.fields, k);
    assert EntryOk(GlobalV0, k, G.GlobalRecordV0(NO_TX, info.fields)[k]);
    GlobalRulePromoted(k, G.GlobalRecordV0(NO_TX, info.fields)[k]);
  }

  lemma GlobalSlots(info: GlobalInfo, k: Key)
    requires k.keyType != VERSION && !(TX_VERSION <= k.keyType <= TX_MODIFIABLE)
    ensures G.GlobalSlot(IntoGlobal(info), k) == G.FieldsSlot(info.fields, k)
  {
    hide G.FieldsSlot;
  }

  lemma GlobalPromoted(info: GlobalInfo)
    requires UnsignedTxOk(info.utx) && GlobalFieldsOk(info.fields)
    ensures G.GlobalOk(IntoGlobal(info)) <==> G.UnknownsOk(info.fields, false)
  {
    var g := IntoGlobal(info);
    hide G.GlobalRecord, G.GlobalSlot, EntryOk, Complete, UnsignedTxOk, G.UnknownsOk, GlobalFieldsOk;
    if G.UnknownsOk(info.fields, false) {
      forall k | k in G.GlobalRecord(g) ensures EntryOk(GlobalV2, k, G.GlobalRecord(g)[k]) {
        G.GlobalRecordSlots(g, k);
        if k.keyType == VERSION || TX_VERSION <= k.keyType <= TX_MODIFIABLE { GlobalTxEntries(info, k); }
        else { GlobalFieldEntries(info, k); }
      }
      GlobalCompleteMeans(g, info.fields);
    }
  }

  lemma GlobalCompleteMeans(g: G.Global, f: G.GlobalFields)
    requires g.fields == f && GlobalFieldsOk(f)
    ensures Complete(GlobalV2, G.GlobalRecord(g)) == None
  {
    var r := G.GlobalRecord(g);
    hide G.GlobalRecord, G.FieldsSlot, GlobalFieldsOk, EntryOk;
    SpPaired(f);
    RequiredSlots(g);
    forall d: bytes
      ensures Key(GLOBAL_SP_ECDH, d) in r <==> d in f.spEcdhShares
      ensures Key(GLOBAL_SP_DLEQ, d) in r <==> d in f.spDleqProofs
    {
      G.GlobalRecordSlots(g, Key(GLOBAL_SP_ECDH, d));
      G.GlobalRecordSlots(g, Key(GLOBAL_SP_DLEQ, d));
      GlobalSpSlots(f, d);
    }
    TypeIsMap(r, GLOBAL_SP_ECDH, f.spEcdhShares);
    TypeIsMap(r, GLOBAL_SP_DLEQ, f.spDleqProofs);
  }

  lemma SpPaired(f: G.GlobalFields)
    requires GlobalFieldsOk(f)
    ensures f.spEcdhShares == map[] <==> f.spDleqProofs == map[]
  {
  }

  lemma RequiredSlots(g: G.Global)
    ensures var r := G.GlobalRecord(g); Has(r, VERSION) && Has(r, TX_VERSION) && Has(r, INPUT_COUNT) && Has(r, OUTPUT_COUNT)
  {
    hide G.GlobalRecord, G.FieldsSlot;
    G.GlobalRecordSlots(g, Key(VERSION, []));
    G.GlobalRecordSlots(g, Key(TX_VERSION, []));
    G.GlobalRecordSlots(g, Key(INPUT_COUNT, []));
    G.GlobalRecordSlots(g, Key(OUTPUT_COUNT, []));
  }

  lemma GlobalSpSlots(f: G.GlobalFields, d: bytes)
    ensures G.FieldsSlot(f, Key(GLOBAL_SP_ECDH, d)) == Look(d, f.spEcdhShares, MakeBlob)
    ensures G.FieldsSlot(f, Key(GLOBAL_SP_DLEQ, d)) == Look(d, f.spDleqProofs, MakeBlob)
  {
  }

  /* ----- the whole ----- */

  /** What version 2 asks beyond version 0, all of it checkable on the decoded PSBT. */
  predicate Promotable(p: Psbt) {
    G.UnknownsOk(p.global.fields, false) && PromotableInputs(p.inputs) && PromotableOutputs(p.outputs)
  }

  predicate PromotableInputs(ins: seq<I.Input>) { forall k | 0 <= k < |ins| :: PromotableInput(ins[k]) }

  predicate PromotableOutputs(outs: seq<O.Output>) { forall k | 0 <= k < |outs| :: PromotableOutput(outs[k].fields) }

  ghost function GlobalV0Format(): Format<GlobalInfo> {
    Format(ParseGlobalV0, (g: GlobalInfo) => [], (g: GlobalInfo) => UnsignedTxOk(g.utx) && GlobalFieldsOk(g.fields))
  }
  ghost function InputV0Format(): Format<I.InputFields> { Format(ParseInputV0, (f: I.InputFields) => [], I.FieldsOk) }
  ghost function OutputV0Format(): Format<O.OutputFields> {
    Format(ParseOutputV0, (f: O.OutputFields) => [], OutputFieldsOk)
  }

  lemma MapsReadV0(b: bytes)
    ensures ParseGlobalV0(b).Ready? ==> GlobalV0Format().ok(ParseGlobalV0(b).value)
    ensures ParseInputV0(b).Ready? ==> I.FieldsOk(ParseInputV0(b).value)
    ensures ParseOutputV0(b).Ready? ==> OutputFieldsOk(ParseOutputV0(b).value)
  {
    hide ParseMap, RecordOk, Complete, I.FieldsOk, OutputFieldsOk, GlobalFieldsOk, UnsignedTxOk, G.BuildFields,
         I.BuildFields, O.BuildFields;
    if ParseGlobalV0(b).Ready? {
      MapNormal(GlobalV0, b);
      BuiltGlobalFields(ParseMap(GlobalV0, map[], b).value);
      UnsignedIsOk(ParseMap(GlobalV0, map[], b).value);
    }
    if ParseInputV0(b).Ready? {
      MapNormal(InputV0, b);
      I.FieldsForth(ParseMap(InputV0, map[], b).value);
    }
    if ParseOutputV0(b).Ready? {
      MapNormal(OutputV0, b);
      BuiltOutputFields(ParseMap(OutputV0, map[], b).value);
    }
  }

  lemma UnsignedIsOk(r: Record)
    requires RecordOk(GlobalV0, r) && Complete(GlobalV0, r) == None
    ensures UnsignedTxOk(G.UnsignedTxOf(r))
  {
    var k := Key(UNSIGNED_TX, []);
    hide UnsignedTxOk, EntryOk, HasType;
    assert EntryOk(GlobalV0, k, r[k]);
    UnsignedEntryMeans(r[k]);
  }

  lemma UnsignedEntryMeans(v: Value)
    requires EntryOk(GlobalV0, Key(UNSIGNED_TX, []), v)
    ensures v.Unsigned? && UnsignedTxOk(v.utx)
  {
    assert RuleOf(GlobalV0, Key(UNSIGNED_TX, [])) == Accept(UnsignedTxCodec, EmptyData);
    hide RuleOf, UnsignedTxOk, KeyFits, Enc;
    assert KindOk(UnsignedTxCodec, v) == UnsignedTxValueFormat().ok(v);
  }

  lemma AssembledParts(info: GlobalInfo, ins: seq<I.InputFields>, outs: seq<O.OutputFields>)
    requires |ins| == |info.utx.inputs| && |outs| == |info.utx.outputs| && UnsignedTxOk(info.utx)
    ensures var q := Assemble(info, ins, outs);
      && q.global == IntoGlobal(info) && q.global.fields == info.fields
      && q.global.inputCount == |q.inputs| == |ins| && q.global.outputCount == |q.outputs| == |outs|
      && (forall k | 0 <= k < |ins| :: q.inputs[k] == IntoInput(info.utx.inputs[k], ins[k]) && UnsignedInOk(info.utx.inputs[k]))
      && (forall k | 0 <= k < |outs| ::
            q.outputs[k] == IntoOutput(info.utx.outputs[k], outs[k]) && q.outputs[k].fields == outs[k]
            && TxOutOk(info.utx.outputs[k]))
  {
  }

  lemma OkParts(p: Psbt)
    requires p.global.inputCount == |p.inputs| && p.global.outputCount == |p.outputs|
    ensures PsbtOk(p) <==> G.GlobalOk(p.global) && AllOk(I.InputOk, p.inputs) && AllOk(O.OutputOk, p.outputs)
  {
    hide G.GlobalOk, I.InputOk, O.OutputOk, AllOk;
  }

  lemma PromotableParts(p: Psbt)
    ensures Promotable(p) <==>
      G.UnknownsOk(p.global.fields, false) && PromotableInputs(p.inputs) && PromotableOutputs(p.outputs)
  {
    hide G.UnknownsOk, PromotableInputs, PromotableOutputs;
  }

  lemma AssembledOk(info: GlobalInfo, ins: seq<I.InputFields>, outs: seq<O.OutputFields>)
    requires |ins| == |info.utx.inputs| && |outs| == |info.utx.outputs|
    requires UnsignedTxOk(info.utx) && GlobalFieldsOk(info.fields)
    requires AllOk(I.FieldsOk, ins) && AllOk(OutputFieldsOk, outs)
    ensures PsbtOk(Assemble(info, ins, outs)) <==> Promotable(Assemble(info, ins, outs))
  {
    var q := Assemble(info, ins, outs);
    AssembledParts(info, ins, outs);
    hide *;
    OkParts(q);
    PromotableParts(q);
    GlobalPromoted(info);
    AllInputsPromoted(q.inputs, info.utx.inputs, ins);
    AllOutputsPromoted(q.outputs, info.utx.outputs, outs);
  }

  lemma AllInputsPromoted(built: seq<I.Input>, us: seq<UnsignedIn>, fs: seq<I.InputFields>)
    requires |built| == |us| == |fs| && AllOk(I.FieldsOk, fs)
    requires forall k | 0 <= k < |us| :: built[k] == IntoInput(us[k], fs[k]) && UnsignedInOk(us[k])
    ensures AllOk(I.InputOk, built) <==> PromotableInputs(built)
  {
    hide I.FieldsOk, I.InputOk, PromotableInput, IntoInput, UnsignedInOk;
    forall k | 0 <= k < |us| ensures I.InputOk(built[k]) <==> PromotableInput(built[k]) { InputPromoted(us[k], fs[k]); }
  }

  lemma AllOutputsPromoted(built: seq<O.Output>, ts: seq<TxOut>, fs: seq<O.OutputFields>)
    requires |built| == |ts| == |fs| && AllOk(OutputFieldsOk, fs)
    requires forall k | 0 <= k < |ts| :: built[k] == IntoOutput(ts[k], fs[k]) && built[k].fields == fs[k] && TxOutOk(ts[k])
    ensures AllOk(O.OutputOk, built) <==> PromotableOutputs(built)
  {
    hide OutputFieldsOk, O.OutputOk, PromotableOutput, IntoOutput, TxOutOk;
    forall k | 0 <= k < |ts| ensures O.OutputOk(built[k]) <==> PromotableOutput(built[k].fields) {
      OutputPromoted(ts[k], fs[k]);
    }
  }

  /**
   * What version 0 decodes is well-formed as version 2 exactly when no unknown pair is of a type that
   * version 2 names, spent transactions are the ones named, and silent payment fields are paired.
   */
  lemma PromotedIff(b: bytes)
    requires ParseV0(b).Ready?
    ensures PsbtOk(ParseV0(b).value) <==> Promotable(ParseV0(b).value)
  {
    hide ParseGlobalV0, ParseInputV0, ParseOutputV0, Assemble, I.FieldsOk, OutputFieldsOk, GlobalFieldsOk, UnsignedTxOk,
         PsbtOk, Promotable;
    var info := ParseGlobalV0(b[5..]).value;
    var b2 := b[5..][ParseGlobalV0(b[5..]).used..];
    var ins := ParseMany(ParseInputV0, |info.utx.inputs|, b2).value;
    var b3 := b2[ParseMany(ParseInputV0, |info.utx.inputs|, b2).used..];
    var outs := ParseMany(ParseOutputV0, |info.utx.outputs|, b3).value;
    MapsReadV0(b[5..]);
    forall c ensures ParseInputV0(c).Ready? ==> I.FieldsOk(ParseInputV0(c).value) { MapsReadV0(c); }
    ManyNormal(InputV0Format(), |info.utx.inputs|, b2);
    forall c ensures ParseOutputV0(c).Ready? ==> OutputFieldsOk(ParseOutputV0(c).value) { MapsReadV0(c); }
    ManyNormal(OutputV0Format(), |info.utx.outputs|, b3);
    AssembledOk(info, ins, outs);
  }

  /** Version 0 takes a pair of a type only version 2 names, so decoding alone does not promote. */
  lemma DecodedIsNotPromoted()
    ensures exists b :: ParseInputV0(b).Ready? && !I.UnknownsOk(ParseInputV0(b).value, false)
  {
    var k := Key(PREVIOUS_TXID, []);
    var r: Record := map[k := Blob([])];
    hide EncodeMap, ParseMap, I.BuildFields, EntryOk, I.UnknownsOf;
    UnknownEntry();
    MapRoundTrip(InputV0, r, []);
    var b := EncodeMap(InputV0, r) + [];
    assert ParseInputV0(b) == Ready(I.BuildFields(r, true), |EncodeMap(InputV0, r)|);
    BuiltWithUnknowns(r);
    UnknownIsNamed(r);
  }

  lemma UnknownEntry()
    ensures EntryOk(InputV0, Key(PREVIOUS_TXID, []), Blob([]))
  {
    assert RuleOf(InputV0, Key(PREVIOUS_TXID, [])) == Accept(BytesCodec, RawData);
    assert KeyBody(Key(PREVIOUS_TXID, [])) == [PREVIOUS_TXID];
    hide RuleOf;
    O.BlobBytes([]);
  }

  lemma UnknownIsNamed(r: Record)
    requires Key(PREVIOUS_TXID, []) in r
    ensures Key(PREVIOUS_TXID, []) in I.UnknownsOf(r, true) && I.Named(PREVIOUS_TXID, false)
  {
  }

  lemma BuiltWithUnknowns(r: Record)
    ensures I.BuildFields(r, true).unknowns == I.UnknownsOf(r, true)
  {
  }
}
