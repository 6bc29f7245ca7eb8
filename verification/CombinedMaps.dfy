/** Combining well-formed PSBTs makes a well-formed PSBT, which its own bytes give back. */
module CombinedMaps {
  import opened Bytes
  import opened Tables
  import opened Maps
  import opened MapEncoding
  import opened Psbt
  import opened Combiner
  import G = Global
  import I = Input
  import O = Output

  /** No map key is of this type. */
  const NO_TYPE: nat := 0x1_0000_0000_0000_0000

  /** Every entry of a record stands in one of two others. */
  predicate FromEither(r: Record, a: Record, b: Record) {
    forall k | k in r :: (k in a && r[k] == a[k]) || (k in b && r[k] == b[k])
  }

  /** A key is in the record exactly if it is in one of the two, but for keys of one type. */
  ghost predicate Joined(r: Record, a: Record, b: Record, but: nat) {
    forall k: Key | k.keyType != but :: k in r <==> k in a || k in b
  }

  /** One key's part in both. */
  predicate JoinedAt(r: Record, a: Record, b: Record, but: nat, k: Key) {
    && (k.keyType != but ==> (k in r <==> k in a || k in b))
    && (k in r ==> (k in a && r[k] == a[k]) || (k in b && r[k] == b[k]))
  }

  lemma JoinedEverywhere(r: Record, a: Record, b: Record, but: nat)
    requires forall k: Key :: JoinedAt(r, a, b, but, k)
    ensures Joined(r, a, b, but) && FromEither(r, a, b)
  {
    forall k | k in r ensures (k in a && r[k] == a[k]) || (k in b && r[k] == b[k]) { assert JoinedAt(r, a, b, but, k); }
    forall k: Key | k.keyType != but ensures k in r <==> k in a || k in b { assert JoinedAt(r, a, b, but, k); }
  }

  lemma EitherOk(table: Table, r: Record, a: Record, b: Record)
    requires FromEither(r, a, b) && RecordOk(table, a) && RecordOk(table, b)
    ensures RecordOk(table, r)
  {
    hide EntryOk;
  }

  lemma JoinedType(r: Record, a: Record, b: Record, but: nat, t: nat)
    requires Joined(r, a, b, but) && t != but
    ensures HasType(r, t) <==> HasType(a, t) || HasType(b, t)
    ensures Has(r, t) <==> Has(a, t) || Has(b, t)
  {
    assert Key(t, []).keyType == t;
    if HasType(a, t) { var k :| k in a && k.keyType == t; assert k in r; }
    if HasType(b, t) { var k :| k in b && k.keyType == t; assert k in r; }
  }

  /* ----- inputs ----- */

  /** A key of the combined input, with its value, comes from one of the two. */
  lemma InputEntry(a: I.Input, b: I.Input, k: Key)
    requires InputsMatch(a, b)
    ensures JoinedAt(I.InputRecord(MergeInput(a, b)), I.InputRecord(a), I.InputRecord(b), NO_TYPE, k)
  {
    hide I.InputRecord, I.InputSlot, MergeInput;
    KeysAreUnited(a, b, k);
    I.InputRecordSlots(MergeInput(a, b), k);
    I.InputRecordSlots(a, k);
    I.InputRecordSlots(b, k);
  }

  lemma SameTxid(a: I.Input, b: I.Input)
    requires I.InputOk(a) && I.InputOk(b) && InputsMatch(a, b)
    ensures Key(PREVIOUS_TXID, []) in I.InputRecord(a) && Key(PREVIOUS_TXID, []) in I.InputRecord(b)
    ensures I.InputRecord(a)[Key(PREVIOUS_TXID, [])] == I.InputRecord(b)[Key(PREVIOUS_TXID, [])]
  {
    hide I.InputRecord, I.InputSlot, RecordOk, I.UnknownsOk, HasType;
    I.TxSlots(a);
    I.TxSlots(b);
    I.InputRecordSlots(a, Key(PREVIOUS_TXID, []));
    I.InputRecordSlots(b, Key(PREVIOUS_TXID, []));
  }

  lemma CombinedInput(a: I.Input, b: I.Input)
    requires I.InputOk(a) && I.InputOk(b) && InputsMatch(a, b)
    ensures I.InputOk(MergeInput(a, b))
  {
    var r, ra, rb := I.InputRecord(MergeInput(a, b)), I.InputRecord(a), I.InputRecord(b);
    InputUnknowns(a, b);
    SameTxid(a, b);
    hide I.InputRecord, MergeInput, I.UnknownsOk, RecordOk, Complete, InputsMatch, Joined, JoinedAt, FromEither;
    forall k: Key ensures JoinedAt(r, ra, rb, NO_TYPE, k) { InputEntry(a, b, k); }
    JoinedEverywhere(r, ra, rb, NO_TYPE);
    EitherOk(InputV2, r, ra, rb);
    InputComplete(r, ra, rb);
  }

  lemma InputUnknowns(a: I.Input, b: I.Input)
    requires I.UnknownsOk(a.fields, false) && I.UnknownsOk(b.fields, false)
    ensures I.UnknownsOk(MergeInput(a, b).fields, false)
  {
    assert MergeInput(a, b).fields.unknowns == a.fields.unknowns + b.fields.unknowns;
  }

  lemma InputComplete(r: Record, a: Record, b: Record)
    requires FromEither(r, a, b) && Joined(r, a, b, NO_TYPE)
    requires Complete(InputV2, a) == None && Complete(InputV2, b) == None
    requires Key(PREVIOUS_TXID, []) in a && Key(PREVIOUS_TXID, []) in b
    requires a[Key(PREVIOUS_TXID, [])] == b[Key(PREVIOUS_TXID, [])]
    ensures Complete(InputV2, r) == None
  {
    JoinedType(r, a, b, NO_TYPE, INPUT_SP_ECDH);
    JoinedType(r, a, b, NO_TYPE, INPUT_SP_DLEQ);
    JoinedType(r, a, b, NO_TYPE, PREVIOUS_TXID);
    JoinedType(r, a, b, NO_TYPE, OUTPUT_INDEX);
    hide HasType;
    var txid, utxo := Key(PREVIOUS_TXID, []), Key(NON_WITNESS_UTXO, []);
    assert txid in r && r[txid] == a[txid];
    if utxo in r { assert (utxo in a && r[utxo] == a[utxo]) || (utxo in b && r[utxo] == b[utxo]); }
  }

  /* ----- outputs ----- */

  lemma OutputEntry(a: O.Output, b: O.Output, k: Key)
    requires OutputsMatch(a, b)
    ensures JoinedAt(O.OutputRecord(MergeOutput(a, b)), O.OutputRecord(a), O.OutputRecord(b), OUT_SCRIPT, k)
  {
    hide O.OutputRecord, O.OutputSlot, MergeOutput;
    OutputSlotFrom(a, b, k);
    O.OutputRecordSlots(MergeOutput(a, b), k);
    O.OutputRecordSlots(a, k);
    O.OutputRecordSlots(b, k);
  }

  lemma CombinedOutput(a: O.Output, b: O.Output)
    requires O.OutputOk(a) && O.OutputOk(b) && OutputsMatch(a, b)
    ensures O.OutputOk(MergeOutput(a, b))
  {
    var r, ra, rb := O.OutputRecord(MergeOutput(a, b)), O.OutputRecord(a), O.OutputRecord(b);
    OutputUnknowns(a, b);
    ScriptOrInfo(MergeOutput(a, b));
    hide O.OutputRecord, MergeOutput, O.UnknownsOk, RecordOk, Complete, Joined, JoinedAt, FromEither, OutputsMatch;
    forall k: Key ensures JoinedAt(r, ra, rb, OUT_SCRIPT, k) { OutputEntry(a, b, k); }
    JoinedEverywhere(r, ra, rb, OUT_SCRIPT);
    EitherOk(OutputV2, r, ra, rb);
    OutputComplete(r, ra, rb);
  }

  lemma OutputUnknowns(a: O.Output, b: O.Output)
    requires O.UnknownsOk(a.fields, false) && O.UnknownsOk(b.fields, false)
    ensures O.UnknownsOk(MergeOutput(a, b).fields, false)
  {
    assert MergeOutput(a, b).fields.unknowns == a.fields.unknowns + b.fields.unknowns;
  }

  /** An empty script may be left out of the result though one of the two wrote it, never the other way round. */
  lemma OutputSlotFrom(a: O.Output, b: O.Output, k: Key)
    requires OutputsMatch(a, b)
    ensures k.keyType != OUT_SCRIPT ==>
      United(O.OutputSlot(MergeOutput(a, b), k), O.OutputSlot(a, k), O.OutputSlot(b, k))
    ensures k.keyType == OUT_SCRIPT ==>
      O.OutputSlot(MergeOutput(a, b), k).None? || O.OutputSlot(MergeOutput(a, b), k) == O.OutputSlot(a, k)
  {
    hide O.FieldsSlot;
    OutputKeysAreUnited(a.fields, b.fields, k);
    assert MergeOutput(a, b).fields == MergeOutputFields(a.fields, b.fields);
  }

  lemma ScriptOrInfo(o: O.Output)
    ensures Has(O.OutputRecord(o), OUT_SCRIPT) || Has(O.OutputRecord(o), OUT_SP_V0_INFO)
  {
    hide O.OutputRecord;
    O.OutputRecordSlots(o, Key(OUT_SCRIPT, []));
    O.OutputRecordSlots(o, Key(OUT_SP_V0_INFO, []));
  }

  lemma OutputComplete(r: Record, a: Record, b: Record)
    requires Joined(r, a, b, OUT_SCRIPT)
    requires Complete(OutputV2, a) == None && Complete(OutputV2, b) == None
    requires Has(r, OUT_SCRIPT) || Has(r, OUT_SP_V0_INFO)
    ensures Complete(OutputV2, r) == None
  {
  }

  /* ----- the global map ----- */

  lemma GlobalEntry(a: G.Global, b: G.Global, k: Key)
    ensures JoinedAt(G.GlobalRecord(MergeGlobal(a, b)), G.GlobalRecord(a), G.GlobalRecord(b), FALLBACK_LOCKTIME, k)
  {
    hide G.GlobalRecord, G.GlobalSlot, MergeGlobal;
    if k.keyType == FALLBACK_LOCKTIME { FallbackKept(a, b, k); } else { GlobalKeysAreUnited(a, b, k); }
    G.GlobalRecordSlots(MergeGlobal(a, b), k);
    G.GlobalRecordSlots(a, k);
    G.GlobalRecordSlots(b, k);
  }

  lemma CombinedGlobal(a: G.Global, b: G.Global)
    requires G.GlobalOk(a) && G.GlobalOk(b)
    ensures G.GlobalOk(MergeGlobal(a, b))
  {
    var r, ra, rb := G.GlobalRecord(MergeGlobal(a, b)), G.GlobalRecord(a), G.GlobalRecord(b);
    GlobalUnknowns(a, b);
    hide G.GlobalRecord, MergeGlobal, G.UnknownsOk, RecordOk, Complete, Joined, JoinedAt, FromEither;
    forall k: Key ensures JoinedAt(r, ra, rb, FALLBACK_LOCKTIME, k) { GlobalEntry(a, b, k); }
    JoinedEverywhere(r, ra, rb, FALLBACK_LOCKTIME);
    EitherOk(GlobalV2, r, ra, rb);
    GlobalComplete(r, ra, rb);
  }

  lemma FallbackKept(a: G.Global, b: G.Global, k: Key)
    requires k.keyType == FALLBACK_LOCKTIME
    ensures G.GlobalSlot(MergeGlobal(a, b), k) == G.GlobalSlot(a, k)
  {
  }

  lemma GlobalUnknowns(a: G.Global, b: G.Global)
    requires G.UnknownsOk(a.fields, false) && G.UnknownsOk(b.fields, false)
    ensures G.UnknownsOk(MergeGlobal(a, b).fields, false)
  {
    assert MergeGlobal(a, b).fields.unknowns == a.fields.unknowns + b.fields.unknowns;
  }

  lemma GlobalComplete(r: Record, a: Record, b: Record)
    requires Joined(r, a, b, FALLBACK_LOCKTIME)
    requires Complete(GlobalV2, a) == None && Complete(GlobalV2, b) == None
    ensures Complete(GlobalV2, r) == None
  {
    JoinedType(r, a, b, FALLBACK_LOCKTIME, GLOBAL_SP_ECDH);
    JoinedType(r, a, b, FALLBACK_LOCKTIME, GLOBAL_SP_DLEQ);
    hide HasType;
  }

  /* ----- the whole ----- */

  /** Any two well-formed PSBTs that combine, whatever their shapes, make a well-formed PSBT. */
  lemma CombinedOk(a: Psbt, b: Psbt)
    requires PsbtOk(a) && PsbtOk(b) && Combined(a, b).Some?
    ensures PsbtOk(Combined(a, b).value)
  {
    hide G.GlobalOk, I.InputOk, O.OutputOk, MergeInput, MergeOutput, MergeGlobalFields, Determinable, XpubsComparable,
         InputsMatch, OutputsMatch;
    var m := Merged(a, b);
    CombinedGlobal(a.global, b.global);
    forall k | 0 <= k < |m.inputs| ensures I.InputOk(m.inputs[k]) {
      if k < |b.inputs| { CombinedInput(a.inputs[k], b.inputs[k]); }
    }
    forall k | 0 <= k < |m.outputs| ensures O.OutputOk(m.outputs[k]) {
      if k < |b.outputs| { CombinedOutput(a.outputs[k], b.outputs[k]); }
    }
  }

  /** What was decoded and combined can be written and decoded again as the same PSBT. */
  lemma CombinedRoundTrips(x: bytes, y: bytes)
    requires Deserialize(x).Ok? && Deserialize(y).Ok? && Combined(Deserialize(x).value, Deserialize(y).value).Some?
    ensures var c := Combined(Deserialize(x).value, Deserialize(y).value).value; Deserialize(Serialize(c)) == Ok(c)
  {
    hide Combined, Serialize, Deserialize, PsbtOk, ParsePsbt;
    DeserializedOk(x);
    DeserializedOk(y);
    CombinedOk(Deserialize(x).value, Deserialize(y).value);
    DeserializeSerialize(Combined(Deserialize(x).value, Deserialize(y).value).value);
  }

  lemma DeserializedOk(x: bytes)
    requires Deserialize(x).Ok?
    ensures PsbtOk(Deserialize(x).value)
  {
    hide PsbtOk, ParsePsbt;
    Normal(x);
  }
}
