/** Well-formed PSBTs, by their fields alone: what decoding returns, and exactly what survives the wire. */
module WellFormed {
  import opened Bytes
  import opened CompactSize
  import opened Psbt
  import opened InputRanges
  import opened OutputRanges
  import opened GlobalRanges
  import V0
  import Promotion
  import G = Global
  import I = Input
  import O = Output

  /** Every field in range, and the counts are the lengths of the lists. */
  ghost predicate PsbtFits(p: Psbt) {
    && GlobalFits(p.global)
    && p.global.inputCount == |p.inputs| && p.global.outputCount == |p.outputs|
    && (forall k | 0 <= k < |p.inputs| :: InputFits(p.inputs[k]))
    && (forall k | 0 <= k < |p.outputs| :: OutputFits(p.outputs[k]))
  }

  lemma PsbtWellFormed(p: Psbt)
    ensures PsbtOk(p) <==> PsbtFits(p)
  {
    hide G.GlobalOk, I.InputOk, O.OutputOk, GlobalFits, InputFits, OutputFits;
    GlobalWellFormed(p.global);
    forall k | 0 <= k < |p.inputs| ensures I.InputOk(p.inputs[k]) <==> InputFits(p.inputs[k]) {
      InputWellFormed(p.inputs[k]);
    }
    forall k | 0 <= k < |p.outputs| ensures O.OutputOk(p.outputs[k]) <==> OutputFits(p.outputs[k]) {
      OutputWellFormed(p.outputs[k]);
    }
  }

  /** A PSBT comes back from its own bytes exactly if every field is in range; nothing else is ever decoded. */
  lemma SurvivesIff(p: Psbt, b: bytes)
    ensures Deserialize(Serialize(p)) == Ok(p) <==> PsbtFits(p)
    ensures Deserialize(b).Ok? ==> PsbtFits(Deserialize(b).value)
  {
    hide Serialize, PsbtOk, PsbtFits, ParsePsbt;
    DeserializeSerialize(p);
    PsbtWellFormed(p);
    if Deserialize(b).Ok? {
      Normal(b);
      PsbtWellFormed(Deserialize(b).value);
    }
  }

  /** A buffer is one PSBT, whole: less is an early end, more is unconsumed, and a decoder's complaint is passed on. */
  lemma WholeBuffer(b: bytes, p: Psbt)
    ensures Deserialize(b) == Ok(p) <==> ParsePsbt(b) == Ready(p, |b|)
    ensures ParsePsbt(b) == More ==> Deserialize(b) == Err(EarlyEnd)
    ensures ParsePsbt(b).Fail? ==> Deserialize(b) == Err(ParsePsbt(b).error)
    ensures ParsePsbt(b).Ready? && ParsePsbt(b).used != |b| ==> Deserialize(b) == Err(Unconsumed)
    ensures Deserialize(b).Ok? ==> |b| > 4 && b[..4] == [0x70, 0x73, 0x62, 0x74] && b[4] == 0xFF
  {
    hide ParseMaps;
  }

  /** And of the input maps of version 0. */
  lemma DecodedFitsV0(b: bytes)
    ensures V0.ParseInputV0(b).Ready? ==> InputRanges.FieldsFit(V0.ParseInputV0(b).value)
  {
    hide V0.ParseInputV0, I.FieldsOk, InputRanges.FieldsFit;
    Promotion.MapsReadV0(b);
    if V0.ParseInputV0(b).Ready? { FieldsWellFormed(V0.ParseInputV0(b).value); }
  }
}
