/** A version-2 PSBT: its wire format, and that serializing and deserializing undo each other. */
module Psbt {
  import opened Bytes
  import opened CompactSize
  import opened Formats
  import opened Tables
  import opened Maps
  import opened MapEncoding
  import G = Global
  import I = Input
  import O = Output

  datatype Psbt = Psbt(global: G.Global, inputs: seq<I.Input>, outputs: seq<O.Output>)

  const MAGIC: bytes := [0x70, 0x73, 0x62, 0x74]
  const SEPARATOR: byte := 0xFF

  /** The magic is judged once all four bytes are there, the separator after it. */
  function ParseHeader(b: bytes): Outcome<()> {
    if |b| < 4 then More
    else if b[..4] != MAGIC then Fail(InvalidMagic)
    else if |b| < 5 then More
    else if b[4] != SEPARATOR then Fail(InvalidSeparator)
    else Ready((), 5)
  }

  function ParseRecord<T>(table: Table, build: Record -> T, b: bytes): Outcome<T> {
    match ParseMap(table, map[], b)
    case More => More
    case Fail(e) => Fail(e)
    case Ready(r, k) => Ready(build(r), k)
  }

  function ParseGlobal(b: bytes): Outcome<G.Global> { ParseRecord(GlobalV2, G.BuildGlobal, b) }
  function ParseInput(b: bytes): Outcome<I.Input> { ParseRecord(InputV2, I.BuildInput, b) }
  function ParseOutput(b: bytes): Outcome<O.Output> { ParseRecord(OutputV2, O.BuildOutput, b) }

  ghost function EncodeGlobal(g: G.Global): bytes { EncodeMap(GlobalV2, G.GlobalRecord(g)) }
  ghost function EncodeInput(i: I.Input): bytes { EncodeMap(InputV2, I.InputRecord(i)) }
  ghost function EncodeOutput(o: O.Output): bytes { EncodeMap(OutputV2, O.OutputRecord(o)) }

  ghost function GlobalFormat(): Format<G.Global> { Format(ParseGlobal, EncodeGlobal, G.GlobalOk) }
  ghost function InputFormat(): Format<I.Input> { Format(ParseInput, EncodeInput, I.InputOk) }
  ghost function OutputFormat(): Format<O.Output> { Format(ParseOutput, EncodeOutput, O.OutputOk) }

  /** `PsbtV2Decoder`: one stage after the other. */
  function ParsePsbt(b: bytes): Outcome<Psbt> {
    match ParseHeader(b)
    case More => More
    case Fail(e) => Fail(e)
    case Ready(_, k) => if k > |b| then More else Shift(ParseMaps(b[k..]), k)
  }

  function ParseMaps(b: bytes): Outcome<Psbt> {
    match ParseGlobal(b)
    case More => More
    case Fail(e) => Fail(e)
    case Ready(g, k) => if k > |b| then More else Shift(ParseInputs(g, b[k..]), k)
  }

  function ParseInputs(g: G.Global, b: bytes): Outcome<Psbt> {
    match ParseMany(ParseInput, g.inputCount, b)
    case More => More
    case Fail(e) => Fail(e)
    case Ready(inputs, k) => if k > |b| then More else Shift(ParseOutputs(g, inputs, b[k..]), k)
  }

  function ParseOutputs(g: G.Global, inputs: seq<I.Input>, b: bytes): Outcome<Psbt> {
    match ParseMany(ParseOutput, g.outputCount, b)
    case More => More
    case Fail(e) => Fail(e)
    case Ready(outputs, k) => Ready(Psbt(g, inputs, outputs), k)
  }

  ghost function MapsBytes(p: Psbt): bytes {
    EncodeGlobal(p.global) + (EncMany(EncodeInput, p.inputs) + EncMany(EncodeOutput, p.outputs))
  }

  ghost function Serialize(p: Psbt): bytes { MAGIC + [SEPARATOR] + MapsBytes(p) }

  /** The whole buffer must be one PSBT. */
  function Deserialize(b: bytes): Result<Psbt, Error> {
    match ParsePsbt(b)
    case More => Err(EarlyEnd)
    case Fail(e) => Err(e)
    case Ready(p, k) => if k == |b| then Ok(p) else Err(Unconsumed)
  }

  /** Well-formed: every map is, and the counts are the lengths of the lists. */
  predicate PsbtOk(p: Psbt) {
    && G.GlobalOk(p.global)
    && p.global.inputCount == |p.inputs| && p.global.outputCount == |p.outputs|
    && AllOk(I.InputOk, p.inputs) && AllOk(O.OutputOk, p.outputs)
  }

  /* ----- the maps ----- */

  lemma RecordStreams<T>(table: Table, build: Record -> T, b: bytes, c: bytes)
    ensures ParseRecord(table, build, b) != More ==> ParseRecord(table, build, b + c) == ParseRecord(table, build, b)
    ensures ParseRecord(table, build, b).Ready? ==> ParseRecord(table, build, b).used <= |b|
  {
    hide ParseMap;
    MapSettled(table, map[], b, c);
  }

  lemma MapsStream()
    ensures forall b, c :: Streams(GlobalFormat(), b, c)
    ensures forall b, c :: Streams(InputFormat(), b, c)
    ensures forall b, c :: Streams(OutputFormat(), b, c)
  {
    forall b, c ensures Streams(GlobalFormat(), b, c) { RecordStreams(GlobalV2, G.BuildGlobal, b, c); }
    forall b, c ensures Streams(InputFormat(), b, c) { RecordStreams(InputV2, I.BuildInput, b, c); }
    forall b, c ensures Streams(OutputFormat(), b, c) { RecordStreams(OutputV2, O.BuildOutput, b, c); }
  }

  lemma GlobalWrites(g: G.Global, c: bytes)
    ensures Writes(GlobalFormat(), g, c)
  {
    hide ParseMap, EncodeMap, G.BuildGlobal, G.GlobalRecord, RecordOk, Complete;
    if G.GlobalOk(g) {
      MapRoundTrip(GlobalV2, G.GlobalRecord(g), c);
      G.GlobalBack(g);
    }
  }

  lemma InputWrites(i: I.Input, c: bytes)
    ensures Writes(InputFormat(), i, c)
  {
    hide ParseMap, EncodeMap, I.BuildInput, I.InputRecord, RecordOk, Complete;
    if I.InputOk(i) {
      MapRoundTrip(InputV2, I.InputRecord(i), c);
      I.InputBack(i);
    }
  }

  lemma OutputWrites(o: O.Output, c: bytes)
    ensures Writes(OutputFormat(), o, c)
  {
    hide ParseMap, EncodeMap, O.BuildOutput, O.OutputRecord, RecordOk, Complete;
    if O.OutputOk(o) {
      MapRoundTrip(OutputV2, O.OutputRecord(o), c);
      O.OutputBack(o);
    }
  }

  lemma MapsNormal(b: bytes)
    ensures ParseGlobal(b).Ready? ==> G.GlobalOk(ParseGlobal(b).value)
    ensures ParseInput(b).Ready? ==> I.InputOk(ParseInput(b).value)
    ensures ParseOutput(b).Ready? ==> O.OutputOk(ParseOutput(b).value)
  {
    hide ParseMap, G.GlobalOk, I.InputOk, O.OutputOk, RecordOk, Complete;
    if ParseGlobal(b).Ready? {
      MapNormal(GlobalV2, b);
      G.GlobalForth(ParseMap(GlobalV2, map[], b).value);
    }
    if ParseInput(b).Ready? {
      MapNormal(InputV2, b);
      I.InputForth(ParseMap(InputV2, map[], b).value);
    }
    if ParseOutput(b).Ready? {
      MapNormal(OutputV2, b);
      O.OutputForth(ParseMap(OutputV2, map[], b).value);
    }
  }

  /* ----- the whole PSBT ----- */

  lemma GlobalRead(p: Psbt, c: bytes)
    requires PsbtOk(p)
    ensures ParseGlobal(EncodeGlobal(p.global) + c) == Ready(p.global, |EncodeGlobal(p.global)|)
  {
    hide ParseGlobal, EncodeGlobal;
    GlobalWrites(p.global, c);
  }

  lemma InputsRead(p: Psbt, c: bytes)
    requires PsbtOk(p)
    ensures ParseMany(ParseInput, p.global.inputCount, EncMany(EncodeInput, p.inputs) + c)
         == Ready(p.inputs, |EncMany(EncodeInput, p.inputs)|)
  {
    forall i, c ensures Writes(InputFormat(), i, c) { InputWrites(i, c); }
    ManyWrites(InputFormat(), p.inputs, c);
  }

  lemma OutputsRead(p: Psbt, c: bytes)
    requires PsbtOk(p)
    ensures ParseMany(ParseOutput, p.global.outputCount, EncMany(EncodeOutput, p.outputs) + c)
         == Ready(p.outputs, |EncMany(EncodeOutput, p.outputs)|)
  {
    forall o, c ensures Writes(OutputFormat(), o, c) { OutputWrites(o, c); }
    ManyWrites(OutputFormat(), p.outputs, c);
  }

  lemma InputsStageRead(p: Psbt, c: bytes)
    requires PsbtOk(p)
    ensures var tail := EncMany(EncodeInput, p.inputs) + EncMany(EncodeOutput, p.outputs);
      ParseInputs(p.global, tail + c) == Ready(p, |tail|)
  {
    hide PsbtOk, ParseInput, ParseOutput, EncodeInput, EncodeOutput, EncMany, ParseMany;
    var ins, outs := EncMany(EncodeInput, p.inputs), EncMany(EncodeOutput, p.outputs);
    Concat(ins, outs, c);
    OutputsRead(p, c);
    InputsRead(p, outs + c);
  }

  lemma MapsStageRead(p: Psbt, c: bytes)
    requires PsbtOk(p)
    ensures ParseMaps(MapsBytes(p) + c) == Ready(p, |MapsBytes(p)|)
  {
    hide PsbtOk, ParseGlobal, ParseInputs, EncodeGlobal, EncodeInput, EncodeOutput, EncMany;
    var tail := EncMany(EncodeInput, p.inputs) + EncMany(EncodeOutput, p.outputs);
    Concat(EncodeGlobal(p.global), tail, c);
    GlobalRead(p, tail + c);
    InputsStageRead(p, c);
  }

  /**
   * Round trip: every well-formed PSBT is read back from its serialization, exactly, and the bytes
   * that follow are left alone.
   */
  lemma RoundTrip(p: Psbt, c: bytes)
    requires PsbtOk(p)
    ensures ParsePsbt(Serialize(p) + c) == Ready(p, |Serialize(p)|)
  {
    hide PsbtOk, ParseMaps, MapsBytes;
    var head := MAGIC + [SEPARATOR];
    Concat(head, MapsBytes(p), c);
    MapsStageRead(p, c);
    assert (Serialize(p) + c)[..4] == MAGIC;
  }

  /** Normal form: every PSBT the decoder returns is well-formed, however odd the bytes it came from. */
  lemma Normal(b: bytes)
    requires ParsePsbt(b).Ready?
    ensures PsbtOk(ParsePsbt(b).value)
  {
    hide ParseGlobal, ParseInput, ParseOutput, G.GlobalOk, I.InputOk, O.OutputOk;
    var b1 := b[5..];
    MapsNormal(b1);
    var g := ParseGlobal(b1).value;
    var b2 := b1[ParseGlobal(b1).used..];
    forall b ensures ParseInput(b).Ready? ==> I.InputOk(ParseInput(b).value) { MapsNormal(b); }
    ManyNormal(InputFormat(), g.inputCount, b2);
    var b3 := b2[ParseMany(ParseInput, g.inputCount, b2).used..];
    forall b ensures ParseOutput(b).Ready? ==> O.OutputOk(ParseOutput(b).value) { MapsNormal(b); }
    ManyNormal(OutputFormat(), g.outputCount, b3);
  }

  /** A PSBT survives the round trip if and only if it is well-formed. */
  lemma DeserializeSerialize(p: Psbt)
    ensures Deserialize(Serialize(p)) == Ok(p) <==> PsbtOk(p)
  {
    hide ParsePsbt, Serialize, PsbtOk;
    if PsbtOk(p) {
      RoundTrip(p, []);
      assert Serialize(p) + [] == Serialize(p);
    }
    if Deserialize(Serialize(p)) == Ok(p) { Normal(Serialize(p)); }
  }

  /**
   * Encoding is stable after one pass: for every byte string accepted, canonical or not, decoding
   * what is encoded from the result gives the result again, and encoding that gives the same bytes.
   */
  lemma Stable(b: bytes)
    requires Deserialize(b).Ok?
    ensures var p := Deserialize(b).value;
      Deserialize(Serialize(p)) == Ok(p) && Serialize(Deserialize(Serialize(p)).value) == Serialize(p)
  {
    hide ParsePsbt, Serialize, PsbtOk;
    Normal(b);
    DeserializeSerialize(Deserialize(b).value);
  }

  /** Whatever follows, a verdict stands, and no byte past the PSBT is used. */
  lemma PsbtSettled(b: bytes, c: bytes)
    ensures ParsePsbt(b) != More ==> ParsePsbt(b + c) == ParsePsbt(b)
    ensures ParsePsbt(b).Ready? ==> ParsePsbt(b).used <= |b|
  {
    hide ParseMaps;
    if |b| >= 4 { assert (b + c)[..4] == b[..4]; }
    if |b| >= 5 {
      Split(b, c, 5);
      MapsSettled(b[5..], c);
    }
  }

  lemma MapsSettled(b: bytes, c: bytes)
    ensures ParseMaps(b) != More ==> ParseMaps(b + c) == ParseMaps(b)
    ensures ParseMaps(b).Ready? ==> ParseMaps(b).used <= |b|
  {
    hide ParseGlobal, ParseInputs;
    MapsStream();
    assert Streams(GlobalFormat(), b, c);
    if ParseGlobal(b).Ready? {
      var Ready(g, k) := ParseGlobal(b);
      Split(b, c, k);
      InputsSettled(g, b[k..], c);
    }
  }

  lemma InputsSettled(g: G.Global, b: bytes, c: bytes)
    ensures ParseInputs(g, b) != More ==> ParseInputs(g, b + c) == ParseInputs(g, b)
    ensures ParseInputs(g, b).Ready? ==> ParseInputs(g, b).used <= |b|
  {
    hide ParseInput, ParseOutput;
    MapsStream();
    ManyStreams(InputFormat(), g.inputCount, b, c);
    if ParseMany(ParseInput, g.inputCount, b).Ready? {
      var k := ParseMany(ParseInput, g.inputCount, b).used;
      Split(b, c, k);
      ManyStreams(OutputFormat(), g.outputCount, b[k..], c);
    }
  }
}
