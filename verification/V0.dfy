/** Version-0 PSBTs (BIP-174): the translation from version 2 and back. */
module V0 {
  import opened Bytes
  import opened CompactSize
  import opened Bitcoin
  import opened Formats
  import opened Values
  import opened ValueCodecs
  import opened Tables
  import opened Maps
  import opened MapEncoding
  import opened LockTime
  import opened Psbt
  import opened Transactions
  import G = Global
  import I = Input
  import O = Output

  /** A PSBT locked to version 0, its lock time resolved once and for all. */
  datatype PsbtV0 = PsbtV0(psbt: Psbt, lockTime: nat)

  function FromPsbt(p: Psbt): Result<PsbtV0, LockTimeError> {
    match LockTimeOf(p)
    case Err(e) => Err(e)
    case Ok(lock) => Ok(PsbtV0(p, lock))
  }

  function UnsignedIns(ins: seq<I.Input>): seq<UnsignedIn> {
    seq(|ins|, i requires 0 <= i < |ins| =>
      UnsignedIn(ins[i].previousTxid, ins[i].spentOutputIndex, SequenceOf(ins[i])))
  }

  /** The unsigned transaction embedded in the global map. */
  function EmbeddedTx(v: PsbtV0): UnsignedTx {
    UnsignedTx(v.psbt.global.txVersion, UnsignedIns(v.psbt.inputs), TxOuts(v.psbt.outputs), v.lockTime)
  }

  ghost function EncodeGlobalV0(v: PsbtV0): bytes {
    EncodeMap(GlobalV0, G.GlobalRecordV0(EmbeddedTx(v), v.psbt.global.fields))
  }
  ghost function EncodeInputV0(i: I.Input): bytes { EncodeMap(InputV0, I.FieldsRecord(i.fields)) }
  ghost function EncodeOutputV0(o: O.Output): bytes { EncodeMap(OutputV0, O.FieldsRecord(o.fields)) }

  ghost function ListsBytes(ins: seq<I.Input>, outs: seq<O.Output>): bytes {
    EncMany(EncodeInputV0, ins) + EncMany(EncodeOutputV0, outs)
  }

  ghost function MapsBytesV0(v: PsbtV0): bytes {
    EncodeGlobalV0(v) + ListsBytes(v.psbt.inputs, v.psbt.outputs)
  }

  ghost function SerializeV0(v: PsbtV0): bytes { MAGIC + [SEPARATOR] + MapsBytesV0(v) }

  /** What a version-0 global map says: the unsigned transaction, and the fields both versions share. */
  datatype GlobalInfo = GlobalInfo(utx: UnsignedTx, fields: G.GlobalFields)

  function BuildGlobalV0(r: Record): GlobalInfo { GlobalInfo(G.UnsignedTxOf(r), G.BuildFields(r, true)) }
  function BuildInputV0(r: Record): I.InputFields { I.BuildFields(r, true) }
  function BuildOutputV0(r: Record): O.OutputFields { O.BuildFields(r, true) }

  function ParseGlobalV0(b: bytes): Outcome<GlobalInfo> { ParseRecord(GlobalV0, BuildGlobalV0, b) }
  function ParseInputV0(b: bytes): Outcome<I.InputFields> { ParseRecord(InputV0, BuildInputV0, b) }
  function ParseOutputV0(b: bytes): Outcome<O.OutputFields> { ParseRecord(OutputV0, BuildOutputV0, b) }

  /** `into_input`: what the transaction says, and what the map says. */
  function IntoInput(u: UnsignedIn, f: I.InputFields): I.Input {
    I.Input(u.txid, u.vout, Some(u.sequence), None, None, f)
  }

  function IntoOutput(t: TxOut, f: O.OutputFields): O.Output { O.Output(t.value, t.scriptPubkey, f) }

  function IntoGlobal(info: GlobalInfo): G.Global {
    G.Global(G.V2, info.utx.version, if info.utx.lockTime != 0 then Some(info.utx.lockTime) else None, 0,
             |info.utx.inputs|, |info.utx.outputs|, info.fields)
  }

  function Assemble(info: GlobalInfo, ins: seq<I.InputFields>, outs: seq<O.OutputFields>): Psbt
    requires |ins| == |info.utx.inputs| && |outs| == |info.utx.outputs|
  {
    Psbt(IntoGlobal(info),
         seq(|ins|, i requires 0 <= i < |ins| => IntoInput(info.utx.inputs[i], ins[i])),
         seq(|outs|, i requires 0 <= i < |outs| => IntoOutput(info.utx.outputs[i], outs[i])))
  }

  /** `PsbtV0Decoder`. */
  function ParseV0(b: bytes): Outcome<Psbt> {
    match ParseHeader(b)
    case More => More
    case Fail(e) => Fail(e)
    case Ready(_, k) => if k > |b| then More else Shift(ParseMapsV0(b[k..]), k)
  }

  function ParseMapsV0(b: bytes): Outcome<Psbt> {
    match ParseGlobalV0(b)
    case More => More
    case Fail(e) => Fail(e)
    case Ready(info, k) => if k > |b| then More else Shift(ParseInputsV0(info, b[k..]), k)
  }

  function ParseInputsV0(info: GlobalInfo, b: bytes): Outcome<Psbt> {
    match ParseMany(ParseInputV0, |info.utx.inputs|, b)
    case More => More
    case Fail(e) => Fail(e)
    case Ready(ins, k) =>
      if k > |b| || |ins| != |info.utx.inputs| then More else Shift(ParseOutputsV0(info, ins, b[k..]), k)
  }

  function ParseOutputsV0(info: GlobalInfo, ins: seq<I.InputFields>, b: bytes): Outcome<Psbt>
    requires |ins| == |info.utx.inputs|
  {
    match ParseMany(ParseOutputV0, |info.utx.outputs|, b)
    case More => More
    case Fail(e) => Fail(e)
    case Ready(outs, k) => if |outs| != |info.utx.outputs| then More else Ready(Assemble(info, ins, outs), k)
  }

  lemma {:induction false} ManyCount<V>(p: bytes -> Outcome<V>, n: nat, b: bytes)
    requires ParseMany(p, n, b).Ready?
    ensures |ParseMany(p, n, b).value| == n
  {
    if n > 0 { ManyCount(p, n - 1, b[p(b).used..]); }
  }

  /* ----- the transaction survives ----- */

  /** The unsigned transaction of what version 0 reads is the one embedded in it. */
  lemma AssembledTransaction(info: GlobalInfo, ins: seq<I.InputFields>, outs: seq<O.OutputFields>)
    requires |ins| == |info.utx.inputs| && |outs| == |info.utx.outputs|
    ensures var q := Assemble(info, ins, outs);
      && !Constrained(q.inputs)
      && LockTimeOf(q) == Ok(info.utx.lockTime)
      && q.global.txVersion == info.utx.version
      && UnsignedIns(q.inputs) == info.utx.inputs && TxOuts(q.outputs) == info.utx.outputs
  {
    var q := Assemble(info, ins, outs);
    forall i | 0 <= i < |q.inputs| ensures !HasLockTime(q.inputs[i]) { }
    Unconstrained(q.global.fallbackLockTime, q.inputs);
  }

  /** Transactions with the same embedded inputs are the same. */
  lemma SameIns(ins: seq<I.Input>, others: seq<I.Input>)
    requires UnsignedIns(ins) == UnsignedIns(others)
    ensures UnsignedTxIns(ins) == UnsignedTxIns(others)
  {
    assert |UnsignedIns(ins)| == |UnsignedIns(others)|;
    forall i | 0 <= i < |ins| ensures UnsignedTxIn(ins[i]) == UnsignedTxIn(others[i]) {
      assert UnsignedIns(ins)[i] == UnsignedIns(others)[i];
    }
  }

  lemma FirstGroup(utx: UnsignedTx, f: G.GlobalFields)
    ensures GroupPairs(GlobalV0, G.GlobalRecordV0(utx, f), Only(UNSIGNED_TX))
         == [PairOf(GlobalV0, Key(UNSIGNED_TX, []), Unsigned(utx))]
  {
    hide G.FieldsSlot, PairOf, G.GlobalRecordV0;
    var r, k := G.GlobalRecordV0(utx, f), Key(UNSIGNED_TX, []);
    var keys := GroupKeys(Order(GlobalV0), r, Only(UNSIGNED_TX));
    forall key: Key ensures key in keys <==> key == k {
      G.GlobalRecordV0Slots(utx, f, key);
      assert Order(GlobalV0)[0] == Only(UNSIGNED_TX);
    }
    assert keys == {k};
    SingletonListing(k);
    G.GlobalRecordV0Slots(utx, f, k);
  }

  lemma SingletonListing(k: Key)
    ensures Listing({k}) == [k]
  {
    assert {k} - {k} == {};
  }

  /** The global map starts with the embedded transaction. */
  lemma GlobalStarts(v: PsbtV0) returns (tail: bytes)
    ensures EncodeGlobalV0(v) == Frame(PairOf(GlobalV0, Key(UNSIGNED_TX, []), Unsigned(EmbeddedTx(v)))) + tail
  {
    hide PairOf, G.GlobalRecordV0, Frame, GroupPairs;
    var utx, f := EmbeddedTx(v), v.psbt.global.fields;
    var r := G.GlobalRecordV0(utx, f);
    FirstGroup(utx, f);
    var states := Order(GlobalV0);
    tail := StatesBytes(GlobalV0, r, states[1..]) + [0];
    var p := PairOf(GlobalV0, Key(UNSIGNED_TX, []), Unsigned(utx));
    assert [p][1..] == [];
    assert Frames([p]) == Frame(p);
    Concat(Frame(p), StatesBytes(GlobalV0, r, states[1..]), [0]);
  }

  /** Whatever else the global map holds, the transaction read from it is the one embedded. */
  lemma EmbeddedIsRead(v: PsbtV0, c: bytes)
    requires G.UnsignedFits(EmbeddedTx(v))
    requires ParseGlobalV0(EncodeGlobalV0(v) + c).Ready?
    ensures ParseGlobalV0(EncodeGlobalV0(v) + c).value.utx == EmbeddedTx(v)
  {
    var k, value := Key(UNSIGNED_TX, []), Unsigned(EmbeddedTx(v));
    var tail := GlobalStarts(v);
    G.UnsignedEntryOk(EmbeddedTx(v));
    var p := PairOf(GlobalV0, k, value);
    hide PairOf, EncodeGlobalV0, Frame, ParseMap, PairFits, Sound, PairSlot, Meaning, EmbeddedTx, G.UnsignedFits,
         EntryOk;
    PairMeaning(GlobalV0, k, value);
    Concat(Frame(p), tail, c);
    FirstIsStored(GlobalV0, p, tail + c);
  }

  /** Everything the decoder returns was assembled from what the three kinds of maps said. */
  lemma ReadIsAssembled(b: bytes) returns (info: GlobalInfo, ins: seq<I.InputFields>, outs: seq<O.OutputFields>)
    requires ParseV0(b).Ready?
    ensures |b| >= 5 && ParseGlobalV0(b[5..]).Ready? && info == ParseGlobalV0(b[5..]).value
    ensures |ins| == |info.utx.inputs| && |outs| == |info.utx.outputs|
    ensures ParseV0(b).value == Assemble(info, ins, outs)
  {
    hide ParseGlobalV0, ParseInputV0, ParseOutputV0, ParseMany, Assemble;
    info := ParseGlobalV0(b[5..]).value;
    var b2 := b[5..][ParseGlobalV0(b[5..]).used..];
    ins := ParseMany(ParseInputV0, |info.utx.inputs|, b2).value;
    var b3 := b2[ParseMany(ParseInputV0, |info.utx.inputs|, b2).used..];
    outs := ParseMany(ParseOutputV0, |info.utx.outputs|, b3).value;
  }

  /**
   * Version 2 to version 0 to version 2 keeps the transaction: whenever the lock time can be
   * resolved and the version-0 bytes decode, the PSBT that comes back has the same unsigned
   * transaction, with all lock requirements folded into the fallback.
   */
  lemma TransactionSurvives(p: Psbt, c: bytes)
    requires FromPsbt(p).Ok? && G.UnsignedFits(EmbeddedTx(FromPsbt(p).value))
    requires ParseV0(SerializeV0(FromPsbt(p).value) + c).Ready?
    ensures var q := ParseV0(SerializeV0(FromPsbt(p).value) + c).value;
      && UnsignedTransaction(q) == UnsignedTransaction(p)
      && !Constrained(q.inputs)
      && q.global.fallbackLockTime == (if FromPsbt(p).value.lockTime == 0 then None else Some(FromPsbt(p).value.lockTime))
  {
    hide EncodeGlobalV0, ParseGlobalV0, ListsBytes, ParseV0, G.UnsignedFits, Constrained;
    var v := FromPsbt(p).value;
    var rest := ListsBytes(v.psbt.inputs, v.psbt.outputs);
    Concat(MAGIC + [SEPARATOR], MapsBytesV0(v), c);
    Concat(EncodeGlobalV0(v), rest, c);
    var info, ins, outs := ReadIsAssembled(SerializeV0(v) + c);
    EmbeddedIsRead(v, rest + c);
    AssembledTransaction(info, ins, outs);
    SameIns(Assemble(info, ins, outs).inputs, p.inputs);
  }

  /* ----- which PSBTs survive ----- */

  /** The version-0 decoder refuses preimages and proprietary pairs in inputs, and proprietary pairs in outputs. */
  predicate Demotable(p: Psbt) {
    AllSurvive(InputSurvives, p.inputs) && AllSurvive(OutputSurvives, p.outputs)
  }

  predicate InputSurvives(i: I.Input) { I.NoRefused(i.fields) }
  predicate OutputSurvives(o: O.Output) { o.fields.proprietaries == map[] }

  predicate AllSurvive<V>(ok: V -> bool, vs: seq<V>) {
    forall i | 0 <= i < |vs| :: ok(vs[i])
  }

  function DemotedInput(i: I.Input): I.InputFields { i.fields }
  function DemotedOutput(o: O.Output): O.OutputFields { o.fields.(redeemScript := None) }

  function Mapped<V, W>(f: V -> W, vs: seq<V>): seq<W> {
    seq(|vs|, i requires 0 <= i < |vs| => f(vs[i]))
  }

  /** What comes back: redeem scripts of outputs are lost, sequences explicit, lock requirements folded. */
  function Demoted(v: PsbtV0): Psbt {
    Assemble(GlobalInfo(EmbeddedTx(v), v.psbt.global.fields),
             Mapped(DemotedInput, v.psbt.inputs), Mapped(DemotedOutput, v.psbt.outputs))
  }

  lemma SurvivorsStep<V>(ok: V -> bool, vs: seq<V>)
    requires vs != []
    ensures AllSurvive(ok, vs) <==> ok(vs[0]) && AllSurvive(ok, vs[1..])
  {
    if ok(vs[0]) && AllSurvive(ok, vs[1..]) {
      forall i | 0 <= i < |vs| ensures ok(vs[i]) { if i > 0 { assert vs[i] == vs[1..][i - 1]; } }
    }
    if AllSurvive(ok, vs) {
      forall i | 0 <= i < |vs[1..]| ensures ok(vs[1..][i]) { assert vs[1..][i] == vs[i + 1]; }
    }
  }

  /** A list of maps is read exactly when each of them is. */
  lemma {:induction false} ManyExact<V, W>(parse: bytes -> Outcome<W>, enc: V -> bytes, out: V -> W, ok: V -> bool,
                                           vs: seq<V>, c: bytes)
    requires forall i, c | 0 <= i < |vs| :: ok(vs[i]) ==> parse(enc(vs[i]) + c) == Ready(out(vs[i]), |enc(vs[i])|)
    requires forall i, c | 0 <= i < |vs| :: parse(enc(vs[i]) + c).Ready? ==> ok(vs[i])
    ensures ParseMany(parse, |vs|, EncMany(enc, vs) + c).Ready? ==> AllSurvive(ok, vs)
    ensures AllSurvive(ok, vs) ==>
      ParseMany(parse, |vs|, EncMany(enc, vs) + c) == Ready(Mapped(out, vs), |EncMany(enc, vs)|)
    decreases |vs|
  {
    if vs == [] {
      assert Mapped(out, vs) == [];
    } else {
      var head, tail := enc(vs[0]), EncMany(enc, vs[1..]);
      Concat(head, tail, c);
      assert parse(head + (tail + c)).Ready? ==> ok(vs[0]);
      if ok(vs[0]) {
        assert parse(head + (tail + c)) == Ready(out(vs[0]), |head|);
        forall i, c | 0 <= i < |vs[1..]|
          ensures ok(vs[1..][i]) ==> parse(enc(vs[1..][i]) + c) == Ready(out(vs[1..][i]), |enc(vs[1..][i])|)
          ensures parse(enc(vs[1..][i]) + c).Ready? ==> ok(vs[1..][i])
        {
          assert vs[1..][i] == vs[i + 1];
        }
        ManyExact(parse, enc, out, ok, vs[1..], c);
        SurvivorsStep(ok, vs);
        assert Mapped(out, vs) == [out(vs[0])] + Mapped(out, vs[1..]);
      }
    }
  }

  lemma InputExact(i: I.Input, c: bytes)
    requires I.InputOk(i)
    ensures InputSurvives(i) ==> ParseInputV0(EncodeInputV0(i) + c) == Ready(DemotedInput(i), |EncodeInputV0(i)|)
    ensures ParseInputV0(EncodeInputV0(i) + c).Ready? ==> InputSurvives(i)
  {
    var r := I.FieldsRecord(i.fields);
    hide I.InputOk, I.FieldsRecord, I.BuildFields, I.NoRefused, RecordOk, ParseMap, EncodeMap, EntryJudged;
    I.FieldsDemoted(i);
    MapAcceptedIff(InputV0, r, c);
    if InputSurvives(i) {
      MapRoundTrip(InputV0, r, c);
      I.FieldsRecordBack(i.fields);
    }
  }

  lemma OutputExact(o: O.Output, c: bytes)
    requires O.OutputOk(o)
    ensures OutputSurvives(o) ==> ParseOutputV0(EncodeOutputV0(o) + c) == Ready(DemotedOutput(o), |EncodeOutputV0(o)|)
    ensures ParseOutputV0(EncodeOutputV0(o) + c).Ready? ==> OutputSurvives(o)
  {
    var r := O.FieldsRecord(o.fields);
    hide O.OutputOk, O.FieldsRecord, O.BuildFields, RecordOk, ParseMap, EncodeMap, EntryJudged;
    O.FieldsDemoted(o);
    MapAcceptedIff(OutputV0, r, c);
    if OutputSurvives(o) {
      MapRoundTrip(OutputV0, r, c);
      O.FieldsRecordBack(o.fields);
    }
  }

  lemma GlobalExact(v: PsbtV0, c: bytes)
    requires G.GlobalOk(v.psbt.global) && G.UnsignedFits(EmbeddedTx(v))
    ensures ParseGlobalV0(EncodeGlobalV0(v) + c)
         == Ready(GlobalInfo(EmbeddedTx(v), v.psbt.global.fields), |EncodeGlobalV0(v)|)
  {
    var g, utx := v.psbt.global, EmbeddedTx(v);
    hide G.GlobalOk, G.GlobalRecordV0, G.BuildFields, RecordOk, Complete, ParseMap, EncodeMap, G.UnsignedFits,
         EmbeddedTx;
    G.GlobalDemoted(g, utx);
    MapRoundTrip(GlobalV0, G.GlobalRecordV0(utx, g.fields), c);
    G.GlobalV0Back(utx, g.fields);
  }

  lemma InputsExact(ins: seq<I.Input>, c: bytes)
    requires AllOk(I.InputOk, ins)
    ensures ParseMany(ParseInputV0, |ins|, EncMany(EncodeInputV0, ins) + c).Ready? ==> AllSurvive(InputSurvives, ins)
    ensures AllSurvive(InputSurvives, ins)
            ==> ParseMany(ParseInputV0, |ins|, EncMany(EncodeInputV0, ins) + c)
                == Ready(Mapped(DemotedInput, ins), |EncMany(EncodeInputV0, ins)|)
  {
    hide ParseInputV0, EncodeInputV0, InputSurvives, I.InputOk, DemotedInput;
    forall i, c | 0 <= i < |ins|
      ensures InputSurvives(ins[i]) ==>
                ParseInputV0(EncodeInputV0(ins[i]) + c) == Ready(DemotedInput(ins[i]), |EncodeInputV0(ins[i])|)
      ensures ParseInputV0(EncodeInputV0(ins[i]) + c).Ready? ==> InputSurvives(ins[i])
    {
      InputExact(ins[i], c);
    }
    ManyExact(ParseInputV0, EncodeInputV0, DemotedInput, InputSurvives, ins, c);
  }

  lemma OutputsExact(outs: seq<O.Output>, c: bytes)
    requires AllOk(O.OutputOk, outs)
    ensures ParseMany(ParseOutputV0, |outs|, EncMany(EncodeOutputV0, outs) + c).Ready? ==>
      AllSurvive(OutputSurvives, outs)
    ensures AllSurvive(OutputSurvives, outs)
            ==> ParseMany(ParseOutputV0, |outs|, EncMany(EncodeOutputV0, outs) + c)
                == Ready(Mapped(DemotedOutput, outs), |EncMany(EncodeOutputV0, outs)|)
  {
    hide ParseOutputV0, EncodeOutputV0, OutputSurvives, O.OutputOk, DemotedOutput;
    forall i, c | 0 <= i < |outs|
      ensures OutputSurvives(outs[i]) ==>
                ParseOutputV0(EncodeOutputV0(outs[i]) + c) == Ready(DemotedOutput(outs[i]), |EncodeOutputV0(outs[i])|)
      ensures ParseOutputV0(EncodeOutputV0(outs[i]) + c).Ready? ==> OutputSurvives(outs[i])
    {
      OutputExact(outs[i], c);
    }
    ManyExact(ParseOutputV0, EncodeOutputV0, DemotedOutput, OutputSurvives, outs, c);
  }

  /** The embedded transaction of a well-formed PSBT is within every width; only its size is left to check. */
  lemma EmbeddedOk(p: Psbt)
    requires PsbtOk(p) && FromPsbt(p).Ok?
    ensures UnsignedTxOk(EmbeddedTx(FromPsbt(p).value))
  {
    hide I.InputOk, O.OutputOk, G.GlobalOk;
    var v := FromPsbt(p).value;
    var utx := EmbeddedTx(v);
    G.GlobalWidths(p.global);
    forall i | 0 <= i < |p.inputs| ensures UnsignedInOk(utx.inputs[i]) && InRange(p.inputs[i]) {
      assert I.InputOk(p.inputs[i]);
      I.InputWidths(p.inputs[i]);
    }
    forall i | 0 <= i < |p.outputs| ensures TxOutOk(utx.outputs[i]) {
      assert O.OutputOk(p.outputs[i]);
      O.OutputWidths(p.outputs[i]);
    }
    assert v.lockTime < U32 by {
      if Constrained(p.inputs) {
        Optimal(p.global.fallbackLockTime, p.inputs);
        var i :| 0 <= i < |p.inputs| && Requirement(p.inputs[i], KindOf(v.lockTime)) == Some(v.lockTime);
        assert I.InputOk(p.inputs[i]);
        I.InputWidths(p.inputs[i]);
      } else {
        Unconstrained(p.global.fallbackLockTime, p.inputs);
      }
    }
  }

  lemma OutputsStageExact(info: GlobalInfo, ins: seq<I.InputFields>, outs: seq<O.Output>, c: bytes)
    requires AllOk(O.OutputOk, outs) && |ins| == |info.utx.inputs| && |info.utx.outputs| == |outs|
    ensures ParseOutputsV0(info, ins, EncMany(EncodeOutputV0, outs) + c).Ready? ==> AllSurvive(OutputSurvives, outs)
    ensures AllSurvive(OutputSurvives, outs)
            ==> ParseOutputsV0(info, ins, EncMany(EncodeOutputV0, outs) + c)
                == Ready(Assemble(info, ins, Mapped(DemotedOutput, outs)), |EncMany(EncodeOutputV0, outs)|)
  {
    hide ParseOutputV0, ParseMany, EncMany, EncodeOutputV0, AllSurvive, Assemble, AllOk, DemotedOutput;
    OutputsExact(outs, c);
  }

  lemma InputsStage(info: GlobalInfo, b: bytes)
    requires ParseMany(ParseInputV0, |info.utx.inputs|, b).Ready?
    requires |ParseMany(ParseInputV0, |info.utx.inputs|, b).value| == |info.utx.inputs|
    requires ParseMany(ParseInputV0, |info.utx.inputs|, b).used <= |b|
    ensures var k := ParseMany(ParseInputV0, |info.utx.inputs|, b).used;
      ParseInputsV0(info, b) == Shift(ParseOutputsV0(info, ParseMany(ParseInputV0, |info.utx.inputs|, b).value, b[k..]), k)
  {
    hide ParseMany, ParseOutputsV0;
  }

  lemma InputsStageNeeds(info: GlobalInfo, b: bytes)
    requires ParseInputsV0(info, b).Ready?
    ensures ParseMany(ParseInputV0, |info.utx.inputs|, b).Ready?
  {
    hide ParseMany, ParseOutputsV0;
  }

  lemma InputsStageExact(info: GlobalInfo, ins: seq<I.Input>, outs: seq<O.Output>, c: bytes)
    requires AllOk(I.InputOk, ins) && AllOk(O.OutputOk, outs)
    requires |info.utx.inputs| == |ins| && |info.utx.outputs| == |outs|
    ensures ParseInputsV0(info, ListsBytes(ins, outs) + c).Ready?
            ==> AllSurvive(InputSurvives, ins) && AllSurvive(OutputSurvives, outs)
    ensures AllSurvive(InputSurvives, ins) && AllSurvive(OutputSurvives, outs)
            ==> ParseInputsV0(info, ListsBytes(ins, outs) + c)
                == Ready(Assemble(info, Mapped(DemotedInput, ins), Mapped(DemotedOutput, outs)), |ListsBytes(ins, outs)|)
  {
    hide ParseInputV0, ParseInputsV0, ParseOutputsV0, ParseMany, EncMany, EncodeInputV0, EncodeOutputV0, AllSurvive,
         Assemble, AllOk;
    var head, tail := EncMany(EncodeInputV0, ins), EncMany(EncodeOutputV0, outs);
    Concat(head, tail, c);
    InputsExact(ins, tail + c);
    if AllSurvive(InputSurvives, ins) {
      InputsStage(info, head + (tail + c));
      OutputsStageExact(info, Mapped(DemotedInput, ins), outs, c);
    } else if ParseInputsV0(info, head + (tail + c)).Ready? {
      InputsStageNeeds(info, head + (tail + c));
    }
  }

  lemma MapsStage(b: bytes)
    requires ParseGlobalV0(b).Ready? && ParseGlobalV0(b).used <= |b|
    ensures ParseMapsV0(b)
         == Shift(ParseInputsV0(ParseGlobalV0(b).value, b[ParseGlobalV0(b).used..]), ParseGlobalV0(b).used)
  {
    hide ParseGlobalV0, ParseInputsV0;
  }

  lemma ShiftReady<V>(o: Outcome<V>, k: nat)
    ensures Shift(o, k).Ready? <==> o.Ready?
    ensures o.Ready? ==> Shift(o, k) == Ready(o.value, o.used + k)
  {
  }

  /** The parts of a well-formed PSBT, and of its translation, that the stages below speak of. */
  lemma Parts(p: Psbt, v: PsbtV0)
    requires PsbtOk(p) && v.psbt == p
    ensures G.GlobalOk(p.global) && AllOk(I.InputOk, p.inputs) && AllOk(O.OutputOk, p.outputs)
    ensures MapsBytesV0(v) == EncodeGlobalV0(v) + ListsBytes(p.inputs, p.outputs)
    ensures |EmbeddedTx(v).inputs| == |p.inputs| && |EmbeddedTx(v).outputs| == |p.outputs|
    ensures Demotable(p) <==> AllSurvive(InputSurvives, p.inputs) && AllSurvive(OutputSurvives, p.outputs)
    ensures |Mapped(DemotedInput, p.inputs)| == |p.inputs| && |Mapped(DemotedOutput, p.outputs)| == |p.outputs|
    ensures Demoted(v) == Assemble(GlobalInfo(EmbeddedTx(v), p.global.fields),
                                   Mapped(DemotedInput, p.inputs), Mapped(DemotedOutput, p.outputs))
  {
    hide EncodeGlobalV0, ListsBytes, AllOk, AllSurvive, Assemble, G.GlobalOk;
  }

  lemma MapsExact(p: Psbt, v: PsbtV0, c: bytes)
    requires PsbtOk(p) && v.psbt == p && G.UnsignedFits(EmbeddedTx(v))
    ensures ParseMapsV0(MapsBytesV0(v) + c).Ready? ==> Demotable(p)
    ensures Demotable(p) ==> ParseMapsV0(MapsBytesV0(v) + c) == Ready(Demoted(v), |MapsBytesV0(v)|)
  {
    hide *;
    Parts(p, v);
    var info, lists := GlobalInfo(EmbeddedTx(v), p.global.fields), ListsBytes(p.inputs, p.outputs);
    Concat(EncodeGlobalV0(v), lists, c);
    GlobalExact(v, lists + c);
    MapsStage(EncodeGlobalV0(v) + (lists + c));
    InputsStageExact(info, p.inputs, p.outputs, c);
    ShiftReady(ParseInputsV0(info, lists + c), |EncodeGlobalV0(v)|);
  }

  lemma HeaderStage(b: bytes)
    ensures ParseV0(MAGIC + [SEPARATOR] + b) == Shift(ParseMapsV0(b), 5)
  {
    hide ParseMapsV0;
    var all := MAGIC + [SEPARATOR] + b;
    assert all[..4] == MAGIC && all[5..] == b;
  }

  lemma SerializedV0(v: PsbtV0)
    ensures SerializeV0(v) == MAGIC + [SEPARATOR] + MapsBytesV0(v)
  {
  }

  lemma OversizedValue(c: Codec, body: bytes, tail: bytes)
    requires CAP < |body| < U64
    ensures ParseValue(c, Prefixed(body) + tail) == Fail(TooLarge(|body|))
  {
    hide ParseBody;
    Concat(Size(|body|), body, tail);
    SizeComplete(|body|, body + tail);
  }

  lemma OversizedEntry(table: Table, p: Pair, c: bytes)
    requires KeyFits(p.key) && RuleOf(table, p.key).Accept? && CAP < |p.body| < U64
    ensures ParseEntry(table, Frame(p) + c) == Fail(TooLarge(|p.body|)) && Frame(p) != [] && Frame(p)[0] != 0
  {
    hide RuleOf, ParseValue;
    var head, tail := Prefixed(KeyBody(p.key)), Prefixed(p.body);
    ByteVecCanonical();
    Concat(head, tail, c);
    assert Writes(ByteVec(), KeyBody(p.key), tail + c);
    KeyRoundTrip(p.key, []);
    OversizedValue(RuleOf(table, p.key).codec, p.body, c);
    SizeNonZero(|KeyBody(p.key)|);
  }

  function EmbeddedSize(v: PsbtV0): nat { |Enc(UnsignedTxCodec, Unsigned(EmbeddedTx(v)))| }

  lemma UnsignedKey()
    ensures KeyFits(Key(UNSIGNED_TX, []))
    ensures RuleOf(GlobalV0, Key(UNSIGNED_TX, [])).Accept?
    ensures RuleOf(GlobalV0, Key(UNSIGNED_TX, [])).codec == UnsignedTxCodec
  {
    assert KeyBody(Key(UNSIGNED_TX, [])) == [0];
  }

  lemma EntryFails(table: Table, b: bytes)
    requires b != [] && b[0] != 0 && ParseEntry(table, b).Fail?
    ensures ParseMap(table, map[], b).Fail?
  {
  }

  /** An embedded transaction longer than the length cap is refused at its length prefix. */
  lemma OversizedRefused(v: PsbtV0, c: bytes)
    requires CAP < EmbeddedSize(v) < U64
    ensures !ParseV0(SerializeV0(v) + c).Ready?
  {
    var k, value := Key(UNSIGNED_TX, []), Unsigned(EmbeddedTx(v));
    var p, lists := PairOf(GlobalV0, k, value), ListsBytes(v.psbt.inputs, v.psbt.outputs);
    UnsignedKey();
    assert p == Pair(k, Enc(UnsignedTxCodec, value));
    var tail := GlobalStarts(v);
    SerializedV0(v);
    assert MapsBytesV0(v) == EncodeGlobalV0(v) + lists;
    hide *;
    OversizedEntry(GlobalV0, p, tail + lists + c);
    Concat(MAGIC + [SEPARATOR], MapsBytesV0(v), c);
    Concat(EncodeGlobalV0(v), lists, c);
    Concat(Frame(p), tail, lists + c);
    Concat(tail, lists, c);
    var b := Frame(p) + (tail + lists + c);
    assert MapsBytesV0(v) + c == b;
    assert b[0] == Frame(p)[0];
    EntryFails(GlobalV0, b);
    GlobalRefused(b);
    HeaderStage(b);
    ShiftReady(ParseMapsV0(b), 5);
  }

  lemma GlobalRefused(b: bytes)
    requires ParseMap(GlobalV0, map[], b).Fail?
    ensures !ParseMapsV0(b).Ready?
  {
    hide ParseMap, ParseInputsV0;
  }

  lemma FittingDecodable(p: Psbt, v: PsbtV0, c: bytes)
    requires PsbtOk(p) && v.psbt == p && G.UnsignedFits(EmbeddedTx(v))
    ensures ParseV0(SerializeV0(v) + c).Ready? <==> Demotable(p)
    ensures Demotable(p) ==> ParseV0(SerializeV0(v) + c) == Ready(Demoted(v), |SerializeV0(v)|)
  {
    hide *;
    SerializedV0(v);
    assert |SerializeV0(v)| == 5 + |MapsBytesV0(v)| by { MagicLength(); }
    Concat(MAGIC + [SEPARATOR], MapsBytesV0(v), c);
    MapsExact(p, v, c);
    HeaderStage(MapsBytesV0(v) + c);
    ShiftReady(ParseMapsV0(MapsBytesV0(v) + c), 5);
  }

  lemma MagicLength()
    ensures |MAGIC + [SEPARATOR]| == 5
  {
  }

  /**
   * Exactly which well-formed PSBTs decode again from their version-0 bytes, and to what: those
   * without preimages or proprietary pairs in inputs and without proprietary pairs in outputs, whose
   * embedded transaction is within the length cap. (That its length is a 64-bit number is what the
   * machine guarantees.)
   */
  lemma DecodableIff(p: Psbt, c: bytes)
    requires PsbtOk(p) && FromPsbt(p).Ok? && EmbeddedSize(FromPsbt(p).value) < U64
    ensures ParseV0(SerializeV0(FromPsbt(p).value) + c).Ready?
       <==> Demotable(p) && EmbeddedSize(FromPsbt(p).value) <= CAP
    ensures Demotable(p) && EmbeddedSize(FromPsbt(p).value) <= CAP ==>
              ParseV0(SerializeV0(FromPsbt(p).value) + c)
              == Ready(Demoted(FromPsbt(p).value), |SerializeV0(FromPsbt(p).value)|)
  {
    var v := FromPsbt(p).value;
    assert v.psbt == p;
    EmbeddedOk(p);
    assert EmbeddedSize(v) <= CAP ==> G.UnsignedFits(EmbeddedTx(v));
    hide *;
    if EmbeddedSize(v) <= CAP { FittingDecodable(p, v, c); } else { OversizedRefused(v, c); }
  }

  /* ----- field by field ----- */

  /** The embedded transaction of a PSBT, and the one it stands for, spend and pay the same. */
  lemma EmbeddedIs(p: Psbt)
    requires FromPsbt(p).Ok?
    ensures var v, t := FromPsbt(p).value, EmbeddedTx(FromPsbt(p).value);
      && v.psbt == p && t.version == p.global.txVersion && LockTimeOf(p) == Ok(t.lockTime)
      && |t.inputs| == |p.inputs| && |t.outputs| == |p.outputs|
      && (forall k | 0 <= k < |p.inputs| :: t.inputs[k] ==
            UnsignedIn(p.inputs[k].previousTxid, p.inputs[k].spentOutputIndex,
                       if p.inputs[k].sequence.Some? then p.inputs[k].sequence.value else 0xFFFF_FFFF))
      && (forall k | 0 <= k < |p.outputs| :: t.outputs[k] == TxOut(p.outputs[k].amount, p.outputs[k].scriptPubkey))
  {
    hide DetermineLockTime;
  }

  /** Locking to version 0 fails for the lock time alone. */
  lemma LockedIff(p: Psbt)
    ensures FromPsbt(p) == match LockTimeOf(p) case Ok(lock) => Ok(PsbtV0(p, lock)) case Err(e) => Err(e)
  {
    hide DetermineLockTime;
  }

  /** An input that says what the transaction says, and nothing about when it may be spent. */
  predicate SaysOf(u: UnsignedIn, i: I.Input) {
    && i.previousTxid == u.txid && i.spentOutputIndex == u.vout && i.sequence == Some(u.sequence)
    && i.minTime == None && i.minHeight == None
  }

  /**
   * Every PSBT read as version 0 is of version 2, with counts that are its lengths, no flags, no lock
   * requirements and a sequence for every input; all it says of the transaction is what the embedded
   * one says, and a lock time of zero is none.
   */
  lemma ReadAsVersionTwo(b: bytes)
    requires ParseV0(b).Ready?
    ensures |b| >= 5 && ParseGlobalV0(b[5..]).Ready?
    ensures var q, info := ParseV0(b).value, ParseGlobalV0(b[5..]).value;
      && q.global.version == 2 && q.global.txModifiableFlags == 0 && q.global.fields == info.fields
      && q.global.txVersion == info.utx.version
      && q.global.fallbackLockTime == (if info.utx.lockTime == 0 then None else Some(info.utx.lockTime))
      && q.global.inputCount == |q.inputs| == |info.utx.inputs|
      && q.global.outputCount == |q.outputs| == |info.utx.outputs|
      && (forall k | 0 <= k < |q.inputs| :: SaysOf(info.utx.inputs[k], q.inputs[k]))
      && (forall k | 0 <= k < |q.outputs| ::
            TxOut(q.outputs[k].amount, q.outputs[k].scriptPubkey) == info.utx.outputs[k])
  {
    hide ParseV0, ParseGlobalV0;
    var info, ins, outs := ReadIsAssembled(b);
  }

  /**
   * What a well-formed PSBT comes back as: everything its maps carry but the redeem scripts of outputs,
   * sequences explicit, flags and lock requirements gone, the resolved lock time in the fallback.
   */
  lemma DemotedIs(p: Psbt)
    requires FromPsbt(p).Ok?
    ensures var q := Demoted(FromPsbt(p).value);
      && q.global == p.global.(version := 2, txModifiableFlags := 0, inputCount := |p.inputs|, outputCount := |p.outputs|,
           fallbackLockTime := if LockTimeOf(p) == Ok(0) then None else Some(LockTimeOf(p).value))
      && |q.inputs| == |p.inputs| && |q.outputs| == |p.outputs|
      && (forall k | 0 <= k < |p.inputs| :: q.inputs[k] == p.inputs[k].(
           sequence := Some(if p.inputs[k].sequence.Some? then p.inputs[k].sequence.value else 0xFFFF_FFFF),
           minTime := None, minHeight := None))
      && (forall k | 0 <= k < |p.outputs| ::
            q.outputs[k] == p.outputs[k].(fields := p.outputs[k].fields.(redeemScript := None)))
  {
    hide DetermineLockTime;
    var v := FromPsbt(p).value;
    var info := GlobalInfo(EmbeddedTx(v), v.psbt.global.fields);
    var ins, outs := Mapped(DemotedInput, p.inputs), Mapped(DemotedOutput, p.outputs);
    EmbeddedIs(p);
    forall k | 0 <= k < |p.inputs| ensures ins[k] == p.inputs[k].fields { }
    forall k | 0 <= k < |p.outputs| ensures outs[k] == p.outputs[k].fields.(redeemScript := None) { }
    hide DemotedInput, DemotedOutput, Mapped, EmbeddedTx;
    assert Demoted(v) == Assemble(info, ins, outs);
    hide Demoted;
    assert forall k | 0 <= k < |p.inputs| :: Assemble(info, ins, outs).inputs[k] == IntoInput(info.utx.inputs[k], ins[k]);
    assert forall k | 0 <= k < |p.outputs| ::
      Assemble(info, ins, outs).outputs[k] == IntoOutput(info.utx.outputs[k], outs[k]);
  }
}
