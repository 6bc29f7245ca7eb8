/** The push decoder of a whole version-0 PSBT (BIP-174). */
module V0Decoder {
  import opened Bytes
  import opened CompactSize
  import opened Formats
  import opened ValueDecoders
  import opened Tables
  import opened Maps
  import opened MapDecoder
  import opened MapsDecoder
  import opened Psbt
  import opened V0
  import I = Input
  import O = Output

  /* ----- more input never changes a verdict ----- */

  ghost function GlobalV0Format(): Format<GlobalInfo> {
    Format(ParseGlobalV0, (g: GlobalInfo) => [], (g: GlobalInfo) => true)
  }
  ghost function InputV0Format(): Format<I.InputFields> {
    Format(ParseInputV0, (f: I.InputFields) => [], (f: I.InputFields) => true)
  }
  ghost function OutputV0Format(): Format<O.OutputFields> {
    Format(ParseOutputV0, (f: O.OutputFields) => [], (f: O.OutputFields) => true)
  }

  lemma MapsStreamV0()
    ensures forall b, c :: Streams(GlobalV0Format(), b, c)
    ensures forall b, c :: Streams(InputV0Format(), b, c)
    ensures forall b, c :: Streams(OutputV0Format(), b, c)
  {
    hide ParseRecord;
    forall b, c ensures Streams(GlobalV0Format(), b, c) { RecordStreams(GlobalV0, BuildGlobalV0, b, c); }
    forall b, c ensures Streams(InputV0Format(), b, c) { RecordStreams(InputV0, BuildInputV0, b, c); }
    forall b, c ensures Streams(OutputV0Format(), b, c) { RecordStreams(OutputV0, BuildOutputV0, b, c); }
  }

  lemma PsbtV0Settled(b: bytes, c: bytes)
    ensures ParseV0(b) != More ==> ParseV0(b + c) == ParseV0(b)
    ensures ParseV0(b).Ready? ==> ParseV0(b).used <= |b|
  {
    hide ParseMapsV0;
    if |b| >= 4 { assert (b + c)[..4] == b[..4]; }
    if |b| >= 5 {
      Split(b, c, 5);
      MapsV0Settled(b[5..], c);
    }
  }

  lemma MapsV0Settled(b: bytes, c: bytes)
    ensures ParseMapsV0(b) != More ==> ParseMapsV0(b + c) == ParseMapsV0(b)
    ensures ParseMapsV0(b).Ready? ==> ParseMapsV0(b).used <= |b|
  {
    hide ParseGlobalV0, ParseInputsV0;
    MapsStreamV0();
    assert Streams(GlobalV0Format(), b, c);
    if ParseGlobalV0(b).Ready? {
      var Ready(info, k) := ParseGlobalV0(b);
      Split(b, c, k);
      InputsV0Settled(info, b[k..], c);
    }
  }

  lemma InputsV0Settled(info: GlobalInfo, b: bytes, c: bytes)
    ensures ParseInputsV0(info, b) != More ==> ParseInputsV0(info, b + c) == ParseInputsV0(info, b)
    ensures ParseInputsV0(info, b).Ready? ==> ParseInputsV0(info, b).used <= |b|
  {
    hide ParseInputV0, ParseOutputsV0, ParseMany;
    MapsStreamV0();
    ManyStreams(InputV0Format(), |info.utx.inputs|, b, c);
    if ParseMany(ParseInputV0, |info.utx.inputs|, b).Ready? {
      var Ready(ins, k) := ParseMany(ParseInputV0, |info.utx.inputs|, b);
      Split(b, c, k);
      if |ins| == |info.utx.inputs| { OutputsV0Settled(info, ins, b[k..], c); }
    }
  }

  lemma OutputsV0Settled(info: GlobalInfo, ins: seq<I.InputFields>, b: bytes, c: bytes)
    requires |ins| == |info.utx.inputs|
    ensures ParseOutputsV0(info, ins, b) != More ==> ParseOutputsV0(info, ins, b + c) == ParseOutputsV0(info, ins, b)
    ensures ParseOutputsV0(info, ins, b).Ready? ==> ParseOutputsV0(info, ins, b).used <= |b|
  {
    hide ParseOutputV0, ParseMany, Assemble;
    MapsStreamV0();
    ManyStreams(OutputV0Format(), |info.utx.outputs|, b, c);
    if ParseMany(ParseOutputV0, |info.utx.outputs|, b).Ready? {
      ManyCount(ParseOutputV0, |info.utx.outputs|, b);
    }
  }

  /* ----- the decoder ----- */

  datatype PsbtStage =
    | MagicStage(fed: bytes)
    | SeparatorStage
    | GlobalStage(globalDecoder: MapDecoder)
    | InputsStage(global: GlobalInfo, inputsDecoder: MapsDecoder<I.InputFields>)
    | OutputsStage(global: GlobalInfo, inputs: seq<I.InputFields>, outputsDecoder: MapsDecoder<O.OutputFields>)
    | PsbtDone(psbt: Psbt)
    | PsbtErrored

  function StageRank(s: PsbtStage): nat {
    match s
    case MagicStage(_) => 5
    case SeparatorStage => 4
    case GlobalStage(_) => 3
    case InputsStage(_, _) => 2
    case OutputsStage(_, _, _) => 1
    case _ => 0
  }

  /** What a stage leaves to be done of the whole. */
  ghost predicate MapsLeft(base: bytes) {
    forall x {:trigger ParseMapsV0(x)} :: ParseV0(base + x) == Shift(ParseMapsV0(x), |base|)
  }

  ghost predicate InputsLeft(base: bytes, g: GlobalInfo) {
    forall x {:trigger ParseInputsV0(g, x)} :: ParseV0(base + x) == Shift(ParseInputsV0(g, x), |base|)
  }

  ghost predicate OutputsLeft(base: bytes, g: GlobalInfo, ins: seq<I.InputFields>)
    requires |ins| == |g.utx.inputs|
  {
    forall x {:trigger ParseOutputsV0(g, ins, x)} :: ParseV0(base + x) == Shift(ParseOutputsV0(g, ins, x), |base|)
  }

  lemma HeaderRead()
    ensures MapsLeft(MAGIC + [SEPARATOR])
  {
    hide ParseMapsV0;
    var head := MAGIC + [SEPARATOR];
    forall x: bytes ensures ParseV0(head + x) == Shift(ParseMapsV0(x), |head|) {
      assert (head + x)[..4] == MAGIC && (head + x)[5..] == x;
    }
  }

  lemma SeparatorVerdict(x: byte)
    ensures ParseV0(MAGIC) == More
    ensures x != SEPARATOR ==> ParseV0(MAGIC + [x]) == Fail(InvalidSeparator)
  {
    hide ParseMapsV0;
    assert MAGIC[..4] == MAGIC && (MAGIC + [x])[..4] == MAGIC;
  }

  lemma GlobalReadOff(base: bytes, q: bytes, r: Record)
    requires MapsLeft(base) && ParseMap(GlobalV0, map[], q) == Ready(r, |q|)
    ensures InputsLeft(base + q, BuildGlobalV0(r))
  {
    hide ParseV0, ParseInputsV0, ParseMap, BuildGlobalV0;
    forall x: bytes ensures ParseV0(base + q + x) == Shift(ParseInputsV0(BuildGlobalV0(r), x), |base + q|) {
      Concat(base, q, x);
      MapSettled(GlobalV0, map[], q, x);
      assert (q + x)[|q|..] == x;
      assert ParseV0(base + (q + x)) == Shift(ParseMapsV0(q + x), |base|);
    }
  }

  lemma GlobalPending(base: bytes, q: bytes)
    requires MapsLeft(base)
    ensures ParseMap(GlobalV0, map[], q) == More ==> ParseV0(base + q) == More
    ensures ParseMap(GlobalV0, map[], q).Fail? ==> ParseV0(base + q) == Fail(ParseMap(GlobalV0, map[], q).error)
  {
    hide ParseV0, ParseInputsV0, ParseMap, BuildGlobalV0;
    assert ParseV0(base + q) == Shift(ParseMapsV0(q), |base|);
  }

  lemma InputsReadOff(base: bytes, g: GlobalInfo, q: bytes, ins: seq<I.InputFields>)
    requires InputsLeft(base, g) && ParseMany(ParseInputV0, |g.utx.inputs|, q) == Ready(ins, |q|)
    ensures |ins| == |g.utx.inputs| && OutputsLeft(base + q, g, ins)
  {
    ManyCount(ParseInputV0, |g.utx.inputs|, q);
    hide ParseV0, ParseInputsV0, ParseOutputsV0, ParseMany, ParseInputV0, InputsLeft, Shift;
    forall x: bytes ensures ParseV0(base + q + x) == Shift(ParseOutputsV0(g, ins, x), |base + q|) {
      OutputsLeftAt(base, g, q, ins, x);
    }
  }

  lemma OutputsLeftAt(base: bytes, g: GlobalInfo, q: bytes, ins: seq<I.InputFields>, x: bytes)
    requires |ins| == |g.utx.inputs|
    requires InputsLeft(base, g) && ParseMany(ParseInputV0, |g.utx.inputs|, q) == Ready(ins, |q|)
    ensures ParseV0(base + q + x) == Shift(ParseOutputsV0(g, ins, x), |base + q|)
  {
    hide ParseV0, ParseInputsV0, ParseOutputsV0, ParseMany, ParseInputV0, InputsLeft;
    Concat(base, q, x);
    InputsThenOutputs(g, q, ins, x);
    InputsLeftAt(base, g, q + x);
  }

  lemma InputsLeftAt(base: bytes, g: GlobalInfo, x: bytes)
    requires InputsLeft(base, g)
    ensures ParseV0(base + x) == Shift(ParseInputsV0(g, x), |base|)
  {
    hide ParseV0, ParseInputsV0;
  }

  lemma InputsThenOutputs(g: GlobalInfo, q: bytes, ins: seq<I.InputFields>, x: bytes)
    requires |ins| == |g.utx.inputs| && ParseMany(ParseInputV0, |g.utx.inputs|, q) == Ready(ins, |q|)
    ensures ParseInputsV0(g, q + x) == Shift(ParseOutputsV0(g, ins, x), |q|)
  {
    MapsStreamV0();
    hide ParseInputsV0, ParseOutputsV0, ParseMany, ParseInputV0, Streams;
    ManyStreams(InputV0Format(), |g.utx.inputs|, q, x);
    assert (q + x)[|q|..] == x;
    V0.InputsStage(g, q + x);
  }

  lemma InputsPending(base: bytes, g: GlobalInfo, q: bytes)
    requires InputsLeft(base, g)
    ensures ParseMany(ParseInputV0, |g.utx.inputs|, q) == More ==> ParseV0(base + q) == More
    ensures ParseMany(ParseInputV0, |g.utx.inputs|, q).Fail?
            ==> ParseV0(base + q) == Fail(ParseMany(ParseInputV0, |g.utx.inputs|, q).error)
  {
    hide ParseV0, ParseOutputsV0, ParseMany, ParseInputV0;
    assert ParseV0(base + q) == Shift(ParseInputsV0(g, q), |base|);
  }

  lemma OutputsReadOff(base: bytes, g: GlobalInfo, ins: seq<I.InputFields>, q: bytes)
    requires |ins| == |g.utx.inputs| && OutputsLeft(base, g, ins)
    ensures ParseMany(ParseOutputV0, |g.utx.outputs|, q).Ready? ==>
      |ParseMany(ParseOutputV0, |g.utx.outputs|, q).value| == |g.utx.outputs|
    ensures match ParseMany(ParseOutputV0, |g.utx.outputs|, q)
            case More => ParseV0(base + q) == More
            case Fail(e) => ParseV0(base + q) == Fail(e)
            case Ready(outs, k) => ParseV0(base + q) == Ready(Assemble(g, ins, outs), |base| + k)
  {
    hide ParseV0, ParseMany, ParseOutputV0, Assemble;
    if ParseMany(ParseOutputV0, |g.utx.outputs|, q).Ready? { ManyCount(ParseOutputV0, |g.utx.outputs|, q); }
    assert ParseV0(base + q) == Shift(ParseOutputsV0(g, ins, q), |base|);
  }

  lemma NoInputs(base: bytes, g: GlobalInfo)
    requires InputsLeft(base, g) && |g.utx.inputs| == 0
    ensures OutputsLeft(base, g, [])
  {
    hide InputsLeft, OutputsLeft;
    assert ParseMany(ParseInputV0, 0, []) == Ready([], 0);
    assert base + [] == base;
    InputsReadOff(base, g, [], []);
  }

  lemma NoOutputs(base: bytes, g: GlobalInfo, ins: seq<I.InputFields>)
    requires |ins| == |g.utx.inputs| && OutputsLeft(base, g, ins) && |g.utx.outputs| == 0
    ensures ParseV0(base) == Ready(Assemble(g, ins, []), |base|)
  {
    hide OutputsLeft, ParseV0, Assemble;
    assert ParseMany(ParseOutputV0, 0, []) == Ready([], 0);
    assert base + [] == base;
    OutputsReadOff(base, g, ins, []);
  }

  class PsbtV0Decoder {
    var stage: PsbtStage
    ghost var repr: set<object>
    ghost var base: bytes
    ghost var seen: bytes

    ghost predicate Valid()
      reads this, repr
    {
      && this in repr
      && match stage
         case MagicStage(fed) => seen == fed && |fed| < 4
         case SeparatorStage => seen == MAGIC
         case GlobalStage(d) =>
           && d in repr && d.Repr() <= repr - {this}
           && d.Valid() && !d.Done() && d.table == GlobalV0
           && MapsLeft(base) && seen == base + d.seen
         case InputsStage(g, d) =>
           && d in repr && d.current in repr && d.Repr() <= repr - {this}
           && d.Valid() && d.parse == ParseInputV0 && d.count == |g.utx.inputs|
           && InputsLeft(base, g) && seen == base + d.seen
         case OutputsStage(g, ins, d) =>
           && d in repr && d.current in repr && d.Repr() <= repr - {this}
           && d.Valid() && d.parse == ParseOutputV0 && d.count == |g.utx.outputs|
           && |ins| == |g.utx.inputs| && OutputsLeft(base, g, ins) && seen == base + d.seen
         case PsbtDone(p) => ParseV0(seen) == Ready(p, |seen|)
         case PsbtErrored => false
    }

    constructor ()
      ensures Valid() && seen == [] && stage.MagicStage? && fresh(repr)
    {
      stage, base, seen := MagicStage([]), [], [];
      repr := {this};
    }

    method TurnMagic(b: bytes) returns (used: nat, status: Status)
      requires Valid() && stage.MagicStage?
      modifies this
      ensures used <= |b| && seen == old(seen) + b[..used] && repr == old(repr)
      ensures status.NeedsMore? ==> used == |b| && Valid() && ParseV0(seen) == More && stage.MagicStage?
      ensures status.Finished? ==> Valid() && stage.SeparatorStage?
      ensures status.Failed? ==> ParseV0(seen) == Fail(status.error)
    {
      hide ParseV0, MapsLeft, InputsLeft, OutputsLeft, MapDecoder.Valid, MapsDecoder.Valid, MapsDecoder.Done;
      var fed := stage.fed;
      used := Min(4 - |fed|, |b|);
      fed := fed + b[..used];
      seen := fed;
      MagicVerdict(fed);
      if |fed| < 4 {
        stage := MagicStage(fed);
        return used, NeedsMore;
      }
      if fed != MAGIC {
        stage := PsbtErrored;
        return used, Failed(InvalidMagic);
      }
      stage := SeparatorStage;
      status := Finished;
    }

    static lemma MagicVerdict(b: bytes)
      ensures |b| < 4 ==> ParseV0(b) == More
      ensures |b| == 4 ==> ParseV0(b) == if b == MAGIC then More else Fail(InvalidMagic)
    {
      hide ParseMapsV0;
      assert b[..|b|] == b;
    }

    method TurnSeparator(b: bytes) returns (used: nat, status: Status)
      requires Valid() && stage.SeparatorStage?
      modifies this
      ensures used <= |b| && seen == old(seen) + b[..used]
      ensures fresh(repr - old(repr))
      ensures status.NeedsMore? ==> used == |b| && Valid() && ParseV0(seen) == More && stage.SeparatorStage?
      ensures status.Finished? ==> Valid() && stage.GlobalStage?
      ensures status.Failed? ==> ParseV0(seen) == Fail(status.error)
    {
      hide ParseV0, MapsLeft, InputsLeft, OutputsLeft, MapDecoder.Valid, MapsDecoder.Valid, MapsDecoder.Done,
           ParseInputV0, ParseOutputV0;
      if b != [] { SeparatorVerdict(b[0]); } else { SeparatorVerdict(0); }
      if b == [] { return 0, NeedsMore; }
      used := 1;
      seen := seen + [b[0]];
      if b[0] != SEPARATOR {
        stage := PsbtErrored;
        return 1, Failed(InvalidSeparator);
      }
      HeaderRead();
      base := seen;
      var d := new MapDecoder(GlobalV0);
      stage := GlobalStage(d);
      repr := repr + {d} + d.Repr();
      assert base + [] == base;
      status := Finished;
    }

    method TurnGlobal(b: bytes) returns (used: nat, status: Status)
      requires Valid() && stage.GlobalStage?
      modifies repr
      ensures used <= |b| && seen == old(seen) + b[..used]
      ensures fresh(repr - old(repr))
      ensures status.NeedsMore? ==> used == |b| && Valid() && ParseV0(seen) == More && stage.GlobalStage?
      ensures status.Finished? ==> Valid() && StageRank(stage) <= 2
      ensures status.Failed? ==> ParseV0(seen) == Fail(status.error)
    {
      hide ParseV0, ParseMap, MapsLeft, InputsLeft, MapDecoder.Valid, MapsDecoder.Valid;
      var d := stage.globalDecoder;
      ghost var before := d.seen;
      used, status := d.PushBytes(b);
      Concat(base, before, b[..used]);
      seen := base + d.seen;
      repr := repr + d.Repr();
      GlobalPending(base, d.seen);
      if status.Failed? { stage := PsbtErrored; }
      if status.Finished? { EndGlobal(d); }
    }

    /** A transaction without inputs goes straight on to the outputs. */
    method EndGlobal(d: MapDecoder)
      requires this in repr && d.Valid() && d.Done() && d.table == GlobalV0
      requires MapsLeft(base) && seen == base + d.seen && d.Repr() <= repr - {this}
      modifies this
      ensures Valid() && StageRank(stage) <= 2 && seen == old(seen) && fresh(repr - old(repr))
    {
      hide ParseV0, ParseMap, MapsLeft, InputsLeft, OutputsLeft, MapsDecoder.Valid, MapDecoder.Valid, BuildGlobalV0,
           MapsDecoder.Done, ParseMany, ParseOutputV0;
      d.DoneVerdict();
      var r := d.stage.record;
      GlobalReadOff(base, d.seen, r);
      var g := BuildGlobalV0(r);
      base := seen;
      assert base + [] == base;
      if |g.utx.inputs| == 0 {
        NoInputs(base, g);
        StartOutputs(g, []);
      } else {
        StartInputs(g);
      }
    }

    method StartInputs(g: GlobalInfo)
      requires this in repr && |g.utx.inputs| > 0 && InputsLeft(base, g) && seen == base
      modifies this
      ensures Valid() && StageRank(stage) <= 2 && seen == old(seen) && fresh(repr - old(repr))
    {
      hide ParseV0, InputsLeft, OutputsLeft, MapsLeft, MapsDecoder.Valid, MapDecoder.Valid, ParseMany;
      assert base + [] == base;
      var ins := new MapsDecoder<I.InputFields>(InputV0, BuildInputV0, ParseInputV0, |g.utx.inputs|);
      stage := InputsStage(g, ins);
      repr := repr + ins.Repr();
    }

    /** One without outputs is done. */
    method StartOutputs(g: GlobalInfo, ins: seq<I.InputFields>)
      requires this in repr && |ins| == |g.utx.inputs| && OutputsLeft(base, g, ins) && seen == base
      modifies this
      ensures Valid() && StageRank(stage) <= 1 && seen == old(seen) && fresh(repr - old(repr))
    {
      hide ParseV0, OutputsLeft, MapsDecoder.Valid, ParseMany;
      assert base + [] == base;
      if |g.utx.outputs| == 0 {
        NoOutputs(base, g, ins);
        stage := PsbtDone(Assemble(g, ins, []));
      } else {
        var outs := new MapsDecoder<O.OutputFields>(OutputV0, BuildOutputV0, ParseOutputV0, |g.utx.outputs|);
        stage := OutputsStage(g, ins, outs);
        repr := repr + outs.Repr();
      }
    }

    method TurnInputs(b: bytes) returns (used: nat, status: Status)
      requires Valid() && stage.InputsStage?
      modifies repr
      ensures used <= |b| && seen == old(seen) + b[..used]
      ensures fresh(repr - old(repr))
      ensures status.NeedsMore? ==> used == |b| && Valid() && ParseV0(seen) == More && stage.InputsStage?
      ensures status.Finished? ==> Valid() && StageRank(stage) <= 1
      ensures status.Failed? ==> ParseV0(seen) == Fail(status.error)
    {
      hide ParseV0, ParseMany, InputsLeft, OutputsLeft, MapsLeft, MapDecoder.Valid, MapsDecoder.Valid, MapsDecoder.Done,
           ParseInputV0, ParseOutputV0;
      var d, g := stage.inputsDecoder, stage.global;
      ghost var before := d.seen;
      used, status := d.PushBytes(b);
      Concat(base, before, b[..used]);
      seen := base + d.seen;
      repr := repr + d.Repr();
      InputsPending(base, g, d.seen);
      if status.Failed? { stage := PsbtErrored; }
      if status.Finished? { EndInputs(g, d); }
    }

    method EndInputs(g: GlobalInfo, d: MapsDecoder<I.InputFields>)
      requires this in repr && d.Valid() && d.Done() && d.parse == ParseInputV0 && d.count == |g.utx.inputs|
      requires InputsLeft(base, g) && seen == base + d.seen && d.Repr() <= repr - {this}
      modifies this
      ensures Valid() && StageRank(stage) <= 1 && seen == old(seen) && fresh(repr - old(repr))
    {
      hide ParseV0, ParseMany, InputsLeft, OutputsLeft, MapsDecoder.Valid, MapsDecoder.Done;
      d.Verdict();
      InputsReadOff(base, g, d.seen, d.items);
      base := seen;
      StartOutputs(g, d.items);
    }

    method TurnOutputs(b: bytes) returns (used: nat, status: Status)
      requires Valid() && stage.OutputsStage?
      modifies repr
      ensures used <= |b| && seen == old(seen) + b[..used]
      ensures fresh(repr - old(repr))
      ensures status.NeedsMore? ==> used == |b| && Valid() && ParseV0(seen) == More && stage.OutputsStage?
      ensures status.Finished? ==> Valid() && stage.PsbtDone?
      ensures status.Failed? ==> ParseV0(seen) == Fail(status.error)
    {
      hide ParseV0, ParseMany, OutputsLeft, InputsLeft, MapsLeft, MapDecoder.Valid, MapsDecoder.Valid, MapsDecoder.Done,
           ParseInputV0, ParseOutputV0;
      var d, g, ins := stage.outputsDecoder, stage.global, stage.inputs;
      ghost var before := d.seen;
      used, status := d.PushBytes(b);
      Concat(base, before, b[..used]);
      seen := base + d.seen;
      repr := repr + d.Repr();
      OutputsReadOff(base, g, ins, d.seen);
      if status.Failed? { stage := PsbtErrored; }
      if status.Finished? {
        d.Verdict();
        assert |d.items| == |g.utx.outputs|;
        stage := PsbtDone(Assemble(g, ins, d.items));
      }
    }

    method Turn(b: bytes) returns (used: nat, status: Status)
      requires Valid() && !stage.PsbtDone?
      modifies repr
      ensures used <= |b| && seen == old(seen) + b[..used]
      ensures fresh(repr - old(repr))
      ensures status.NeedsMore? ==> used == |b| && Valid() && ParseV0(seen) == More && !stage.PsbtDone?
      ensures status.Finished? ==> Valid() && StageRank(stage) < StageRank(old(stage))
      ensures status.Failed? ==> ParseV0(seen) == Fail(status.error)
    {
      hide ParseV0, ParseMany, ParseMap, MapsLeft, InputsLeft, OutputsLeft, MapDecoder.Valid, MapsDecoder.Valid;
      match stage
      case MagicStage(_) => used, status := TurnMagic(b);
      case SeparatorStage => used, status := TurnSeparator(b);
      case GlobalStage(_) => used, status := TurnGlobal(b);
      case InputsStage(_, _) => used, status := TurnInputs(b);
      case OutputsStage(_, _, _) => used, status := TurnOutputs(b);
    }

    lemma DoneVerdict()
      requires Valid() && stage.PsbtDone?
      ensures ParseV0(seen) == Ready(stage.psbt, |seen|)
    {
    }

    /**
     * After any push the decoder reports what the one-shot parser says of all the bytes fed so far,
     * and has taken exactly the bytes that parser uses.
     */
    method PushBytes(b: bytes) returns (used: nat, status: Status)
      requires Valid() && !stage.PsbtDone?
      modifies repr
      ensures used <= |b| && seen == old(seen) + b[..used]
      ensures fresh(repr - old(repr))
      ensures status.NeedsMore? ==> used == |b| && Valid() && ParseV0(seen) == More && !stage.PsbtDone?
      ensures status.Finished? ==> stage.PsbtDone? && ParseV0(seen) == Ready(stage.psbt, |seen|)
      ensures status.Failed? ==> ParseV0(seen) == Fail(status.error)
    {
      hide ParseV0, Valid, ParseInputV0, ParseOutputV0;
      used, status := 0, Finished;
      assert b[..0] == [];
      while status.Finished? && !stage.PsbtDone?
        invariant used <= |b| && seen == old(seen) + b[..used]
        invariant fresh(repr - old(repr))
        invariant status.NeedsMore? ==> used == |b| && Valid() && ParseV0(seen) == More && !stage.PsbtDone?
        invariant status.Finished? ==> Valid()
        invariant status.Failed? ==> ParseV0(seen) == Fail(status.error)
        decreases status.Finished?, StageRank(stage)
      {
        var k;
        k, status := Turn(b[used..]);
        Concat(old(seen), b[..used], b[used..][..k]);
        assert b[..used] + b[used..][..k] == b[..used + k];
        used := used + k;
      }
      if status.Finished? { DoneVerdict(); }
    }
  }

  /**
   * Chunk independence: feeding the decoder the pieces of a stream, however it was cut, gives what
   * parsing the whole stream at once gives: the same acceptance or error, the same PSBT, and the same
   * number of bytes used.
   */
  method DecodeChunksV0(chunks: seq<bytes>) returns (outcome: Outcome<Psbt>)
    ensures outcome == ParseV0(Join(chunks))
  {
    hide *;
    var decoder := new PsbtV0Decoder();
    var i, total := 0, 0;
    NothingYet(chunks);
    while i < |chunks|
      invariant i <= |chunks| && decoder.Valid() && !decoder.stage.PsbtDone? && fresh(decoder.repr)
      invariant total == |decoder.seen|
      invariant decoder.seen == Join(chunks[..i]) && ParseV0(decoder.seen) == More
      decreases |chunks| - i
    {
      ghost var before, rest := decoder.seen, Join(chunks[i + 1..]);
      JoinSplit(chunks, i);
      var used, status := decoder.PushBytes(chunks[i]);
      total := total + used;
      match status {
        case NeedsMore =>
          assert chunks[i][..used] == chunks[i];
          JoinPrefix(chunks, i);
        case Failed(e) =>
          SettledAt(before, chunks[i], used, rest);
          return Fail(e);
        case Finished =>
          SettledAt(before, chunks[i], used, rest);
          return Ready(decoder.stage.psbt, total);
      }
      i := i + 1;
    }
    assert chunks[..i] == chunks;
    outcome := More;
  }

  lemma NothingYet(chunks: seq<bytes>)
    ensures ParseV0([]) == More && Join(chunks[..0]) == []
  {
  }

  /** A verdict reached inside a chunk is the verdict on the whole stream. */
  lemma SettledAt(before: bytes, chunk: bytes, used: nat, rest: bytes)
    requires used <= |chunk| && ParseV0(before + chunk[..used]) != More
    ensures ParseV0(before + (chunk + rest)) == ParseV0(before + chunk[..used])
  {
    hide ParseV0;
    PsbtV0Settled(before + chunk[..used], chunk[used..] + rest);
    assert chunk == chunk[..used] + chunk[used..];
    assert before + chunk[..used] + (chunk[used..] + rest) == before + (chunk + rest);
  }
}
