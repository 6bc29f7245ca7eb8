/** The push decoder of a whole version-2 PSBT, and that how its bytes are cut plays no part. */
module PsbtDecoder {
  import opened Bytes
  import opened CompactSize
  import opened Formats
  import opened ValueDecoders
  import opened Tables
  import opened Maps
  import opened MapDecoder
  import opened MapsDecoder
  import opened Psbt
  import G = Global
  import I = Input
  import O = Output

  datatype PsbtStage =
    | MagicStage(fed: bytes)
    | SeparatorStage
    | GlobalStage(globalDecoder: MapDecoder)
    | InputsStage(global: G.Global, inputsDecoder: MapsDecoder<I.Input>)
    | OutputsStage(global: G.Global, inputs: seq<I.Input>, outputsDecoder: MapsDecoder<O.Output>)
    | PsbtDone(psbt: Psbt)
    | PsbtErrored

  function StageRank(s: PsbtStage): nat {
    match s
    case MagicStage(_) => 5
    case SeparatorStage => 4
    case GlobalStage(_) => 3
    case InputsStage(_, _) => 2
    case OutputsStage(_, _, _) => 1
    case _ => 0
  }

  /** What a stage leaves to be done of the whole. */
  ghost predicate MapsLeft(base: bytes) {
    forall x {:trigger ParseMaps(x)} :: ParsePsbt(base + x) == Shift(ParseMaps(x), |base|)
  }

  ghost predicate InputsLeft(base: bytes, g: G.Global) {
    forall x {:trigger ParseInputs(g, x)} :: ParsePsbt(base + x) == Shift(ParseInputs(g, x), |base|)
  }

  ghost predicate OutputsLeft(base: bytes, g: G.Global, ins: seq<I.Input>) {
    forall x {:trigger ParseOutputs(g, ins, x)} :: ParsePsbt(base + x) == Shift(ParseOutputs(g, ins, x), |base|)
  }

  lemma HeaderRead()
    ensures MapsLeft(MAGIC + [SEPARATOR])
  {
    hide ParseMaps;
    var head := MAGIC + [SEPARATOR];
    forall x: bytes ensures ParsePsbt(head + x) == Shift(ParseMaps(x), |head|) {
      assert (head + x)[..4] == MAGIC && (head + x)[5..] == x;
    }
  }

  lemma SeparatorVerdict(x: byte)
    ensures ParsePsbt(MAGIC) == More
    ensures x != SEPARATOR ==> ParsePsbt(MAGIC + [x]) == Fail(InvalidSeparator)
  {
    hide ParseMaps;
    assert MAGIC[..4] == MAGIC && (MAGIC + [x])[..4] == MAGIC;
  }

  lemma GlobalReadOff(base: bytes, q: bytes, r: Record)
    requires MapsLeft(base) && ParseMap(GlobalV2, map[], q) == Ready(r, |q|)
    ensures InputsLeft(base + q, G.BuildGlobal(r))
  {
    hide ParsePsbt, ParseInputs, ParseMap, G.BuildGlobal;
    forall x: bytes ensures ParsePsbt(base + q + x) == Shift(ParseInputs(G.BuildGlobal(r), x), |base + q|) {
      Concat(base, q, x);
      MapSettled(GlobalV2, map[], q, x);
      assert (q + x)[|q|..] == x;
      assert ParsePsbt(base + (q + x)) == Shift(ParseMaps(q + x), |base|);
    }
  }

  lemma GlobalPending(base: bytes, q: bytes)
    requires MapsLeft(base)
    ensures ParseMap(GlobalV2, map[], q) == More ==> ParsePsbt(base + q) == More
    ensures ParseMap(GlobalV2, map[], q).Fail? ==> ParsePsbt(base + q) == Fail(ParseMap(GlobalV2, map[], q).error)
  {
    hide ParsePsbt, ParseInputs, ParseMap, G.BuildGlobal;
    assert ParsePsbt(base + q) == Shift(ParseMaps(q), |base|);
  }

  lemma InputsReadOff(base: bytes, g: G.Global, q: bytes, ins: seq<I.Input>)
    requires InputsLeft(base, g) && ParseMany(ParseInput, g.inputCount, q) == Ready(ins, |q|)
    ensures OutputsLeft(base + q, g, ins)
  {
    hide ParsePsbt, ParseOutputs, ParseMany, ParseInput;
    MapsStream();
    forall x: bytes ensures ParsePsbt(base + q + x) == Shift(ParseOutputs(g, ins, x), |base + q|) {
      Concat(base, q, x);
      ManyStreams(InputFormat(), g.inputCount, q, x);
      assert (q + x)[|q|..] == x;
      assert ParsePsbt(base + (q + x)) == Shift(ParseInputs(g, q + x), |base|);
    }
  }

  lemma InputsPending(base: bytes, g: G.Global, q: bytes)
    requires InputsLeft(base, g)
    ensures ParseMany(ParseInput, g.inputCount, q) == More ==> ParsePsbt(base + q) == More
    ensures ParseMany(ParseInput, g.inputCount, q).Fail?
            ==> ParsePsbt(base + q) == Fail(ParseMany(ParseInput, g.inputCount, q).error)
  {
    hide ParsePsbt, ParseOutputs, ParseMany, ParseInput;
    assert ParsePsbt(base + q) == Shift(ParseInputs(g, q), |base|);
  }

  lemma OutputsReadOff(base: bytes, g: G.Global, ins: seq<I.Input>, q: bytes)
    requires OutputsLeft(base, g, ins)
    ensures match ParseMany(ParseOutput, g.outputCount, q)
            case More => ParsePsbt(base + q) == More
            case Fail(e) => ParsePsbt(base + q) == Fail(e)
            case Ready(outs, k) => ParsePsbt(base + q) == Ready(Psbt(g, ins, outs), |base| + k)
  {
    hide ParsePsbt, ParseMany, ParseOutput;
    assert ParsePsbt(base + q) == Shift(ParseOutputs(g, ins, q), |base|);
  }

  class PsbtV2Decoder {
    var stage: PsbtStage
    ghost var repr: set<object>
    ghost var base: bytes
    ghost var seen: bytes

    ghost predicate Valid()
      reads this, repr
    {
      && this in repr
      && match stage
         case MagicStage(fed) => seen == fed && |fed| < 4
         case SeparatorStage => seen == MAGIC
         case GlobalStage(d) =>
           && d in repr && d.Repr() <= repr - {this}
           && d.Valid() && !d.Done() && d.table == GlobalV2
           && MapsLeft(base) && seen == base + d.seen
         case InputsStage(g, d) =>
           && d in repr && d.current in repr && d.Repr() <= repr - {this}
           && d.Valid() && d.parse == ParseInput && d.count == g.inputCount
           && InputsLeft(base, g) && seen == base + d.seen
         case OutputsStage(g, ins, d) =>
           && d in repr && d.current in repr && d.Repr() <= repr - {this}
           && d.Valid() && d.parse == ParseOutput && d.count == g.outputCount
           && OutputsLeft(base, g, ins) && seen == base + d.seen
         case PsbtDone(p) => ParsePsbt(seen) == Ready(p, |seen|)
         case PsbtErrored => false
    }

    constructor ()
      ensures Valid() && seen == [] && stage.MagicStage? && fresh(repr)
    {
      stage, base, seen := MagicStage([]), [], [];
      repr := {this};
    }

    method TurnMagic(b: bytes) returns (used: nat, status: Status)
      requires Valid() && stage.MagicStage?
      modifies this
      ensures used <= |b| && seen == old(seen) + b[..used] && repr == old(repr)
      ensures status.NeedsMore? ==> used == |b| && Valid() && ParsePsbt(seen) == More && stage.MagicStage?
      ensures status.Finished? ==> Valid() && stage.SeparatorStage?
      ensures status.Failed? ==> ParsePsbt(seen) == Fail(status.error)
    {
      hide ParsePsbt, MapsLeft, InputsLeft, OutputsLeft, MapDecoder.Valid, MapsDecoder.Valid, MapsDecoder.Done;
      var fed := stage.fed;
      used := Min(4 - |fed|, |b|);
      fed := fed + b[..used];
      seen := fed;
      MagicVerdict(fed);
      if |fed| < 4 {
        stage := MagicStage(fed);
        return used, NeedsMore;
      }
      if fed != MAGIC {
        stage := PsbtErrored;
        return used, Failed(InvalidMagic);
      }
      stage := SeparatorStage;
      status := Finished;
    }

    static lemma MagicVerdict(b: bytes)
      ensures |b| < 4 ==> ParsePsbt(b) == More
      ensures |b| == 4 ==> ParsePsbt(b) == if b == MAGIC then More else Fail(InvalidMagic)
    {
      hide ParseMaps;
      assert b[..|b|] == b;
    }

    method TurnSeparator(b: bytes) returns (used: nat, status: Status)
      requires Valid() && stage.SeparatorStage?
      modifies this
      ensures used <= |b| && seen == old(seen) + b[..used]
      ensures fresh(repr - old(repr))
      ensures status.NeedsMore? ==> used == |b| && Valid() && ParsePsbt(seen) == More && stage.SeparatorStage?
      ensures status.Finished? ==> Valid() && stage.GlobalStage?
      ensures status.Failed? ==> ParsePsbt(seen) == Fail(status.error)
    {
      hide ParsePsbt, MapsLeft, InputsLeft, OutputsLeft, MapDecoder.Valid, MapsDecoder.Valid,
           MapsDecoder.Done, ParseInput, ParseOutput;
      if b != [] { SeparatorVerdict(b[0]); } else { SeparatorVerdict(0); }
      if b == [] { return 0, NeedsMore; }
      used := 1;
      seen := seen + [b[0]];
      if b[0] != SEPARATOR {
        stage := PsbtErrored;
        return 1, Failed(InvalidSeparator);
      }
      HeaderRead();
      base := seen;
      var d := new MapDecoder(GlobalV2);
      stage := GlobalStage(d);
      repr := repr + {d} + d.Repr();
      assert base + [] == base;
      status := Finished;
    }

    method TurnGlobal(b: bytes) returns (used: nat, status: Status)
      requires Valid() && stage.GlobalStage?
      modifies repr
      ensures used <= |b| && seen == old(seen) + b[..used]
      ensures fresh(repr - old(repr))
      ensures status.NeedsMore? ==> used == |b| && Valid() && ParsePsbt(seen) == More && stage.GlobalStage?
      ensures status.Finished? ==> Valid() && stage.InputsStage?
      ensures status.Failed? ==> ParsePsbt(seen) == Fail(status.error)
    {
      hide ParsePsbt, ParseMap, MapsLeft, InputsLeft, MapDecoder.Valid, MapsDecoder.Valid;
      var d := stage.globalDecoder;
      ghost var before := d.seen;
      used, status := d.PushBytes(b);
      Concat(base, before, b[..used]);
      seen := base + d.seen;
      repr := repr + d.Repr();
      GlobalPending(base, d.seen);
      if status.Failed? { stage := PsbtErrored; }
      if status.Finished? { EndGlobal(d); }
    }

    method EndGlobal(d: MapDecoder)
      requires this in repr && d.Valid() && d.Done() && d.table == GlobalV2
      requires MapsLeft(base) && seen == base + d.seen && d.Repr() <= repr - {this}
      modifies this
      ensures Valid() && stage.InputsStage? && seen == old(seen) && fresh(repr - old(repr))
    {
      hide ParsePsbt, ParseMap, ParseRecord, MapsLeft, InputsLeft, OutputsLeft, MapsDecoder.Valid, MapDecoder.Valid,
           MapsDecoder.Done, ParseMany, G.BuildGlobal;
      d.DoneVerdict();
      var r := d.stage.record;
      GlobalReadOff(base, d.seen, r);
      var g := G.BuildGlobal(r);
      base := seen;
      StartInputs(g);
    }

    method StartInputs(g: G.Global)
      requires this in repr && InputsLeft(base, g) && seen == base
      modifies this
      ensures Valid() && stage.InputsStage? && seen == old(seen) && fresh(repr - old(repr))
    {
      hide ParsePsbt, InputsLeft, OutputsLeft, MapsLeft, MapsDecoder.Valid, MapsDecoder.Done, MapDecoder.Valid,
           ParseMany;
      assert base + [] == base;
      var ins := new MapsDecoder<I.Input>(InputV2, I.BuildInput, ParseInput, g.inputCount);
      stage := InputsStage(g, ins);
      repr := repr + ins.Repr();
    }

    method TurnInputs(b: bytes) returns (used: nat, status: Status)
      requires Valid() && stage.InputsStage?
      modifies repr
      ensures used <= |b| && seen == old(seen) + b[..used]
      ensures fresh(repr - old(repr))
      ensures status.NeedsMore? ==> used == |b| && Valid() && ParsePsbt(seen) == More && stage.InputsStage?
      ensures status.Finished? ==> Valid() && stage.OutputsStage?
      ensures status.Failed? ==> ParsePsbt(seen) == Fail(status.error)
    {
      hide ParsePsbt, ParseMany, InputsLeft, OutputsLeft, MapsLeft, MapDecoder.Valid, MapsDecoder.Valid,
           MapsDecoder.Done, ParseInput, ParseOutput;
      var d, g := stage.inputsDecoder, stage.global;
      ghost var before := d.seen;
      used, status := d.PushBytes(b);
      Concat(base, before, b[..used]);
      seen := base + d.seen;
      repr := repr + d.Repr();
      InputsPending(base, g, d.seen);
      if status.Failed? { stage := PsbtErrored; }
      if status.Finished? { EndInputs(g, d); }
    }

    method EndInputs(g: G.Global, d: MapsDecoder<I.Input>)
      requires this in repr && d.Valid() && d.Done() && d.parse == ParseInput && d.count == g.inputCount
      requires InputsLeft(base, g) && seen == base + d.seen && d.Repr() <= repr - {this}
      modifies this
      ensures Valid() && stage.OutputsStage? && seen == old(seen) && fresh(repr - old(repr))
    {
      hide ParsePsbt, ParseMany, ParseRecord, MapsLeft, InputsLeft, OutputsLeft, MapDecoder.Valid, MapsDecoder.Valid,
           MapsDecoder.Done;
      d.Verdict();
      InputsReadOff(base, g, d.seen, d.items);
      base := seen;
      var outs := new MapsDecoder<O.Output>(OutputV2, O.BuildOutput, ParseOutput, g.outputCount);
      stage := OutputsStage(g, d.items, outs);
      repr := repr + outs.Repr();
      assert base + [] == base;
    }

    method TurnOutputs(b: bytes) returns (used: nat, status: Status)
      requires Valid() && stage.OutputsStage?
      modifies repr
      ensures used <= |b| && seen == old(seen) + b[..used]
      ensures fresh(repr - old(repr))
      ensures status.NeedsMore? ==> used == |b| && Valid() && ParsePsbt(seen) == More && stage.OutputsStage?
      ensures status.Finished? ==> Valid() && stage.PsbtDone?
      ensures status.Failed? ==> ParsePsbt(seen) == Fail(status.error)
    {
      hide ParsePsbt, ParseMany, OutputsLeft, InputsLeft, MapsLeft, MapDecoder.Valid, MapsDecoder.Valid,
           MapsDecoder.Done, ParseInput, ParseOutput;
      var d, g, ins := stage.outputsDecoder, stage.global, stage.inputs;
      ghost var before := d.seen;
      used, status := d.PushBytes(b);
      Concat(base, before, b[..used]);
      seen := base + d.seen;
      repr := repr + d.Repr();
      OutputsReadOff(base, g, ins, d.seen);
      if status.Failed? { stage := PsbtErrored; }
      if status.Finished? {
        d.Verdict();
        stage := PsbtDone(Psbt(g, ins, d.items));
      }
    }

    method Turn(b: bytes) returns (used: nat, status: Status)
      requires Valid() && !stage.PsbtDone?
      modifies repr
      ensures used <= |b| && seen == old(seen) + b[..used]
      ensures fresh(repr - old(repr))
      ensures status.NeedsMore? ==> used == |b| && Valid() && ParsePsbt(seen) == More && !stage.PsbtDone?
      ensures status.Finished? ==> Valid() && StageRank(stage) < StageRank(old(stage))
      ensures status.Failed? ==> ParsePsbt(seen) == Fail(status.error)
    {
      hide ParsePsbt, ParseMany, ParseMap, MapsLeft, InputsLeft, OutputsLeft, MapDecoder.Valid, MapsDecoder.Valid;
      match stage
      case MagicStage(_) => used, status := TurnMagic(b);
      case SeparatorStage => used, status := TurnSeparator(b);
      case GlobalStage(_) => used, status := TurnGlobal(b);
      case InputsStage(_, _) => used, status := TurnInputs(b);
      case OutputsStage(_, _, _) => used, status := TurnOutputs(b);
    }

    lemma DoneVerdict()
      requires Valid() && stage.PsbtDone?
      ensures ParsePsbt(seen) == Ready(stage.psbt, |seen|)
    {
    }

    /**
     * After any push the decoder reports what the one-shot parser says of all the bytes fed so far,
     * and has taken exactly the bytes that parser uses.
     */
    method PushBytes(b: bytes) returns (used: nat, status: Status)
      requires Valid() && !stage.PsbtDone?
      modifies repr
      ensures used <= |b| && seen == old(seen) + b[..used]
      ensures fresh(repr - old(repr))
      ensures status.NeedsMore? ==> used == |b| && Valid() && ParsePsbt(seen) == More && !stage.PsbtDone?
      ensures status.Finished? ==> stage.PsbtDone? && ParsePsbt(seen) == Ready(stage.psbt, |seen|)
      ensures status.Failed? ==> ParsePsbt(seen) == Fail(status.error)
    {
      hide ParsePsbt, Valid, ParseInput, ParseOutput;
      used, status := 0, Finished;
      assert b[..0] == [];
      while status.Finished? && !stage.PsbtDone?
        invariant used <= |b| && seen == old(seen) + b[..used]
        invariant fresh(repr - old(repr))
        invariant status.NeedsMore? ==> used == |b| && Valid() && ParsePsbt(seen) == More && !stage.PsbtDone?
        invariant status.Finished? ==> Valid()
        invariant status.Failed? ==> ParsePsbt(seen) == Fail(status.error)
        decreases status.Finished?, StageRank(stage)
      {
        var k;
        k, status := Turn(b[used..]);
        Concat(old(seen), b[..used], b[used..][..k]);
        assert b[..used] + b[used..][..k] == b[..used + k];
        used := used + k;
      }
      if status.Finished? { DoneVerdict(); }
    }
  }

  /**
   * Chunk independence: feeding the decoder the pieces of a stream, however it was cut, gives what
   * parsing the whole stream at once gives: the same acceptance or error, the same PSBT, and the same
   * number of bytes used.
   */
  method DecodeChunks(chunks: seq<bytes>) returns (outcome: Outcome<Psbt>)
    ensures outcome == ParsePsbt(Join(chunks))
  {
    hide *;
    var decoder := new PsbtV2Decoder();
    var i, total := 0, 0;
    NothingYet(chunks);
    while i < |chunks|
      invariant i <= |chunks| && decoder.Valid() && !decoder.stage.PsbtDone? && fresh(decoder.repr)
      invariant total == |decoder.seen|
      invariant decoder.seen == Join(chunks[..i]) && ParsePsbt(decoder.seen) == More
      decreases |chunks| - i
    {
      ghost var before, rest := decoder.seen, Join(chunks[i + 1..]);
      JoinSplit(chunks, i);
      var used, status := decoder.PushBytes(chunks[i]);
      total := total + used;
      match status {
        case NeedsMore =>
          assert chunks[i][..used] == chunks[i];
          JoinPrefix(chunks, i);
        case Failed(e) =>
          SettledAt(before, chunks[i], used, rest);
          return Fail(e);
        case Finished =>
          SettledAt(before, chunks[i], used, rest);
          return Ready(decoder.stage.psbt, total);
      }
      i := i + 1;
    }
    assert chunks[..i] == chunks;
    outcome := More;
  }

  lemma NothingYet(chunks: seq<bytes>)
    ensures ParsePsbt([]) == More && Join(chunks[..0]) == []
  {
  }

  /** A verdict reached inside a chunk is the verdict on the whole stream. */
  lemma SettledAt(before: bytes, chunk: bytes, used: nat, rest: bytes)
    requires used <= |chunk| && ParsePsbt(before + chunk[..used]) != More
    ensures ParsePsbt(before + (chunk + rest)) == ParsePsbt(before + chunk[..used])
  {
    hide ParsePsbt;
    PsbtSettled(before + chunk[..used], chunk[used..] + rest);
    assert chunk == chunk[..used] + chunk[used..];
    assert before + chunk[..used] + (chunk[used..] + rest) == before + (chunk + rest);
  }
}
