/** The chunk encoder of a whole PSBT: the magic bytes, then one map encoder after the other. */
module PsbtEncoder {
  import opened Bytes
  import opened CompactSize
  import opened Formats
  import opened Tables
  import opened Maps
  import opened MapEncoding
  import opened MapEncoder
  import opened MapEncoders
  import opened Psbt
  import opened V0
  import PsbtDecoder
  import V0Decoder
  import G = Global
  import I = Input
  import O = Output

  /** What a map encoder is started with. */
  datatype Plan = Plan(groups: seq<seq<Pair>>, skipped: seq<bool>)

  predicate Startable(p: Plan) {
    && |p.skipped| == |p.groups|
    && (|p.groups| > 0 ==> p.groups[0] != [] || forall i | 0 <= i < |p.skipped| :: p.skipped[i])
  }

  predicate AllStartable(lists: seq<seq<Plan>>) {
    forall n, i | 0 <= n < |lists| && 0 <= i < |lists[n]| :: Startable(lists[n][i])
  }

  function PlanBytes(p: Plan): bytes { RestBytes(p.groups, 0) }

  /** One list of maps, map by map. */
  function ListBytes(plans: seq<Plan>): bytes { EncMany(PlanBytes, plans) }

  /** The lists from `n` on. */
  function ListsFrom(lists: seq<seq<Plan>>, n: nat): bytes
    decreases |lists| - n
  {
    if n >= |lists| then [] else ListBytes(lists[n]) + ListsFrom(lists, n + 1)
  }

  /** What is left of list `n` from its map number `next` on. */
  function TodoBytes(lists: seq<seq<Plan>>, n: nat, next: nat): bytes {
    if n < |lists| && next <= |lists[n]| then ListBytes(lists[n][next..]) else []
  }

  lemma TodoStarts(lists: seq<seq<Plan>>, n: nat)
    ensures TodoBytes(lists, n, 0) + ListsFrom(lists, n + 1) == ListsFrom(lists, n)
    ensures n < |lists| && lists[n] == [] ==> ListsFrom(lists, n) == ListsFrom(lists, n + 1)
  {
    hide PlanBytes;
    if n < |lists| { assert lists[n][0..] == lists[n]; }
  }

  lemma TodoStep(lists: seq<seq<Plan>>, n: nat, next: nat)
    requires n < |lists| && next < |lists[n]|
    ensures TodoBytes(lists, n, next) == PlanBytes(lists[n][next]) + TodoBytes(lists, n, next + 1)
  {
    hide PlanBytes;
    assert lists[n][next..][1..] == lists[n][next + 1..];
  }

  lemma TodoEnds(lists: seq<seq<Plan>>, n: nat)
    requires n < |lists|
    ensures TodoBytes(lists, n, |lists[n]|) == []
  {
    hide PlanBytes;
    assert lists[n][|lists[n]|..] == [];
  }

  /**
   * `Encoder4` over the magic bytes and the lists of maps: the global map alone, the inputs, the
   * outputs. A list is walked by an `IterEncoder`, which starts a map's encoder when it comes to it;
   * over an empty list the chunk is empty, and the next advance moves on.
   */
  class StreamEncoder {
    const lists: seq<seq<Plan>>
    var magic: bytes
    var list: nat
    var next: nat
    var current: MapEncoder?

    ghost predicate Valid()
      reads this, current
    {
      && AllStartable(lists) && list <= |lists|
      && (magic != [] ==> list == 0 && next == 0 && current == null)
      && (list < |lists| ==> next <= |lists[list]|)
      && (magic == [] && current == null && list < |lists| ==> next == |lists[list]|)
      && (current != null ==> list < |lists| && current.Valid() && !current.finished)
    }

    predicate Finished()
      reads this
    {
      magic == [] && list == |lists|
    }

    ghost function CurrentBytes(): bytes
      reads this, current
    {
      if current == null then [] else current.Remaining()
    }

    /** Everything still to come, the current chunk included. */
    ghost function Remaining(): bytes
      reads this, current
    {
      magic + (CurrentBytes() + (TodoBytes(lists, list, next) + ListsFrom(lists, list + 1)))
    }

    function CurrentChunk(): bytes
      reads this, current
    {
      if magic != [] then magic else if current == null then [] else current.CurrentChunk()
    }

    constructor (magic: bytes, lists: seq<seq<Plan>>)
      requires AllStartable(lists) && magic != []
      ensures Valid() && !Finished() && current == null && this.lists == lists
      ensures Remaining() == magic + ListsFrom(lists, 0)
    {
      this.magic, this.lists, list, next, current := magic, lists, 0, 0, null;
      new;
      TodoStarts(lists, 0);
    }

    /** On to list `n`: its first map's encoder is started, if it has any. */
    method StartList(n: nat)
      requires AllStartable(lists) && n <= |lists|
      modifies this
      ensures Valid() && magic == [] && list == n && (current == null || fresh(current))
      ensures Remaining() == ListsFrom(lists, n)
    {
      hide ListsFrom, TodoBytes, PlanBytes, MapEncoder.Valid, MapEncoder.Remaining, RestBytes, Startable;
      magic, list, next, current := [], n, 0, null;
      TodoStarts(lists, n);
      if n < |lists| && 0 < |lists[n]| { StartNext(); }
    }

    /** On to the next map of the list. */
    method StartNext()
      requires AllStartable(lists) && magic == [] && list < |lists| && next < |lists[list]|
      modifies this
      ensures Valid() && magic == [] && list == old(list) && next == old(next) + 1 && current != null && fresh(current)
      ensures Remaining() == TodoBytes(lists, old(list), old(next)) + ListsFrom(lists, old(list) + 1)
    {
      hide ListsFrom, TodoBytes, MapEncoder.Valid, MapEncoder.Remaining, RestBytes, AllStartable;
      var plan := lists[list][next];
      StartableAt(lists, list, next);
      TodoStep(lists, list, next);
      current := new MapEncoder(plan.groups, plan.skipped);
      next := next + 1;
      Concat(PlanBytes(plan), TodoBytes(lists, list, next), ListsFrom(lists, list + 1));
    }

    static lemma StartableAt(lists: seq<seq<Plan>>, n: nat, i: nat)
      requires AllStartable(lists) && n < |lists| && i < |lists[n]|
      ensures Startable(lists[n][i])
    {
    }

    /**
     * Drops the current chunk and nothing else, and gets ahead: from the magic bytes to the lists, to
     * a later list, to a later map, or within a map to a later state or chunk.
     */
    method Advance() returns (done: bool)
      requires Valid() && !Finished()
      modifies this, current
      ensures Valid() && done == Finished() && (current == null || current == old(current) || fresh(current))
      ensures old(CurrentChunk()) + Remaining() == old(Remaining())
      ensures done ==> Remaining() == []
      ensures magic == []
      ensures old(magic) != [] || list > old(list) || (list == old(list) && next > old(next))
        || (list == old(list) && next == old(next) && current != null && current == old(current)
            && (current.state > old(current.state)
                || (current.state == old(current.state) && |current.chunks| < |old(current.chunks)|)))
    {
      hide ListsFrom, TodoBytes, PlanBytes, MapEncoder.Remaining, MapEncoder.CurrentChunk, RestBytes, Startable,
           AllStartable;
      if magic != [] {
        TodoStarts(lists, 0);
        StartList(0);
      } else if current == null {
        TodoEnds(lists, list);
        StartList(list + 1);
      } else {
        ghost var chunk, todo := current.CurrentChunk(), TodoBytes(lists, list, next) + ListsFrom(lists, list + 1);
        var over := current.Advance();
        Concat(chunk, current.Remaining(), todo);
        if over {
          assert current.Remaining() + todo == todo;
          AfterMap();
        }
      }
      done := list == |lists|;
      NothingLeft(lists, next);
    }

    /** A map is written: on to the next of its list, or to the next list. */
    method AfterMap()
      requires AllStartable(lists) && magic == [] && list < |lists| && next <= |lists[list]|
      modifies this
      ensures Valid() && magic == [] && (current == null || fresh(current))
      ensures list > old(list) || (list == old(list) && next > old(next))
      ensures Remaining() == TodoBytes(lists, old(list), old(next)) + ListsFrom(lists, old(list) + 1)
    {
      hide ListsFrom, TodoBytes, PlanBytes, MapEncoder.Valid, MapEncoder.Remaining, RestBytes, Startable;
      if next < |lists[list]| {
        StartNext();
      } else {
        TodoEnds(lists, list);
        StartList(list + 1);
      }
    }

    static lemma NothingLeft(lists: seq<seq<Plan>>, next: nat)
      ensures TodoBytes(lists, |lists|, next) + ListsFrom(lists, |lists| + 1) == []
    {
    }

    /** The maps of the current list that have not been started. */
    function Unstarted(): nat
      reads this
    {
      if list < |lists| && next <= |lists[list]| then |lists[list]| - next else 0
    }

    function StatesLeft(): int
      reads this, current
    {
      if current == null then 0 else |current.groups| - current.state
    }

    function ChunksLeft(): nat
      reads this, current
    {
      if current == null then 0 else |current.chunks|
    }

    /** All chunks, in order: joined, they are everything that was to come. */
    method Drain() returns (chunks: seq<bytes>)
      requires Valid() && !Finished()
      modifies this, current
      ensures Join(chunks) == old(Remaining())
    {
      hide Remaining, CurrentChunk;
      chunks := [];
      var done := false;
      while !done
        invariant Valid() && done == Finished()
        invariant current == null || current == old(current) || fresh(current)
        invariant Join(chunks) + Remaining() == old(Remaining())
        invariant done ==> Remaining() == []
        decreases !done, magic != [], |lists| - list, Unstarted(), StatesLeft(), ChunksLeft()
      {
        var chunk := CurrentChunk();
        ghost var sofar := Join(chunks);
        done := Advance();
        JoinOne(chunks, chunk);
        Concat(sofar, chunk, Remaining());
        chunks := chunks + [chunk];
      }
    }
  }

  lemma JoinOne(chunks: seq<bytes>, chunk: bytes)
    ensures Join(chunks + [chunk]) == Join(chunks) + chunk
  {
    JoinAppend(chunks, [chunk]);
    assert [chunk][1..] == [] && Join([chunk]) == chunk + Join([]);
  }

  /* ----- the encoders of the two versions ----- */

  /** What the iterators of a PSBT hand out, map by map. */
  datatype Handout = Handout(global: seq<seq<Pair>>, inputs: seq<seq<seq<Pair>>>, outputs: seq<seq<seq<Pair>>>)

  function Plans(table: Table, maps: seq<seq<seq<Pair>>>): (plans: seq<Plan>)
    ensures |plans| == |maps|
  {
    seq(|maps|, i requires 0 <= i < |maps| => Plan(maps[i], Skips(table)))
  }

  function Lists(g: Table, i: Table, o: Table, h: Handout): seq<seq<Plan>> {
    [Plans(g, [h.global]), Plans(i, h.inputs), Plans(o, h.outputs)]
  }

  ghost predicate HandsOut(h: Handout, p: Psbt) {
    && h.global == Handed(GlobalV2, G.GlobalRecord(p.global))
    && |h.inputs| == |p.inputs| && |h.outputs| == |p.outputs|
    && (forall k | 0 <= k < |p.inputs| :: h.inputs[k] == Handed(InputV2, I.InputRecord(p.inputs[k])))
    && (forall k | 0 <= k < |p.outputs| :: h.outputs[k] == Handed(OutputV2, O.OutputRecord(p.outputs[k])))
  }

  ghost predicate HandsOutV0(h: Handout, v: PsbtV0) {
    && h.global == Handed(GlobalV0, G.GlobalRecordV0(EmbeddedTx(v), v.psbt.global.fields))
    && |h.inputs| == |v.psbt.inputs| && |h.outputs| == |v.psbt.outputs|
    && (forall k | 0 <= k < |v.psbt.inputs| :: h.inputs[k] == Handed(InputV0, I.FieldsRecord(v.psbt.inputs[k].fields)))
    && (forall k | 0 <= k < |v.psbt.outputs| ::
          h.outputs[k] == Handed(OutputV0, O.FieldsRecord(v.psbt.outputs[k].fields)))
  }

  lemma PlanWrites(table: Table, r: Record)
    requires IsV0(table) || Key(FirstType(table), []) in r
    ensures Startable(Plan(Handed(table, r), Skips(table)))
    ensures PlanBytes(Plan(Handed(table, r), Skips(table))) == EncodeMap(table, r)
  {
    hide Order, StateGroups, Skips, EncodeMap, RestBytes;
    MachineWritesMap(table, r);
    if IsV0(table) { SkipsAll(table); } else { StartsFull(table, r); }
  }

  /** A list of maps is written as the list of what the maps stand for. */
  lemma {:induction false} ListWrites<T>(plans: seq<Plan>, enc: T -> bytes, xs: seq<T>)
    requires |plans| == |xs| && forall k | 0 <= k < |xs| :: PlanBytes(plans[k]) == enc(xs[k])
    ensures ListBytes(plans) == EncMany(enc, xs)
    decreases |xs|
  {
    hide PlanBytes;
    if xs != [] {
      forall k | 0 <= k < |xs[1..]| ensures PlanBytes(plans[1..][k]) == enc(xs[1..][k]) {
        assert xs[1..][k] == xs[k + 1];
      }
      ListWrites(plans[1..], enc, xs[1..]);
    }
  }

  lemma ThreeLists(g: seq<Plan>, i: seq<Plan>, o: seq<Plan>)
    ensures ListsFrom([g, i, o], 0) == ListBytes(g) + (ListBytes(i) + ListBytes(o))
  {
    hide ListBytes;
    var lists := [g, i, o];
    assert ListsFrom(lists, 3) == [] && ListsFrom(lists, 2) == ListBytes(o) + [];
    assert ListsFrom(lists, 1) == ListBytes(i) + ListsFrom(lists, 2);
  }

  lemma InputPlans(h: Handout, p: Psbt)
    requires HandsOut(h, p)
    ensures forall k | 0 <= k < |p.inputs| :: Startable(Plans(InputV2, h.inputs)[k])
    ensures ListBytes(Plans(InputV2, h.inputs)) == EncMany(EncodeInput, p.inputs)
  {
    hide Handed, Skips, I.InputRecord, EncodeMap, PlanBytes, Startable, ListBytes;
    forall k | 0 <= k < |p.inputs|
      ensures Startable(Plans(InputV2, h.inputs)[k])
      ensures PlanBytes(Plans(InputV2, h.inputs)[k]) == EncodeInput(p.inputs[k])
    {
      TxidWritten(p.inputs[k]);
      PlanWrites(InputV2, I.InputRecord(p.inputs[k]));
    }
    ListWrites(Plans(InputV2, h.inputs), EncodeInput, p.inputs);
  }

  lemma OutputPlans(h: Handout, p: Psbt)
    requires HandsOut(h, p)
    ensures forall k | 0 <= k < |p.outputs| :: Startable(Plans(OutputV2, h.outputs)[k])
    ensures ListBytes(Plans(OutputV2, h.outputs)) == EncMany(EncodeOutput, p.outputs)
  {
    hide Handed, Skips, O.OutputRecord, EncodeMap, PlanBytes, Startable, ListBytes;
    forall k | 0 <= k < |p.outputs|
      ensures Startable(Plans(OutputV2, h.outputs)[k])
      ensures PlanBytes(Plans(OutputV2, h.outputs)[k]) == EncodeOutput(p.outputs[k])
    {
      AmountWritten(p.outputs[k]);
      PlanWrites(OutputV2, O.OutputRecord(p.outputs[k]));
    }
    ListWrites(Plans(OutputV2, h.outputs), EncodeOutput, p.outputs);
  }

  /** A list of one map. */
  lemma OnePlan(table: Table, groups: seq<seq<Pair>>)
    ensures Plans(table, [groups]) == [Plan(groups, Skips(table))]
    ensures ListBytes(Plans(table, [groups])) == PlanBytes(Plan(groups, Skips(table)))
  {
    hide PlanBytes, Skips;
    var plans := Plans(table, [groups]);
    assert plans[1..] == [] && EncMany(PlanBytes, plans) == PlanBytes(plans[0]) + EncMany(PlanBytes, plans[1..]);
  }

  lemma StreamWrites(h: Handout, p: Psbt)
    requires HandsOut(h, p)
    ensures AllStartable(Lists(GlobalV2, InputV2, OutputV2, h))
    ensures MAGIC + [SEPARATOR] + ListsFrom(Lists(GlobalV2, InputV2, OutputV2, h), 0) == Serialize(p)
  {
    hide Handed, Skips, G.GlobalRecord, I.InputRecord, O.OutputRecord, EncodeMap, PlanBytes, Startable, ListBytes,
         ListsFrom, EncMany, Plans;
    VersionWritten(p.global);
    PlanWrites(GlobalV2, G.GlobalRecord(p.global));
    OnePlan(GlobalV2, h.global);
    InputPlans(h, p);
    OutputPlans(h, p);
    ThreeLists(Plans(GlobalV2, [h.global]), Plans(InputV2, h.inputs), Plans(OutputV2, h.outputs));
  }

  /** `PsbtV2Encoder`, drained: the chunks it hands out are the serialization, cut in pieces. */
  method EncodePsbt(p: Psbt, h: Handout) returns (chunks: seq<bytes>)
    requires HandsOut(h, p)
    ensures Join(chunks) == Serialize(p)
  {
    hide HandsOut, Serialize, ListsFrom, AllStartable, Lists;
    StreamWrites(h, p);
    var encoder := new StreamEncoder(MAGIC + [SEPARATOR], Lists(GlobalV2, InputV2, OutputV2, h));
    chunks := encoder.Drain();
  }

  /** Chunk by chunk from the encoder into the decoder, a well-formed PSBT arrives as it was sent. */
  method Transmit(p: Psbt, h: Handout) returns (outcome: Outcome<Psbt>)
    requires PsbtOk(p) && HandsOut(h, p)
    ensures outcome == Ready(p, |Serialize(p)|)
  {
    hide PsbtOk, HandsOut, Serialize, ParsePsbt;
    var chunks := EncodePsbt(p, h);
    RoundTrip(p, []);
    assert Serialize(p) + [] == Serialize(p);
    outcome := PsbtDecoder.DecodeChunks(chunks);
  }

  lemma InputPlansV0(h: Handout, v: PsbtV0)
    requires HandsOutV0(h, v)
    ensures forall k | 0 <= k < |v.psbt.inputs| :: Startable(Plans(InputV0, h.inputs)[k])
    ensures ListBytes(Plans(InputV0, h.inputs)) == EncMany(EncodeInputV0, v.psbt.inputs)
  {
    hide Handed, Skips, I.FieldsRecord, EncodeMap, PlanBytes, Startable, ListBytes, EmbeddedTx;
    var plans, ins := Plans(InputV0, h.inputs), v.psbt.inputs;
    forall k | 0 <= k < |ins| ensures Startable(plans[k]) && PlanBytes(plans[k]) == EncodeInputV0(ins[k]) {
      PlanWrites(InputV0, I.FieldsRecord(ins[k].fields));
    }
    ListWrites(plans, EncodeInputV0, ins);
  }

  lemma OutputPlansV0(h: Handout, v: PsbtV0)
    requires HandsOutV0(h, v)
    ensures forall k | 0 <= k < |v.psbt.outputs| :: Startable(Plans(OutputV0, h.outputs)[k])
    ensures ListBytes(Plans(OutputV0, h.outputs)) == EncMany(EncodeOutputV0, v.psbt.outputs)
  {
    hide Handed, Skips, O.FieldsRecord, EncodeMap, PlanBytes, Startable, ListBytes, EmbeddedTx;
    var plans, outs := Plans(OutputV0, h.outputs), v.psbt.outputs;
    forall k | 0 <= k < |outs| ensures Startable(plans[k]) && PlanBytes(plans[k]) == EncodeOutputV0(outs[k]) {
      PlanWrites(OutputV0, O.FieldsRecord(outs[k].fields));
    }
    ListWrites(plans, EncodeOutputV0, outs);
  }

  lemma StreamWritesV0(h: Handout, v: PsbtV0)
    requires HandsOutV0(h, v)
    ensures AllStartable(Lists(GlobalV0, InputV0, OutputV0, h))
    ensures MAGIC + [SEPARATOR] + ListsFrom(Lists(GlobalV0, InputV0, OutputV0, h), 0) == SerializeV0(v)
  {
    hide Handed, Skips, G.GlobalRecordV0, I.FieldsRecord, O.FieldsRecord, EncodeMap, PlanBytes, Startable, ListBytes,
         ListsFrom, EncMany, Plans, EmbeddedTx;
    PlanWrites(GlobalV0, G.GlobalRecordV0(EmbeddedTx(v), v.psbt.global.fields));
    OnePlan(GlobalV0, h.global);
    InputPlansV0(h, v);
    OutputPlansV0(h, v);
    ThreeLists(Plans(GlobalV0, [h.global]), Plans(InputV0, h.inputs), Plans(OutputV0, h.outputs));
  }

  /** `PsbtV0Encoder`, drained. */
  method EncodePsbtV0(v: PsbtV0, h: Handout) returns (chunks: seq<bytes>)
    requires HandsOutV0(h, v)
    ensures Join(chunks) == SerializeV0(v)
  {
    hide HandsOutV0, SerializeV0, ListsFrom, AllStartable, Lists;
    StreamWritesV0(h, v);
    var encoder := new StreamEncoder(MAGIC + [SEPARATOR], Lists(GlobalV0, InputV0, OutputV0, h));
    chunks := encoder.Drain();
  }

  /** In version 0 a well-formed PSBT arrives exactly if nothing is refused and its transaction is within the cap. */
  method TransmitV0(p: Psbt, h: Handout) returns (outcome: Outcome<Psbt>)
    requires PsbtOk(p) && FromPsbt(p).Ok? && HandsOutV0(h, FromPsbt(p).value)
    requires EmbeddedSize(FromPsbt(p).value) < U64
    ensures outcome.Ready? <==> Demotable(p) && EmbeddedSize(FromPsbt(p).value) <= CAP
    ensures outcome.Ready? ==> outcome == Ready(Demoted(FromPsbt(p).value), |SerializeV0(FromPsbt(p).value)|)
  {
    hide *;
    var v := FromPsbt(p).value;
    var chunks := EncodePsbtV0(v, h);
    DecodableIff(p, []);
    assert SerializeV0(v) + [] == SerializeV0(v);
    outcome := V0Decoder.DecodeChunksV0(chunks);
  }
}
