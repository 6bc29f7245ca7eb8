/** The six map encoders: the machine of `MapEncoder` with the transitions of each kind of map. */
module MapEncoders {
  import opened Bytes
  import opened Tables
  import opened Maps
  import opened MapEncoding
  import opened MapEncoder
  import opened Psbt
  import opened V0
  import G = Global
  import I = Input
  import O = Output

  /** The version-2 fields whose state is passed over when they are not set. */
  predicate Optional(table: Table, t: nat) {
    match table
    case GlobalV2 => t == FALLBACK_LOCKTIME
    case InputV2 => SEQUENCE <= t <= REQUIRED_HEIGHT || I.SingleType(t)
    case OutputV2 =>
      || t == OUT_SCRIPT || t == OUT_REDEEM_SCRIPT || t == OUT_WITNESS_SCRIPT || t == OUT_TAP_INTERNAL_KEY
      || t == OUT_TAP_TREE || t == OUT_SP_V0_INFO || t == OUT_SP_V0_LABEL
    case _ => true
  }

  predicate IsV0(table: Table) { table.GlobalV0? || table.InputV0? || table.OutputV0? }

  /** Version 2 enters every collection, empty or not; version 0 passes over whatever is empty. */
  predicate SkipsState(table: Table, g: Group) {
    IsV0(table) || (g.Only? && Optional(table, g.keyType))
  }

  function Skips(table: Table): (skipped: seq<bool>)
    ensures |skipped| == |Order(table)|
  {
    seq(|Order(table)|, i requires 0 <= i < |Order(table)| => SkipsState(table, Order(table)[i]))
  }

  /** What the iterators of a map hand out, state by state. */
  ghost function Handed(table: Table, r: Record): (groups: seq<seq<Pair>>)
    ensures |groups| == |Order(table)|
  {
    StateGroups(table, r, Order(table))
  }

  function FirstType(table: Table): nat {
    match table
    case GlobalV2 => VERSION
    case InputV2 => PREVIOUS_TXID
    case OutputV2 => OUT_AMOUNT
    case GlobalV0 => UNSIGNED_TX
    case InputV0 => NON_WITNESS_UTXO
    case OutputV0 => OUT_WITNESS_SCRIPT
  }

  lemma FirstState(table: Table)
    ensures |Order(table)| > 0 && Order(table)[0] == Only(FirstType(table))
  {
  }

  lemma SkipsAll(table: Table)
    requires IsV0(table)
    ensures forall i | 0 <= i < |Skips(table)| :: Skips(table)[i]
  {
    hide Order;
  }

  /** A map with its first field starts on a state that has something to write. */
  lemma StartsFull(table: Table, r: Record)
    requires Key(FirstType(table), []) in r
    ensures Handed(table, r)[0] != []
  {
    FirstState(table);
    hide Order, PairOf;
    var k := Key(FirstType(table), []);
    assert GroupOf(Order(table), k) == Order(table)[0];
    assert k in GroupKeys(Order(table), r, Order(table)[0]);
    assert k in Listing(GroupKeys(Order(table), r, Order(table)[0]));
  }

  lemma VersionWritten(g: G.Global)
    ensures Key(VERSION, []) in G.GlobalRecord(g)
  {
    hide G.GlobalRecord;
    G.GlobalRecordSlots(g, Key(VERSION, []));
  }

  lemma TxidWritten(i: I.Input)
    ensures Key(PREVIOUS_TXID, []) in I.InputRecord(i)
  {
    hide I.InputRecord;
    I.InputRecordSlots(i, Key(PREVIOUS_TXID, []));
  }

  lemma AmountWritten(o: O.Output)
    ensures Key(OUT_AMOUNT, []) in O.OutputRecord(o)
  {
    hide O.OutputRecord;
    O.OutputRecordSlots(o, Key(OUT_AMOUNT, []));
  }

  /** `GlobalMapEncoder` of version 2, drained. */
  method EncodeGlobalMap(g: G.Global, groups: seq<seq<Pair>>) returns (out: bytes)
    requires groups == Handed(GlobalV2, G.GlobalRecord(g))
    ensures out == EncodeGlobal(g)
  {
    hide Order, StateGroups, G.GlobalRecord, EncodeMap;
    VersionWritten(g);
    StartsFull(GlobalV2, G.GlobalRecord(g));
    out := EncodeRecord(GlobalV2, G.GlobalRecord(g), groups, Skips(GlobalV2));
  }

  /** `InputMapEncoder` of version 2, drained. */
  method EncodeInputMap(i: I.Input, groups: seq<seq<Pair>>) returns (out: bytes)
    requires groups == Handed(InputV2, I.InputRecord(i))
    ensures out == EncodeInput(i)
  {
    hide Order, StateGroups, I.InputRecord, EncodeMap;
    TxidWritten(i);
    StartsFull(InputV2, I.InputRecord(i));
    out := EncodeRecord(InputV2, I.InputRecord(i), groups, Skips(InputV2));
  }

  /** `OutputMapEncoder` of version 2, drained. */
  method EncodeOutputMap(o: O.Output, groups: seq<seq<Pair>>) returns (out: bytes)
    requires groups == Handed(OutputV2, O.OutputRecord(o))
    ensures out == EncodeOutput(o)
  {
    hide Order, StateGroups, O.OutputRecord, EncodeMap;
    AmountWritten(o);
    StartsFull(OutputV2, O.OutputRecord(o));
    out := EncodeRecord(OutputV2, O.OutputRecord(o), groups, Skips(OutputV2));
  }

  /** The version-0 encoders start on whichever state is the first with anything to write. */
  method EncodeGlobalMapV0(v: PsbtV0, groups: seq<seq<Pair>>) returns (out: bytes)
    requires groups == Handed(GlobalV0, G.GlobalRecordV0(EmbeddedTx(v), v.psbt.global.fields))
    ensures out == EncodeGlobalV0(v)
  {
    hide Order, StateGroups, G.GlobalRecordV0, EncodeMap;
    FirstState(GlobalV0);
    SkipsAll(GlobalV0);
    out := EncodeRecord(GlobalV0, G.GlobalRecordV0(EmbeddedTx(v), v.psbt.global.fields), groups, Skips(GlobalV0));
  }

  method EncodeInputMapV0(i: I.Input, groups: seq<seq<Pair>>) returns (out: bytes)
    requires groups == Handed(InputV0, I.FieldsRecord(i.fields))
    ensures out == EncodeInputV0(i)
  {
    hide Order, StateGroups, I.FieldsRecord, EncodeMap;
    FirstState(InputV0);
    SkipsAll(InputV0);
    out := EncodeRecord(InputV0, I.FieldsRecord(i.fields), groups, Skips(InputV0));
  }

  method EncodeOutputMapV0(o: O.Output, groups: seq<seq<Pair>>) returns (out: bytes)
    requires groups == Handed(OutputV0, O.FieldsRecord(o.fields))
    ensures out == EncodeOutputV0(o)
  {
    hide Order, StateGroups, O.FieldsRecord, EncodeMap;
    FirstState(OutputV0);
    SkipsAll(OutputV0);
    out := EncodeRecord(OutputV0, O.FieldsRecord(o.fields), groups, Skips(OutputV0));
  }
}
