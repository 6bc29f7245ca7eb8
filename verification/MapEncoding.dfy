/** What the map encoders write, and that the map decoders read it back. */
module MapEncoding {
  import opened Bytes
  import opened CompactSize
  import opened Formats
  import opened Values
  import opened ValueCodecs
  import opened Tables
  import opened Maps

  /** One encoder state: the pairs of one key type, or those of every type without a state of its own. */
  datatype Group = Only(keyType: nat) | Rest

  /** The states of the six encoders, in the order they are visited. */
  function Order(table: Table): seq<Group> {
    match table
    case GlobalV2 =>
      [Only(VERSION), Only(TX_VERSION), Only(FALLBACK_LOCKTIME), Only(INPUT_COUNT), Only(OUTPUT_COUNT),
       Only(TX_MODIFIABLE), Only(XPUB), Only(GLOBAL_SP_ECDH), Only(GLOBAL_SP_DLEQ), Only(PROPRIETARY), Rest]
    case InputV2 =>
      [Only(PREVIOUS_TXID), Only(OUTPUT_INDEX), Only(SEQUENCE), Only(REQUIRED_TIME), Only(REQUIRED_HEIGHT),
       Only(NON_WITNESS_UTXO), Only(WITNESS_UTXO), Only(PARTIAL_SIG), Only(SIGHASH_TYPE), Only(REDEEM_SCRIPT),
       Only(WITNESS_SCRIPT), Only(BIP32_DERIVATION), Only(FINAL_SCRIPTSIG), Only(FINAL_SCRIPTWITNESS),
       Only(RIPEMD160), Only(SHA256), Only(HASH160), Only(HASH256), Only(TAP_KEY_SIG), Only(TAP_SCRIPT_SIG),
       Only(TAP_LEAF_SCRIPT), Only(TAP_BIP32_DERIVATION), Only(TAP_INTERNAL_KEY), Only(TAP_MERKLE_ROOT),
       Only(INPUT_SP_ECDH), Only(INPUT_SP_DLEQ), Only(PROPRIETARY), Rest]
    case OutputV2 =>
      [Only(OUT_AMOUNT), Only(OUT_SCRIPT), Only(OUT_REDEEM_SCRIPT), Only(OUT_WITNESS_SCRIPT),
       Only(OUT_BIP32_DERIVATION), Only(OUT_TAP_INTERNAL_KEY), Only(OUT_TAP_TREE), Only(OUT_TAP_BIP32_DERIVATION),
       Only(OUT_SP_V0_INFO), Only(OUT_SP_V0_LABEL), Only(PROPRIETARY), Rest]
    case GlobalV0 =>
      [Only(UNSIGNED_TX), Only(XPUB), Only(PROPRIETARY), Rest, Only(GLOBAL_SP_ECDH), Only(GLOBAL_SP_DLEQ)]
    case InputV0 =>
      [Only(NON_WITNESS_UTXO), Only(WITNESS_UTXO), Only(PARTIAL_SIG), Only(SIGHASH_TYPE), Only(REDEEM_SCRIPT),
       Only(WITNESS_SCRIPT), Only(BIP32_DERIVATION), Only(FINAL_SCRIPTSIG), Only(FINAL_SCRIPTWITNESS),
       Only(RIPEMD160), Only(SHA256), Only(HASH160), Only(HASH256), Only(TAP_KEY_SIG), Only(TAP_SCRIPT_SIG),
       Only(TAP_LEAF_SCRIPT), Only(TAP_BIP32_DERIVATION), Only(TAP_INTERNAL_KEY), Only(TAP_MERKLE_ROOT),
       Only(PROPRIETARY), Rest, Only(INPUT_SP_ECDH), Only(INPUT_SP_DLEQ)]
    case OutputV0 =>
      [Only(OUT_WITNESS_SCRIPT), Only(OUT_BIP32_DERIVATION), Only(OUT_TAP_INTERNAL_KEY), Only(OUT_TAP_TREE),
       Only(OUT_TAP_BIP32_DERIVATION), Only(PROPRIETARY), Rest, Only(OUT_SP_V0_INFO), Only(OUT_SP_V0_LABEL)]
  }

  predicate WellOrdered(order: seq<Group>) {
    && (forall i, j | 0 <= i < j < |order| :: order[i] != order[j])
    && Rest in order
  }

  lemma InputOrderIsWell(table: Table)
    requires table.InputV2? || table.InputV0?
    ensures WellOrdered(Order(table))
  {
    var o := Order(table);
    if table.InputV2? {
      forall i, j | 0 <= i < j < |o| ensures o[i] != o[j] {
        if i < 14 { assert j < 14 ==> o[i] != o[j]; }
      }
    } else {
      forall i, j | 0 <= i < j < |o| ensures o[i] != o[j] {
        if i < 14 { assert j < 14 ==> o[i] != o[j]; }
      }
    }
    assert Rest in o;
  }

  lemma OtherOrderIsWell(table: Table)
    requires !table.InputV2? && !table.InputV0?
    ensures WellOrdered(Order(table))
  {
    var o := Order(table);
    match table {
      case GlobalV2 => assert o[10] == Rest;
      case OutputV2 => assert o[11] == Rest;
      case GlobalV0 => assert o[3] == Rest;
      case OutputV0 => assert o[6] == Rest;
    }
    forall i, j | 0 <= i < j < |o| ensures o[i] != o[j] {
      if i < 6 { assert j < 6 ==> o[i] != o[j]; }
    }
  }

  lemma OrdersAreWell(table: Table)
    ensures WellOrdered(Order(table))
  {
    hide Order, WellOrdered;
    if table.InputV2? || table.InputV0? { InputOrderIsWell(table); } else { OtherOrderIsWell(table); }
  }

  /** The state that writes a key. */
  function GroupOf(order: seq<Group>, k: Key): Group {
    if Only(k.keyType) in order then Only(k.keyType) else Rest
  }

  ghost predicate Lists<T(!new)>(l: seq<T>, s: set<T>) {
    && (forall i, j | 0 <= i < j < |l| :: l[i] != l[j])
    && (forall x :: x in l <==> x in s)
  }

  /**
   * The order in which a `BTreeMap` lists its keys. Which order that is plays no part in what
   * follows: only that every key is listed, and once.
   */
  ghost function Listing(s: set<Key>): (l: seq<Key>)
    ensures Lists(l, s)
  {
    if s == {} then []
    else
      var k :| k in s;
      [k] + Listing(s - {k})
  }

  function GroupKeys(order: seq<Group>, r: Record, g: Group): set<Key> {
    set k | k in r && GroupOf(order, k) == g
  }

  /** Keys the matching decoder refuses are written too, and hold raw bytes. */
  function PairOf(table: Table, k: Key, v: Value): Pair {
    match RuleOf(table, k)
    case Accept(codec, _) => Pair(k, Enc(codec, v))
    case Reject(_) => Pair(k, Enc(BytesCodec, v))
  }

  function PairsOf(table: Table, r: Record, ks: seq<Key>): (ps: seq<Pair>)
    requires forall k | k in ks :: k in r
    ensures |ps| == |ks|
  {
    seq(|ks|, i requires 0 <= i < |ks| => assert ks[i] in ks; PairOf(table, ks[i], r[ks[i]]))
  }

  /** The pairs one encoder state writes. */
  ghost function GroupPairs(table: Table, r: Record, g: Group): seq<Pair> {
    PairsOf(table, r, Listing(GroupKeys(Order(table), r, g)))
  }

  ghost function StatesBytes(table: Table, r: Record, states: seq<Group>): bytes {
    if states == [] then []
    else Frames(GroupPairs(table, r, states[0])) + StatesBytes(table, r, states[1..])
  }

  /** A whole map: the states in order, then the separator. */
  ghost function EncodeMap(table: Table, r: Record): bytes {
    StatesBytes(table, r, Order(table)) + [0]
  }

  predicate EntryOk(table: Table, k: Key, v: Value) {
    && KeyFits(k) && Slot(table, k) == k
    && RuleOf(table, k).Accept?
    && DataOk(RuleOf(table, k).data, k.data)
    && ValueOk(RuleOf(table, k).codec, v)
  }

  /** Every slot of the record can be written by this map's encoder and read by its decoder. */
  predicate RecordOk(table: Table, r: Record) {
    forall k | k in r :: EntryOk(table, k, r[k])
  }

  /* ----- every slot is written once ----- */

  ghost function KeysInOrder(order: seq<Group>, r: Record, states: seq<Group>): seq<Key> {
    if states == [] then []
    else Listing(GroupKeys(order, r, states[0])) + KeysInOrder(order, r, states[1..])
  }

  lemma {:induction false} KeysListed(order: seq<Group>, r: Record, states: seq<Group>)
    requires forall i, j | 0 <= i < j < |states| :: states[i] != states[j]
    ensures Lists(KeysInOrder(order, r, states), set k | k in r && GroupOf(order, k) in states)
  {
    if states != [] {
      var g, rest := states[0], states[1..];
      assert states == [g] + rest;
      KeysListed(order, r, rest);
      hide GroupOf;
      ListsJoin(Listing(GroupKeys(order, r, g)), GroupKeys(order, r, g), KeysInOrder(order, r, rest),
                set k | k in r && GroupOf(order, k) in rest);
      assert GroupKeys(order, r, g) + (set k | k in r && GroupOf(order, k) in rest)
          == (set k | k in r && GroupOf(order, k) in states);
    }
  }

  lemma ListsJoin<T(!new)>(l: seq<T>, s: set<T>, m: seq<T>, t: set<T>)
    requires Lists(l, s) && Lists(m, t) && s !! t
    ensures Lists(l + m, s + t)
  {
    forall i, j | 0 <= i < j < |l + m| ensures (l + m)[i] != (l + m)[j] {
      if i < |l| <= j { assert (l + m)[i] in s && m[j - |l|] in t; }
    }
    forall x ensures x in l + m <==> x in s + t {
      assert x in l + m <==> x in l || x in m;
    }
  }

  lemma {:induction false} FramesJoin(ps: seq<Pair>, qs: seq<Pair>)
    ensures Frames(ps + qs) == Frames(ps) + Frames(qs)
  {
    hide Frame;
    if ps == [] {
      assert ps + qs == qs;
    } else {
      assert (ps + qs)[1..] == ps[1..] + qs && (ps + qs)[0] == ps[0];
      FramesJoin(ps[1..], qs);
      Concat(Frame(ps[0]), Frames(ps[1..]), Frames(qs));
    }
  }

  lemma PairsJoin(table: Table, r: Record, l: seq<Key>, m: seq<Key>)
    requires forall k | k in l :: k in r
    requires forall k | k in m :: k in r
    ensures forall k | k in l + m :: k in r
    ensures PairsOf(table, r, l + m) == PairsOf(table, r, l) + PairsOf(table, r, m)
  {
    hide PairOf;
    assert forall k | k in l + m :: k in l || k in m;
  }

  lemma {:induction false} StatesAreFrames(table: Table, r: Record, states: seq<Group>)
    ensures forall k | k in KeysInOrder(Order(table), r, states) :: k in r
    ensures StatesBytes(table, r, states) == Frames(PairsOf(table, r, KeysInOrder(Order(table), r, states)))
  {
    hide Order, PairOf, GroupOf, Frame;
    if states != [] {
      StatesAreFrames(table, r, states[1..]);
      var l, m := Listing(GroupKeys(Order(table), r, states[0])), KeysInOrder(Order(table), r, states[1..]);
      PairsJoin(table, r, l, m);
      FramesJoin(PairsOf(table, r, l), PairsOf(table, r, m));
    } else {
      assert PairsOf(table, r, []) == [];
    }
  }

  /** The pairs written are exactly the slots of the record: each of them, and once. */
  lemma EncodeMapFrames(table: Table, r: Record) returns (ks: seq<Key>)
    ensures Lists(ks, r.Keys)
    ensures EncodeMap(table, r) == Frames(PairsOf(table, r, ks)) + [0]
  {
    hide Order, RuleOf, Frame;
    var order := Order(table);
    ks := KeysInOrder(order, r, order);
    OrdersAreWell(table);
    KeysListed(order, r, order);
    assert (set k | k in r && GroupOf(order, k) in order) == r.Keys;
    StatesAreFrames(table, r, order);
  }

  /* ----- decoding inverts encoding ----- */

  predicate Means(table: Table, p: Pair, k: Key, v: Value) {
    PairFits(p) && Sound(table, p) && PairSlot(table, p) == k && Meaning(table, p) == Some(Entry(k, v))
  }

  lemma PairMeaning(table: Table, k: Key, v: Value)
    requires EntryOk(table, k, v)
    ensures Means(table, PairOf(table, k, v), k, v)
  {
    hide RuleOf, KindOk, Enc, Dec, DataOk;
    DecEnc(RuleOf(table, k).codec, v);
  }

  lemma PairsMean(table: Table, r: Record, ks: seq<Key>)
    requires RecordOk(table, r) && forall k | k in ks :: k in r
    ensures var ps := PairsOf(table, r, ks);
      forall i | 0 <= i < |ps| :: Means(table, ps[i], ks[i], r[ks[i]])
  {
    hide EntryOk, PairOf, Means;
    var ps := PairsOf(table, r, ks);
    forall i | 0 <= i < |ps| ensures Means(table, ps[i], ks[i], r[ks[i]]) {
      assert ks[i] in ks;
      PairMeaning(table, ks[i], r[ks[i]]);
    }
  }

  lemma ListedHolds(table: Table, r: Record, ks: seq<Key>, ps: seq<Pair>, out: Record)
    requires Lists(ks, r.Keys) && |ps| == |ks|
    requires forall i | 0 <= i < |ps| :: ks[i] in r && Means(table, ps[i], ks[i], r[ks[i]])
    requires Holds(table, map[], ps, out)
    ensures out == r
  {
    hide Sound, PairFits, PairSlot, Meaning;
    forall k ensures (k in out <==> k in r) && (k in r ==> out[k] == r[k]) {
      if k in r {
        assert k in ks;
        var i :| 0 <= i < |ks| && ks[i] == k;
        assert PairSlot(table, ps[i]) == k;
      }
    }
  }

  lemma RecordCollects(table: Table, r: Record, ks: seq<Key>)
    requires RecordOk(table, r) && Lists(ks, r.Keys)
    ensures AllFit(PairsOf(table, r, ks)) && Collect(table, map[], PairsOf(table, r, ks)) == Some(r)
  {
    hide EntryOk, PairOf, Sound, PairFits, PairSlot, Meaning, Collect;
    var ps := PairsOf(table, r, ks);
    PairsMean(table, r, ks);
    CollectExact(table, map[], ps);
    ListedHolds(table, r, ks, ps, Collect(table, map[], ps).value);
  }

  /** A complete, well-formed map is read back from what is written, whatever follows it. */
  lemma MapRoundTrip(table: Table, r: Record, c: bytes)
    requires RecordOk(table, r) && Complete(table, r) == None
    ensures ParseMap(table, map[], EncodeMap(table, r) + c) == Ready(r, |EncodeMap(table, r)|)
  {
    hide RecordOk, Complete, EncodeMap, ParseMap;
    var ks := EncodeMapFrames(table, r);
    RecordCollects(table, r, ks);
    MapComplete(table, map[], PairsOf(table, r, ks), c);
  }

  /* ----- every map that is accepted is well-formed ----- */

  lemma EntryNormal(table: Table, p: Pair)
    requires PairFits(p) && Sound(table, p)
    ensures EntryOk(table, PairSlot(table, p), Meaning(table, p).value.value)
  {
    hide RuleOf, KindOk, Enc, Dec, ValueOk, KeyBody;
    SlotKeepsRule(table, p.key);
    DecOk(RuleOf(table, p.key).codec, p.body);
    assert DataOk(IgnoreData, []);
  }

  lemma MapNormal(table: Table, b: bytes)
    requires ParseMap(table, map[], b).Ready?
    ensures var Ready(r, _) := ParseMap(table, map[], b);
      RecordOk(table, r) && Complete(table, r) == None
  {
    hide Complete, Sound, Meaning, EntryOk, PairFits, PairSlot;
    var ps := MapSound(table, map[], b);
    CollectExact(table, map[], ps);
    var r := ParseMap(table, map[], b).value;
    forall k | k in r ensures EntryOk(table, k, r[k]) {
      var i :| 0 <= i < |ps| && PairSlot(table, ps[i]) == k;
      EntryNormal(table, ps[i]);
    }
  }

  /** Decode, encode, decode: the second decoding sees the same map. */
  lemma MapStable(table: Table, b: bytes, c: bytes)
    requires ParseMap(table, map[], b).Ready?
    ensures var Ready(r, _) := ParseMap(table, map[], b);
      ParseMap(table, map[], EncodeMap(table, r) + c) == Ready(r, |EncodeMap(table, r)|)
  {
    hide ParseMap, EncodeMap, RecordOk, Complete;
    MapNormal(table, b);
    MapRoundTrip(table, ParseMap(table, map[], b).value, c);
  }

  /* ----- maps written by one version and read by the other ----- */

  /** A slot the decoder either takes or refuses as soon as it has seen the key. */
  predicate EntryJudged(table: Table, k: Key, v: Value) {
    EntryOk(table, k, v)
    || (RuleOf(table, k).Reject? && KeyFits(k) && |Enc(BytesCodec, v)| <= CAP)
  }

  predicate PairJudged(table: Table, p: Pair) {
    PairFits(p) && (Meaning(table, p).Some? || RuleOf(table, p.key).Reject?)
  }

  lemma PairIsJudged(table: Table, k: Key, v: Value)
    requires EntryJudged(table, k, v)
    ensures PairJudged(table, PairOf(table, k, v))
  {
    hide RuleOf, KindOk, Enc, Dec, DataOk, ValueOk;
    if EntryOk(table, k, v) { PairMeaning(table, k, v); }
  }

  /** Of the first pair: refused by its key, refused by the map so far, or stored. */
  lemma FirstJudged(table: Table, r: Record, p: Pair, tail: bytes)
    requires PairJudged(table, p)
    ensures RuleOf(table, p.key).Reject? ==> ParseMap(table, r, Frame(p) + tail).Fail?
    ensures ParseMap(table, r, Frame(p) + tail).Ready? ==>
              && Meaning(table, p).Some? && Store(table, r, Meaning(table, p).value).Ok?
              && ParseMap(table, Store(table, r, Meaning(table, p).value).value, tail).Ready?
  {
    hide RuleOf, Complete, ParseEntry, Store, Frame, KeyFits, Dec;
    if Meaning(table, p).None? {
      EntryRejected(table, p, tail);
      assert (Frame(p) + tail)[0] == Frame(p)[0];
    } else {
      EntryComplete(table, p, tail);
      assert (Frame(p) + tail)[0] == Frame(p)[0];
      if Store(table, r, Meaning(table, p).value).Ok? { MapStep(table, r, p, tail); }
    }
  }

  /** One key of a refused type spoils the map, wherever it stands. */
  lemma {:induction false} MapRejects(table: Table, r: Record, ps: seq<Pair>, i: nat, c: bytes)
    requires i < |ps| && RuleOf(table, ps[i].key).Reject?
    requires forall j | 0 <= j < |ps| :: PairJudged(table, ps[j])
    ensures !ParseMap(table, r, Frames(ps) + [0] + c).Ready?
    decreases |ps|
  {
    hide RuleOf, ParseMap, Meaning, Store, Frame, PairJudged;
    var tail := Frames(ps[1..]) + [0] + c;
    assert Frames(ps) + [0] + c == Frame(ps[0]) + tail;
    FirstJudged(table, r, ps[0], tail);
    if ParseMap(table, r, Frame(ps[0]) + tail).Ready? {
      forall j | 0 <= j < |ps[1..]| ensures PairJudged(table, ps[1..][j]) { assert ps[1..][j] == ps[j + 1]; }
      MapRejects(table, Store(table, r, Meaning(table, ps[0]).value).value, ps[1..], i - 1, c);
    }
  }

  lemma EntryRejected(table: Table, p: Pair, c: bytes)
    requires PairFits(p) && RuleOf(table, p.key).Reject?
    ensures ParseEntry(table, Frame(p) + c).Fail? && Frame(p) != [] && Frame(p)[0] != 0
  {
    hide RuleOf;
    var head, tail := Prefixed(KeyBody(p.key)), Prefixed(p.body);
    ByteVecCanonical();
    Concat(head, tail, c);
    assert Writes(ByteVec(), KeyBody(p.key), tail + c);
    KeyRoundTrip(p.key, []);
    SizeNonZero(|KeyBody(p.key)|);
  }

  /** A map written slot by slot is accepted exactly when every slot is, and the map is complete. */
  lemma MapAcceptedIff(table: Table, r: Record, c: bytes)
    requires forall k | k in r :: EntryJudged(table, k, r[k])
    requires Complete(table, r) == None
    ensures ParseMap(table, map[], EncodeMap(table, r) + c).Ready? <==> RecordOk(table, r)
  {
    hide ParseMap, EncodeMap, Complete, RuleOf, PairOf, EntryOk, KeyFits, Enc, PairJudged;
    if RecordOk(table, r) {
      MapRoundTrip(table, r, c);
    } else {
      var ks := EncodeMapFrames(table, r);
      var ps := PairsOf(table, r, ks);
      var k :| k in r && !EntryOk(table, k, r[k]);
      assert k in ks;
      var i :| 0 <= i < |ks| && ks[i] == k;
      forall j | 0 <= j < |ps| ensures PairJudged(table, ps[j]) {
        assert ks[j] in ks;
        PairIsJudged(table, ks[j], r[ks[j]]);
      }
      assert ps[i].key == k by { PairKey(table, k, r[k]); }
      MapRejects(table, map[], ps, i, c);
    }
  }

  lemma PairKey(table: Table, k: Key, v: Value)
    ensures PairOf(table, k, v).key == k
  {
    hide RuleOf, Enc;
  }

  /** What a map decoder has stored it keeps. */
  lemma {:induction false} MapKeeps(table: Table, r: Record, b: bytes)
    requires ParseMap(table, r, b).Ready?
    ensures forall k | k in r :: k in ParseMap(table, r, b).value && ParseMap(table, r, b).value[k] == r[k]
    decreases |b|
  {
    hide RuleOf, Complete, ParseEntry;
    if b[0] != 0 {
      var Ready(e, k) := ParseEntry(table, b);
      var r' := Store(table, r, e).value;
      StoreKeeps(table, r, e);
      MapKeeps(table, r', b[k..]);
    }
  }

  lemma StoreKeeps(table: Table, r: Record, e: Entry)
    requires Store(table, r, e).Ok?
    ensures forall k | k in r :: k in Store(table, r, e).value && Store(table, r, e).value[k] == r[k]
  {
    hide RuleOf;
  }

  /** A pair written first is stored, whatever comes of the rest of the map. */
  lemma FirstIsStored(table: Table, p: Pair, c: bytes)
    requires PairFits(p) && Sound(table, p) && Meaning(table, p).Some?
    requires ParseMap(table, map[], Frame(p) + c).Ready?
    ensures var r := ParseMap(table, map[], Frame(p) + c).value;
      PairSlot(table, p) in r && r[PairSlot(table, p)] == Meaning(table, p).value.value
  {
    hide RuleOf, Complete, ParseMap, Meaning, Store, Frame, Sound, PairSlot;
    StoreOk(table, map[], p);
    MapStep(table, map[], p, c);
    MapKeeps(table, Store(table, map[], Meaning(table, p).value).value, c);
  }
}
