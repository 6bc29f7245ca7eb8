/** The push decoder of a key-value map, fed in pieces: separator, key, value, and round again. */
module MapDecoder {
  import opened Bytes
  import opened CompactSize
  import opened Formats
  import opened Values
  import opened ValueCodecs
  import opened ValueDecoders
  import opened TapKeyOriginDecoder
  import opened Tables
  import opened Maps

  /* ----- one value decoder or another ----- */

  datatype FieldDecoder =
    | Sized(sized: ValueDecoder)
    | Whole(whole: WholeDecoder)
    | Signature(ecdsa: EcdsaSignatureDecoder)
    | KeySourced(source: KeySourceDecoder)
    | TapOrigin(origin: TapKeyOriginDecoder)

  ghost function Parts(d: FieldDecoder): set<object> {
    match d
    case Sized(v) => {v}
    case Whole(w) => {w}
    case Signature(e) => {e, e.buf}
    case KeySourced(k) => {k}
    case TapOrigin(t) => {t}
  }

  function CodecOf(d: FieldDecoder): Codec {
    match d
    case Sized(v) => v.codec
    case Whole(w) => w.codec
    case Signature(_) => EcdsaCodec
    case KeySourced(_) => KeySourceCodec
    case TapOrigin(_) => TapKeyOriginCodec
  }

  ghost predicate ValidField(d: FieldDecoder)
    reads Parts(d)
  {
    match d
    case Sized(v) => v.Valid()
    case Whole(w) => w.Valid()
    case Signature(e) => e.Valid()
    case KeySourced(k) => k.Valid()
    case TapOrigin(t) => t.Valid()
  }

  ghost predicate DoneField(d: FieldDecoder)
    reads Parts(d)
    requires ValidField(d)
  {
    match d
    case Sized(v) => v.Done()
    case Whole(w) => w.Done()
    case Signature(e) => e.Done()
    case KeySourced(k) => k.Done()
    case TapOrigin(t) => t.Done()
  }

  ghost function SeenBy(d: FieldDecoder): bytes
    reads Parts(d)
  {
    match d
    case Sized(v) => v.seen
    case Whole(w) => w.seen
    case Signature(e) => e.seen
    case KeySourced(k) => k.seen
    case TapOrigin(t) => t.seen
  }

  method NewField(c: Codec) returns (d: FieldDecoder)
    ensures ValidField(d) && !DoneField(d) && SeenBy(d) == [] && CodecOf(d) == c && fresh(Parts(d))
  {
    if FindsItsEnd(c) {
      var v := new ValueDecoder(c);
      d := Sized(v);
    } else if c.EcdsaCodec? {
      var e := new EcdsaSignatureDecoder();
      d := Signature(e);
    } else if c.KeySourceCodec? {
      var k := new KeySourceDecoder();
      d := KeySourced(k);
    } else if c.TapKeyOriginCodec? {
      var t := new TapKeyOriginDecoder();
      d := TapOrigin(t);
    } else {
      var w := new WholeDecoder(c);
      d := Whole(w);
    }
  }

  lemma FieldVerdict(d: FieldDecoder)
    requires ValidField(d) && !DoneField(d)
    ensures ParseValue(CodecOf(d), SeenBy(d)) == More
  {
    hide ParseValue;
    match d
    case Sized(v) => v.Verdict();
    case Whole(w) => w.Verdict();
    case Signature(e) => e.Verdict();
    case KeySourced(k) => k.Verdict();
    case TapOrigin(t) => t.Verdict();
  }

  method PushField(d: FieldDecoder, b: bytes) returns (used: nat, status: Status)
    requires ValidField(d) && !DoneField(d)
    modifies Parts(d)
    ensures used <= |b| && SeenBy(d) == old(SeenBy(d)) + b[..used]
    ensures status.NeedsMore? ==> used == |b| && ValidField(d) && !DoneField(d)
    ensures status.Finished? ==> ValidField(d) && DoneField(d)
    ensures status.Failed? ==> ParseValue(CodecOf(d), SeenBy(d)) == Fail(status.error)
  {
    hide ParseValue;
    match d
    case Sized(v) => used, status := v.PushBytes(b);
    case Whole(w) => used, status := w.PushBytes(b);
    case Signature(e) => used, status := e.PushBytes(b);
    case KeySourced(k) => used, status := k.PushBytes(b);
    case TapOrigin(t) => used, status := t.PushBytes(b);
  }

  method EndField(d: FieldDecoder) returns (r: Result<Value, Error>)
    requires ValidField(d) && DoneField(d)
    ensures r.Ok? ==> ParseValue(CodecOf(d), SeenBy(d)) == Ready(r.value, |SeenBy(d)|)
    ensures r.Err? ==> ParseValue(CodecOf(d), SeenBy(d)) == Fail(r.error)
  {
    hide ParseValue;
    match d
    case Sized(v) => r := v.End();
    case Whole(w) => r := w.End();
    case Signature(e) => r := e.End();
    case KeySourced(k) => r := k.End();
    case TapOrigin(t) => r := t.End();
  }

  /* ----- the map ----- */

  /** Having stored `r` out of `base`, the decoder stands where a fresh one fed `base` would. */
  ghost predicate Follows(table: Table, base: bytes, r: Record) {
    forall x {:trigger ParseMap(table, r, x)} :: ParseMap(table, map[], base + x) == Shift(ParseMap(table, r, x), |base|)
  }

  lemma ShiftNone<V>(o: Outcome<V>)
    ensures Shift(o, 0) == o
  {
  }

  lemma FollowsNothing(table: Table)
    ensures Follows(table, [], map[])
  {
    hide ParseMap;
    hide Shift;
    var none: bytes := [];
    forall x: bytes ensures ParseMap(table, map[], none + x) == Shift(ParseMap(table, map[], x), |none|) {
      assert none + x == x;
      ShiftNone(ParseMap(table, map[], x));
    }
  }

  lemma FollowsEntry(table: Table, base: bytes, r: Record, q: bytes, e: Entry)
    requires Follows(table, base, r) && q != [] && q[0] != 0
    requires ParseEntry(table, q) == Ready(e, |q|) && Store(table, r, e).Ok?
    ensures Follows(table, base + q, Store(table, r, e).value)
  {
    hide ParseEntry, Store, Complete;
    var r' := Store(table, r, e).value;
    forall x: bytes ensures ParseMap(table, map[], base + q + x) == Shift(ParseMap(table, r', x), |base + q|) {
      Concat(base, q, x);
      EntrySettled(table, q, x);
      assert (q + x)[0] == q[0] && (q + x)[|q|..] == x;
      assert ParseMap(table, r, q + x) == Shift(ParseMap(table, r', x), |q|);
    }
  }

  lemma BytesAsValue(b: bytes)
    ensures ParseValue(BytesCodec, b) == match ParseBytes(b)
                                         case More => More
                                         case Fail(e) => Fail(e)
                                         case Ready(v, k) => Ready(Blob(v), k)
  {
  }

  /** How a pair stands once its key is read. */
  ghost predicate KeyRead(table: Table, q: bytes, key: Key, codec: Codec) {
    && q != [] && q[0] != 0
    && ParseBytes(q).Ready? && ParseBytes(q).used == |q| && ReadKey(ParseBytes(q).value) == Ok(key)
    && RuleOf(table, key).Accept? && RuleOf(table, key).codec == codec
  }

  lemma EntryAfterKey(table: Table, q: bytes, key: Key, codec: Codec, rest: bytes)
    requires KeyRead(table, q, key, codec)
    ensures ParseEntry(table, q + rest) == match ParseValue(codec, rest)
                                           case More => More
                                           case Fail(e) => Fail(e)
                                           case Ready(v, m) => Ready(Entry(key, v), |q| + m)
  {
    hide RuleOf, ParseValue, ReadKey, ParseBytes;
    BytesSettled(q, rest);
    assert (q + rest)[|q|..] == rest;
  }

  /** What the map decoder makes of an unfinished or failed pair. */
  lemma PairPending(table: Table, base: bytes, r: Record, q: bytes)
    requires Follows(table, base, r) && q != [] && q[0] != 0
    ensures ParseEntry(table, q) == More ==> ParseMap(table, map[], base + q) == More
    ensures ParseEntry(table, q).Fail? ==> ParseMap(table, map[], base + q) == Fail(ParseEntry(table, q).error)
    ensures ParseEntry(table, q).Ready? && Store(table, r, ParseEntry(table, q).value).Err?
            ==> ParseMap(table, map[], base + q) == Fail(Store(table, r, ParseEntry(table, q).value).error)
  {
    hide ParseEntry, Store, Complete;
    assert ParseMap(table, map[], base + q) == Shift(ParseMap(table, r, q), |base|);
  }

  lemma KeyPending(table: Table, q: bytes)
    ensures ParseBytes(q) == More ==> ParseEntry(table, q) == More
    ensures ParseBytes(q).Fail? ==> ParseEntry(table, q) == Fail(ParseBytes(q).error)
    ensures ParseBytes(q).Ready? && ReadKey(ParseBytes(q).value).Err?
            ==> ParseEntry(table, q) == Fail(ReadKey(ParseBytes(q).value).error)
    ensures ParseBytes(q).Ready? && ReadKey(ParseBytes(q).value).Ok? && RuleOf(table, ReadKey(ParseBytes(q).value).value).Reject?
            ==> ParseEntry(table, q) == Fail(RuleOf(table, ReadKey(ParseBytes(q).value).value).error)
  {
    hide RuleOf, ParseValue, ReadKey, ParseBytes;
  }

  lemma CloseVerdict(table: Table, base: bytes, r: Record)
    requires Follows(table, base, r)
    ensures ParseMap(table, map[], base + [0]) == match Complete(table, r)
                                                  case Some(e) => Fail(e)
                                                  case None => Ready(r, |base| + 1)
  {
    hide Complete;
    assert ParseMap(table, map[], base + [0]) == Shift(ParseMap(table, r, [0]), |base|);
  }

  lemma KeyIsRead(table: Table, q: bytes, key: Key, codec: Codec)
    requires q != [] && q[0] != 0 && RuleOf(table, key).Accept? && RuleOf(table, key).codec == codec
    requires ParseBytes(q).Ready? && ParseBytes(q).used == |q| && ReadKey(ParseBytes(q).value) == Ok(key)
    ensures KeyRead(table, q, key, codec)
  {
  }

  datatype MapStage =
    | DecodingSeparator
    | DecodingKey(keyDecoder: WholeDecoder)
    | DecodingValue(key: Key, field: FieldDecoder)
    | MapDone(record: Record)
    | MapErrored

  ghost function StageParts(s: MapStage): set<object> {
    match s
    case DecodingKey(d) => {d}
    case DecodingValue(_, f) => Parts(f)
    case _ => {}
  }

  function Rank(s: MapStage): nat {
    match s
    case DecodingKey(_) => 2
    case DecodingValue(_, _) => 1
    case _ => 0
  }

  datatype Turn = Going | Stop(status: Status)

  /** `GlobalDecoder`, `InputDecoder`, `OutputDecoder` and their version-0 counterparts. */
  class MapDecoder {
    const table: Table
    var stage: MapStage
    var acc: Record
    ghost var base: bytes
    ghost var keyBytes: bytes
    ghost var seen: bytes

    ghost function Repr(): set<object>
      reads this
    {
      {this} + StageParts(stage)
    }

    ghost predicate Valid()
      reads this, StageParts(stage)
    {
      && this !in StageParts(stage)
      && match stage
         case DecodingSeparator => Follows(table, base, acc) && seen == base
         case DecodingKey(d) =>
           && Follows(table, base, acc)
           && d.Valid() && !d.Done() && d.codec == BytesCodec
           && seen == base + d.seen && d.seen != [] && d.seen[0] != 0
         case DecodingValue(key, f) =>
           && Follows(table, base, acc)
           && ValidField(f) && !DoneField(f) && KeyRead(table, keyBytes, key, CodecOf(f))
           && seen == base + (keyBytes + SeenBy(f))
         case MapDone(r) => ParseMap(table, map[], seen) == Ready(r, |seen|)
         case MapErrored => false
    }

    ghost predicate Done()
      reads this
    {
      stage.MapDone?
    }

    constructor (table: Table)
      ensures Valid() && !Done() && seen == [] && this.table == table && fresh(Repr())
    {
      this.table := table;
      stage, acc, base, keyBytes, seen := DecodingSeparator, map[], [], [], [];
      new;
      FollowsNothing(table);
    }

    /** Between pushes, an unfinished decoder has seen an unfinished map. */
    lemma Verdict()
      requires Valid() && !Done()
      ensures ParseMap(table, map[], seen) == More
    {
      hide ParseMap, ParseEntry, ParseValue, RuleOf;
      match stage {
        case DecodingSeparator =>
          NoEntry(table, acc);
          assert ParseMap(table, map[], base + []) == Shift(ParseMap(table, acc, []), |base|);
          assert base + [] == base;
        case DecodingKey(d) =>
          d.Verdict();
          BytesAsValue(d.seen);
          KeyPending(table, d.seen);
          PairPending(table, base, acc, d.seen);
        case DecodingValue(key, f) =>
          FieldVerdict(f);
          EntryAfterKey(table, keyBytes, key, CodecOf(f), SeenBy(f));
          PairPending(table, base, acc, keyBytes + SeenBy(f));
      }
    }

    lemma DoneVerdict()
      requires Valid() && Done()
      ensures ParseMap(table, map[], seen) == Ready(stage.record, |seen|)
    {
    }

    lemma NoEntry(table: Table, r: Record)
      ensures ParseMap(table, r, []) == More
    {
    }

    /** The separator ends the map, if everything required is there. */
    method Close() returns (status: Status)
      requires Valid() && stage.DecodingSeparator?
      modifies this
      ensures seen == old(seen) + [0] && StageParts(stage) == {}
      ensures status.Finished? ==> Valid() && Done()
      ensures status.Failed? ==> ParseMap(table, map[], seen) == Fail(status.error)
      ensures !status.NeedsMore?
    {
      hide ParseMap, Follows, Complete;
      seen := seen + [0];
      CloseVerdict(table, base, acc);
      match Complete(table, acc)
      case Some(e) =>
        stage := MapErrored;
        status := Failed(e);
      case None =>
        stage := MapDone(acc);
        status := Finished;
    }

    /** A key is complete: what it says, and the decoder its value asks for. */
    method JudgeKey(d: WholeDecoder) returns (r: Result<(Key, Codec), Error>)
      requires d.Valid() && d.Done() && d.codec == BytesCodec && d.seen != [] && d.seen[0] != 0
      ensures r.Ok? ==> KeyRead(table, d.seen, r.value.0, r.value.1)
      ensures r.Err? ==> ParseEntry(table, d.seen) == Fail(r.error)
    {
      hide ParseEntry, ParseValue, RuleOf, ReadKey, ParseBytes, KeyRead;
      var body := d.End();
      BytesAsValue(d.seen);
      KeyPending(table, d.seen);
      if body.Err? { return Err(body.error); }
      match ReadKey(BlobOf(body.value))
      case Err(e) => r := Err(e);
      case Ok(key) =>
        match RuleOf(table, key)
        case Reject(e) => r := Err(e);
        case Accept(codec, _) =>
          KeyIsRead(table, d.seen, key, codec);
          r := Ok((key, codec));
    }

    /** Choose the value decoder, or refuse the key. */
    method EndKey(d: WholeDecoder) returns (turn: Turn)
      requires Follows(table, base, acc) && d.Valid() && d.Done() && d.codec == BytesCodec && d != this as object
      requires seen == base + d.seen && d.seen != [] && d.seen[0] != 0
      modifies this
      ensures seen == old(seen)
      ensures turn.Going? ==> Valid() && stage.DecodingValue? && fresh(StageParts(stage))
      ensures turn.Stop? ==>
        turn.status.Failed? && stage == MapErrored && ParseMap(table, map[], seen) == Fail(turn.status.error)
    {
      hide ParseMap, ParseEntry, ParseValue, ParseBytes, Follows, KeyRead, WholeDecoder.Valid, WholeDecoder.Done;
      var judged := JudgeKey(d);
      match judged
      case Err(e) =>
        PairPending(table, base, acc, d.seen);
        stage := MapErrored;
        turn := Stop(Failed(e));
      case Ok((key, codec)) =>
        keyBytes := d.seen;
        var f := NewField(codec);
        stage := DecodingValue(key, f);
        assert keyBytes + [] == keyBytes;
        turn := Going;
    }

    /** A value is complete: check the key data, refuse a duplicate, or store it. */
    method EndValue(key: Key, f: FieldDecoder) returns (turn: Turn)
      requires Follows(table, base, acc) && ValidField(f) && DoneField(f) && this !in Parts(f)
      requires KeyRead(table, keyBytes, key, CodecOf(f)) && seen == base + (keyBytes + SeenBy(f))
      modifies this
      ensures seen == old(seen)
      ensures turn.Going? ==> Valid() && stage.DecodingSeparator?
      ensures turn.Stop? ==>
        turn.status.Failed? && stage == MapErrored && ParseMap(table, map[], seen) == Fail(turn.status.error)
    {
      hide ParseMap, ParseEntry, ParseValue, ParseBytes, RuleOf, Store, Follows;
      var value := EndField(f);
      ghost var q := keyBytes + SeenBy(f);
      EntryAfterKey(table, keyBytes, key, CodecOf(f), SeenBy(f));
      PairPending(table, base, acc, q);
      if value.Err? {
        stage := MapErrored;
        return Stop(Failed(value.error));
      }
      match Store(table, acc, Entry(key, value.value))
      case Err(e) =>
        stage := MapErrored;
        return Stop(Failed(e));
      case Ok(r) =>
        FollowsEntry(table, base, acc, q, Entry(key, value.value));
        acc, base, stage := r, base + q, DecodingSeparator;
        turn := Going;
    }

    method TurnKey(b: bytes, d: WholeDecoder) returns (used: nat, turn: Turn)
      requires Follows(table, base, acc) && d.Valid() && !d.Done() && d.codec == BytesCodec && d != this as object
      requires stage == DecodingKey(d) && seen == base + d.seen
      requires if d.seen == [] then b != [] && b[0] != 0 else d.seen[0] != 0
      modifies this, d
      ensures used <= |b| && seen == old(seen) + b[..used]
      ensures turn.Going? ==>
        Valid() && stage.DecodingValue? && fresh(StageParts(stage)) && (old(d.seen) == [] ==> used >= 1)
      ensures turn.Stop? && turn.status.NeedsMore? ==> used == |b| && Valid() && stage == DecodingKey(d)
      ensures turn.Stop? && turn.status.Failed? ==>
        stage == MapErrored && ParseMap(table, map[], seen) == Fail(turn.status.error)
      ensures turn.Stop? ==> !turn.status.Finished?
    {
      hide ParseMap, ParseEntry, ParseValue, ParseBytes, Follows;
      var status;
      used, status := d.PushBytes(b);
      Concat(base, old(d.seen), b[..used]);
      seen := base + d.seen;
      NoValue(d.seen);
      match status
      case NeedsMore => turn := Stop(NeedsMore);
      case Failed(e) =>
        BytesAsValue(d.seen);
        KeyPending(table, d.seen);
        PairPending(table, base, acc, d.seen);
        stage := MapErrored;
        turn := Stop(Failed(e));
      case Finished =>
        d.Verdict();
        turn := EndKey(d);
    }

    lemma NoValue(b: bytes)
      ensures b == [] ==> ParseValue(BytesCodec, b) == More
    {
    }

    method TurnValue(b: bytes, key: Key, f: FieldDecoder) returns (used: nat, turn: Turn)
      requires Valid() && stage == DecodingValue(key, f)
      modifies this, Parts(f)
      ensures used <= |b| && seen == old(seen) + b[..used]
      ensures turn.Going? ==> Valid() && stage.DecodingSeparator?
      ensures turn.Stop? && turn.status.NeedsMore? ==> used == |b| && Valid() && stage == DecodingValue(key, f)
      ensures turn.Stop? && turn.status.Failed? ==>
        stage == MapErrored && ParseMap(table, map[], seen) == Fail(turn.status.error)
      ensures turn.Stop? ==> !turn.status.Finished?
    {
      hide ParseMap, ParseEntry, ParseValue, Follows, KeyRead, RuleOf;
      ghost var before := SeenBy(f);
      var status;
      used, status := PushField(f, b);
      Concat(keyBytes, before, b[..used]);
      Concat(base, keyBytes + before, b[..used]);
      seen := base + (keyBytes + SeenBy(f));
      match status
      case NeedsMore => turn := Stop(NeedsMore);
      case Failed(e) =>
        EntryAfterKey(table, keyBytes, key, CodecOf(f), SeenBy(f));
        KeyReadFirst(table, keyBytes, key, CodecOf(f));
        PairPending(table, base, acc, keyBytes + SeenBy(f));
        stage := MapErrored;
        turn := Stop(Failed(e));
      case Finished =>
        turn := EndValue(key, f);
    }

    lemma KeyReadFirst(table: Table, q: bytes, key: Key, codec: Codec)
      requires KeyRead(table, q, key, codec)
      ensures q != [] && q[0] != 0
    {
    }

    /** Between pairs: the separator, or the first byte of a key. */
    method TurnSeparator(b: bytes) returns (used: nat, turn: Turn)
      requires Valid() && stage.DecodingSeparator?
      modifies this
      ensures used <= |b| && seen == old(seen) + b[..used]
      ensures fresh(StageParts(stage))
      ensures turn.Going? ==> Valid() && !Done() && used >= 1
      ensures turn.Stop? && turn.status.NeedsMore? ==> used == |b| && Valid() && !Done()
      ensures turn.Stop? && turn.status.Finished? ==> Valid() && Done()
      ensures turn.Stop? && turn.status.Failed? ==> ParseMap(table, map[], seen) == Fail(turn.status.error)
    {
      hide ParseMap, Follows, KeyRead, ValidField, DoneField;
      if b == [] { return 0, Stop(NeedsMore); }
      if b[0] == 0 {
        var status := Close();
        return 1, Stop(status);
      }
      var d := new WholeDecoder(BytesCodec);
      stage := DecodingKey(d);
      assert base + [] == base;
      used, turn := TurnKey(b, d);
    }

    /** One round of the loop. */
    method Round(b: bytes) returns (used: nat, turn: Turn)
      requires Valid() && !Done()
      modifies Repr()
      ensures used <= |b| && seen == old(seen) + b[..used]
      ensures fresh(Repr() - old(Repr()))
      ensures turn.Going? ==> Valid() && !Done()
      ensures turn.Going? ==> used >= 1 || Rank(stage) < old(Rank(stage))
      ensures turn.Stop? && turn.status.NeedsMore? ==> used == |b| && Valid() && !Done()
      ensures turn.Stop? && turn.status.Finished? ==> Valid() && Done()
      ensures turn.Stop? && turn.status.Failed? ==> ParseMap(table, map[], seen) == Fail(turn.status.error)
    {
      hide ParseMap, Follows, KeyRead, ValidField, DoneField, WholeDecoder.Valid, WholeDecoder.Done;
      match stage
      case DecodingSeparator => used, turn := TurnSeparator(b);
      case DecodingKey(d) => used, turn := TurnKey(b, d);
      case DecodingValue(key, f) => used, turn := TurnValue(b, key, f);
    }

    method PushBytes(b: bytes) returns (used: nat, status: Status)
      requires Valid() && !Done()
      modifies Repr()
      ensures used <= |b| && seen == old(seen) + b[..used]
      ensures fresh(Repr() - old(Repr()))
      ensures status.NeedsMore? ==> used == |b| && Valid() && !Done() && ParseMap(table, map[], seen) == More
      ensures status.Finished? ==> Valid() && Done()
      ensures status.Failed? ==> ParseMap(table, map[], seen) == Fail(status.error)
    {
      hide ParseMap, Follows, KeyRead, Valid;
      var turn := Going;
      used := 0;
      assert b[..0] == [];
      while turn.Going?
        invariant used <= |b| && seen == old(seen) + b[..used]
        invariant fresh(Repr() - old(Repr()))
        invariant turn.Going? ==> Valid() && !Done()
        invariant turn.Stop? && turn.status.NeedsMore? ==> used == |b| && Valid() && !Done()
        invariant turn.Stop? && turn.status.Finished? ==> Valid() && Done()
        invariant turn.Stop? && turn.status.Failed? ==> ParseMap(table, map[], seen) == Fail(turn.status.error)
        decreases turn.Going?, |b| - used, Rank(stage)
      {
        var k;
        k, turn := Round(b[used..]);
        assert b[..used] + b[used..][..k] == b[..used + k];
        used := used + k;
      }
      if turn.status.NeedsMore? { Verdict(); }
      status := turn.status;
    }
  }
}
