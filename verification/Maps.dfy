/**
 * Key-value maps: the push decoder of a map, what it accepts, and the encoding it undoes.
 *
 * A map in memory is a `Record`: a slot for every field set and every map entry.
 */
module Maps {
  import opened Bytes
  import opened CompactSize
  import opened Bitcoin
  import opened Formats
  import opened Values
  import opened ValueCodecs
  import opened Tables

  type Record = map<Key, Value>

  datatype Entry = Entry(key: Key, value: Value)

  /** A key, then (if its type is known to hold one) a value. */
  function ParseEntry(table: Table, b: bytes): Outcome<Entry> {
    match ParseBytes(b)
    case More => More
    case Fail(e) => Fail(e)
    case Ready(body, k) =>
      match ReadKey(body)
      case Err(e) => Fail(e)
      case Ok(key) =>
        match RuleOf(table, key)
        case Reject(e) => Fail(e)
        case Accept(codec, _) =>
          if k > |b| then More else
          match ParseValue(codec, b[k..])
          case More => More
          case Fail(e) => Fail(e)
          case Ready(v, m) => Ready(Entry(key, v), k + m)
  }

  /** What a decoder does with a decoded pair: check the key data, refuse duplicates, remember. */
  function Store(table: Table, r: Record, e: Entry): Result<Record, Error> {
    var slot := Slot(table, e.key);
    match RuleOf(table, e.key)
    case Reject(err) => Err(err)
    case Accept(_, data) =>
      if data.NoData? && Key(e.key.keyType, []) in r then Err(DuplicateKey)
      else if !DataOk(data, e.key.data) then Err(InvalidKeyData)
      else if slot in r then Err(DuplicateKey)
      else Ok(r[slot := e.value])
  }

  predicate Has(r: Record, t: nat) { Key(t, []) in r }

  predicate HasType(r: Record, t: nat) { exists k | k in r :: k.keyType == t }

  /** The checks made at the separator (and, for the spent transaction, by the input's `end`). */
  function Complete(table: Table, r: Record): Option<Error> {
    match table
    case GlobalV2 =>
      if !Has(r, VERSION) then Some(Missing(VERSION))
      else if !Has(r, TX_VERSION) then Some(Missing(TX_VERSION))
      else if !Has(r, INPUT_COUNT) then Some(Missing(INPUT_COUNT))
      else if !Has(r, OUTPUT_COUNT) then Some(Missing(OUTPUT_COUNT))
      else if HasType(r, GLOBAL_SP_ECDH) != HasType(r, GLOBAL_SP_DLEQ) then Some(SpFieldMismatch)
      else None
    case InputV2 =>
      if !Has(r, PREVIOUS_TXID) then Some(Missing(PREVIOUS_TXID))
      else if !Has(r, OUTPUT_INDEX) then Some(Missing(OUTPUT_INDEX))
      else if HasType(r, INPUT_SP_ECDH) != HasType(r, INPUT_SP_DLEQ) then Some(SpFieldMismatch)
      else if Has(r, NON_WITNESS_UTXO) && r[Key(NON_WITNESS_UTXO, [])].Tx? &&
              Blob(CRYPTO.txid(r[Key(NON_WITNESS_UTXO, [])].tx)) != r[Key(PREVIOUS_TXID, [])]
      then Some(IncorrectNonWitnessUtxo)
      else None
    case OutputV2 =>
      if !Has(r, OUT_AMOUNT) then Some(Missing(OUT_AMOUNT))
      else if !Has(r, OUT_SCRIPT) && !Has(r, OUT_SP_V0_INFO) then Some(Missing(OUT_SCRIPT))
      else if Has(r, OUT_SP_V0_LABEL) && !Has(r, OUT_SP_V0_INFO) then Some(SpLabelWithoutInfo)
      else None
    case GlobalV0 =>
      if !Has(r, UNSIGNED_TX) then Some(Missing(UNSIGNED_TX))
      else if HasType(r, GLOBAL_SP_ECDH) != HasType(r, GLOBAL_SP_DLEQ) then Some(SpFieldMismatch)
      else None
    case InputV0 => None
    case OutputV0 => None
  }

  /** The decoder of a map that has already stored `r`. */
  function ParseMap(table: Table, r: Record, b: bytes): Outcome<Record>
    decreases |b|
  {
    if b == [] then More
    else if b[0] == 0 then
      match Complete(table, r)
      case Some(e) => Fail(e)
      case None => Ready(r, 1)
    else
      match ParseEntry(table, b)
      case More => More
      case Fail(e) => Fail(e)
      case Ready(entry, k) =>
        match Store(table, r, entry)
        case Err(e) => Fail(e)
        case Ok(r') => if k == 0 || k > |b| then More else Shift(ParseMap(table, r', b[k..]), k)
  }

  /* ----- more input never changes a verdict ----- */

  lemma BytesSettled(b: bytes, c: bytes)
    ensures ParseBytes(b) != More ==> ParseBytes(b + c) == ParseBytes(b)
    ensures ParseBytes(b).Ready? ==>
              var Ready(v, k) := ParseBytes(b); 1 <= k <= |b| && |v| <= CAP && b[..k] == Prefixed(v)
  {
    ByteVecCanonical();
    assert Streams(ByteVec(), b, c) && Reads(ByteVec(), b);
  }

  lemma EntrySettled(table: Table, b: bytes, c: bytes)
    ensures Settled(ParseEntry(table, b), ParseEntry(table, b + c), |b|)
    ensures ParseEntry(table, b).Ready? ==> ParseEntry(table, b).used >= 2
  {
    hide RuleOf, ParseValue, ReadKey;
    BytesSettled(b, c);
    if ParseBytes(b).Ready? {
      var Ready(body, k) := ParseBytes(b);
      Split(b, c, k);
      if ReadKey(body).Ok? && RuleOf(table, ReadKey(body).value).Accept? {
        var codec := RuleOf(table, ReadKey(body).value).codec;
        ValueSettled(codec, b[k..], c);
        if ParseValue(codec, b[k..]).Ready? { var _ := ValueSound(codec, b[k..]); }
      }
    }
  }

  /** A map decoder that has reached a verdict keeps it, and it never reads past the separator. */
  lemma {:induction false} MapSettled(table: Table, r: Record, b: bytes, c: bytes)
    ensures Settled(ParseMap(table, r, b), ParseMap(table, r, b + c), |b|)
    decreases |b|
  {
    hide RuleOf, Complete, DataOk, ParseEntry, Store;
    if b != [] && b[0] != 0 {
      EntrySettled(table, b, c);
      if ParseEntry(table, b).Ready? {
        var Ready(entry, k) := ParseEntry(table, b);
        if Store(table, r, entry).Ok? {
          Split(b, c, k);
          MapSettled(table, Store(table, r, entry).value, b[k..], c);
        }
      }
    }
  }

  /* ----- exactly which bytes are accepted ----- */

  /** A key-value pair as it stands in a file: the key, and the bytes of the value. */
  datatype Pair = Pair(key: Key, body: bytes)

  function Frame(p: Pair): bytes { Prefixed(KeyBody(p.key)) + Prefixed(p.body) }

  function Frames(ps: seq<Pair>): bytes {
    if ps == [] then [] else Frame(ps[0]) + Frames(ps[1..])
  }

  predicate PairFits(p: Pair) { KeyFits(p.key) && |p.body| <= CAP }

  predicate AllFit(ps: seq<Pair>) { forall i | 0 <= i < |ps| :: PairFits(ps[i]) }

  /** The entry a pair stands for, if its type is accepted and its value decodes. */
  function Meaning(table: Table, p: Pair): Option<Entry> {
    match RuleOf(table, p.key)
    case Reject(_) => None
    case Accept(codec, _) =>
      match Dec(codec, p.body)
      case None => None
      case Some(v) => Some(Entry(p.key, v))
  }

  /** All the pairs, stored one after the other. */
  function Collect(table: Table, r: Record, ps: seq<Pair>): Option<Record>
    decreases |ps|
  {
    if ps == [] then Some(r)
    else
      match Meaning(table, ps[0])
      case None => None
      case Some(e) =>
        match Store(table, r, e)
        case Err(_) => None
        case Ok(r') => Collect(table, r', ps[1..])
  }

  lemma EntryComplete(table: Table, p: Pair, c: bytes)
    requires PairFits(p) && Meaning(table, p).Some?
    ensures ParseEntry(table, Frame(p) + c) == Ready(Meaning(table, p).value, |Frame(p)|)
    ensures Frame(p) != [] && Frame(p)[0] != 0
  {
    hide RuleOf, ParseValue, Dec;
    var head, tail := Prefixed(KeyBody(p.key)), Prefixed(p.body);
    ByteVecCanonical();
    Concat(head, tail, c);
    assert Writes(ByteVec(), KeyBody(p.key), tail + c);
    KeyRoundTrip(p.key, []);
    ValueComplete(RuleOf(table, p.key).codec, p.body, c);
    SizeNonZero(|KeyBody(p.key)|);
  }

  lemma SizeNonZero(n: nat)
    ensures n > 0 <==> Size(n)[0] != 0
  {
  }

  lemma EntrySound(table: Table, b: bytes) returns (p: Pair)
    requires ParseEntry(table, b).Ready?
    ensures var Ready(e, k) := ParseEntry(table, b);
      k <= |b| && PairFits(p) && b[..k] == Frame(p) && Meaning(table, p) == Some(e)
  {
    hide RuleOf, ParseValue, ParseBytes, Prefixed, KeyBody, ReadKey;
    BytesSettled(b, []);
    var Ready(body, k) := ParseBytes(b);
    KeyRoundTrip(Key(0, []), body);
    var key := ReadKey(body).value;
    var value := ValueSound(RuleOf(table, key).codec, b[k..]);
    p := Pair(key, value);
    var m := ParseValue(RuleOf(table, key).codec, b[k..]).used;
    assert ParseEntry(table, b) == Ready(Entry(key, ParseValue(RuleOf(table, key).codec, b[k..]).value), k + m);
    Cut(b, k, k + m);
  }

  lemma MapStep(table: Table, r: Record, p: Pair, tail: bytes)
    requires PairFits(p) && Meaning(table, p).Some? && Store(table, r, Meaning(table, p).value).Ok?
    ensures ParseMap(table, r, Frame(p) + tail)
         == Shift(ParseMap(table, Store(table, r, Meaning(table, p).value).value, tail), |Frame(p)|)
  {
    hide RuleOf, Complete, DataOk, Store, ParseEntry, Meaning;
    EntryComplete(table, p, tail);
    assert (Frame(p) + tail)[|Frame(p)|..] == tail;
  }

  /** Pairs that can all be stored, then a separator the map is complete at, are accepted. */
  lemma {:induction false} MapComplete(table: Table, r: Record, ps: seq<Pair>, c: bytes)
    requires AllFit(ps) && Collect(table, r, ps).Some?
    requires Complete(table, Collect(table, r, ps).value) == None
    ensures ParseMap(table, r, Frames(ps) + [0] + c) == Ready(Collect(table, r, ps).value, |Frames(ps)| + 1)
    decreases |ps|
  {
    hide RuleOf, Complete, DataOk, Store, ParseEntry, Meaning, Frame;
    var b := Frames(ps) + [0] + c;
    if ps == [] {
      assert b[0] == 0;
    } else {
      var tail := Frames(ps[1..]) + [0] + c;
      assert b == Frame(ps[0]) + tail;
      MapStep(table, r, ps[0], tail);
      MapComplete(table, Store(table, r, Meaning(table, ps[0]).value).value, ps[1..], c);
    }
  }

  /** Whatever is accepted is such a sequence of pairs and a separator. */
  lemma {:induction false} MapSound(table: Table, r: Record, b: bytes) returns (ps: seq<Pair>)
    requires ParseMap(table, r, b).Ready?
    ensures var Ready(out, k) := ParseMap(table, r, b);
      && k <= |b| && AllFit(ps) && b[..k] == Frames(ps) + [0]
      && Collect(table, r, ps) == Some(out) && Complete(table, out) == None
    decreases |b|
  {
    hide RuleOf, Complete, DataOk, Store, ParseEntry, Meaning, Frame, PairFits;
    if b[0] == 0 {
      ps := [];
      assert b[..1] == [0];
    } else {
      var p := EntrySound(table, b);
      var Ready(e, k) := ParseEntry(table, b);
      var r' := Store(table, r, e).value;
      var rest := MapSound(table, r', b[k..]);
      ps := [p] + rest;
      assert ps[1..] == rest && ps[0] == p;
      Cut(b, k, k + ParseMap(table, r', b[k..]).used);
      Concat(Frame(p), Frames(rest), [0]);
    }
  }

  /* ----- what pairs add up to, whatever their order ----- */

  /** A pair that no map refuses on its own account. */
  predicate Sound(table: Table, p: Pair) {
    && Meaning(table, p).Some?
    && DataOk(RuleOf(table, p.key).data, p.key.data)
  }

  function PairSlot(table: Table, p: Pair): Key { Slot(table, p.key) }

  ghost predicate Distinct(table: Table, ps: seq<Pair>) {
    forall i, j | 0 <= i < j < |ps| :: PairSlot(table, ps[i]) != PairSlot(table, ps[j])
  }

  ghost predicate Collectable(table: Table, r: Record, ps: seq<Pair>) {
    && (forall i | 0 <= i < |ps| :: Sound(table, ps[i]) && PairSlot(table, ps[i]) !in r)
    && Distinct(table, ps)
  }

  /** The record that holds exactly `r` and the meanings of the pairs. */
  ghost predicate Holds(table: Table, r: Record, ps: seq<Pair>, out: Record) {
    && (forall k :: k in out <==> k in r || exists i | 0 <= i < |ps| :: PairSlot(table, ps[i]) == k)
    && (forall k | k in r :: k in out && out[k] == r[k])
    && (forall i | 0 <= i < |ps| :: Meaning(table, ps[i]).Some? && PairSlot(table, ps[i]) in out
                                     && out[PairSlot(table, ps[i])] == Meaning(table, ps[i]).value.value)
  }

  lemma StoreOk(table: Table, r: Record, p: Pair)
    requires Meaning(table, p).Some?
    ensures Store(table, r, Meaning(table, p).value).Ok? <==> Sound(table, p) && PairSlot(table, p) !in r
    ensures Sound(table, p) && PairSlot(table, p) !in r ==>
              Store(table, r, Meaning(table, p).value) == Ok(r[PairSlot(table, p) := Meaning(table, p).value.value])
  {
    hide RuleOf, Complete;
  }

  lemma NotSound(table: Table, p: Pair)
    requires Meaning(table, p) == None
    ensures !Sound(table, p)
  {
  }

  lemma HoldsNothing(table: Table, r: Record)
    ensures Holds(table, r, [], r)
  {
  }

  lemma {:induction false} CollectExact(table: Table, r: Record, ps: seq<Pair>)
    ensures Collect(table, r, ps).Some? <==> Collectable(table, r, ps)
    ensures Collect(table, r, ps).Some? ==>
              Holds(table, r, ps, Collect(table, r, ps).value) && |Collect(table, r, ps).value| == |r| + |ps|
    decreases |ps|
  {
    hide RuleOf, Complete, DataOk, Store, Meaning, Sound, PairSlot, Holds;
    if ps != [] {
      var p, rest := ps[0], ps[1..];
      assert ps == [p] + rest;
      assert Collectable(table, r, ps) ==> Sound(table, p) && PairSlot(table, p) !in r;
      if Meaning(table, p).Some? {
        StoreOk(table, r, p);
        if Sound(table, p) && PairSlot(table, p) !in r {
          var r' := r[PairSlot(table, p) := Meaning(table, p).value.value];
          CollectExact(table, r', rest);
          var v := Meaning(table, p).value.value;
          if Collectable(table, r, ps) { CollectableTail(table, r, p, rest, v); }
          if Collectable(table, r', rest) {
            CollectableCons(table, r, p, rest, v);
            HoldsStep(table, r, p, rest, Collect(table, r', rest).value);
          }
        }
      } else {
        NotSound(table, p);
      }
    } else {
      HoldsNothing(table, r);
    }
  }

  lemma CollectableTail(table: Table, r: Record, p: Pair, rest: seq<Pair>, v: Value)
    requires Collectable(table, r, [p] + rest)
    ensures Collectable(table, r[PairSlot(table, p) := v], rest)
  {
    hide Sound, PairSlot;
    var ps := [p] + rest;
    assert ps[0] == p;
    forall i | 0 <= i < |rest| ensures Sound(table, rest[i]) && PairSlot(table, rest[i]) !in r[PairSlot(table, p) := v] {
      assert rest[i] == ps[i + 1];
    }
    forall i, j | 0 <= i < j < |rest| ensures PairSlot(table, rest[i]) != PairSlot(table, rest[j]) {
      assert rest[i] == ps[i + 1] && rest[j] == ps[j + 1];
    }
  }

  lemma CollectableCons(table: Table, r: Record, p: Pair, rest: seq<Pair>, v: Value)
    requires Sound(table, p) && PairSlot(table, p) !in r
    requires Collectable(table, r[PairSlot(table, p) := v], rest)
    ensures Collectable(table, r, [p] + rest)
  {
    hide Sound, PairSlot;
    var ps := [p] + rest;
    forall i | 0 <= i < |ps| ensures Sound(table, ps[i]) && PairSlot(table, ps[i]) !in r {
      if i > 0 { assert ps[i] == rest[i - 1]; }
    }
    forall i, j | 0 <= i < j < |ps| ensures PairSlot(table, ps[i]) != PairSlot(table, ps[j]) {
      assert ps[j] == rest[j - 1];
      if i > 0 { assert ps[i] == rest[i - 1]; }
    }
  }

  lemma HoldsStep(table: Table, r: Record, p: Pair, rest: seq<Pair>, out: Record)
    requires Meaning(table, p).Some? && PairSlot(table, p) !in r
    requires Holds(table, r[PairSlot(table, p) := Meaning(table, p).value.value], rest, out)
    ensures Holds(table, r, [p] + rest, out)
  {
    hide RuleOf, Complete, DataOk, Meaning, PairSlot;
    var ps := [p] + rest;
    var slot, v := PairSlot(table, p), Meaning(table, p).value.value;
    var r' := r[slot := v];
    forall i | 0 <= i < |ps|
      ensures Meaning(table, ps[i]).Some? && PairSlot(table, ps[i]) in out
           && out[PairSlot(table, ps[i])] == Meaning(table, ps[i]).value.value
    {
      if i > 0 { assert ps[i] == rest[i - 1]; }
    }
    forall k ensures k in out <==> k in r || exists i | 0 <= i < |ps| :: PairSlot(table, ps[i]) == k {
      if k == slot { assert ps[0] == p; }
      if k in out && k !in r && k != slot {
        var i :| 0 <= i < |rest| && PairSlot(table, rest[i]) == k;
        assert ps[i + 1] == rest[i];
      }
      if i :| 0 <= i < |ps| && PairSlot(table, ps[i]) == k {
        if i > 0 { assert ps[i] == rest[i - 1]; }
      }
    }
    forall k | k in r ensures k in out && out[k] == r[k] { assert k in r'; }
  }

  lemma HoldsUnique(table: Table, r: Record, ps: seq<Pair>, qs: seq<Pair>, a: Record, b: Record)
    requires Holds(table, r, ps, a) && Holds(table, r, qs, b)
    requires forall p :: p in ps <==> p in qs
    ensures a == b
  {
    hide RuleOf, Complete, DataOk;
    forall k ensures k in a <==> k in b {
      if k in a && k !in r {
        var i :| 0 <= i < |ps| && PairSlot(table, ps[i]) == k;
        assert ps[i] in qs;
      }
      if k in b && k !in r {
        var i :| 0 <= i < |qs| && PairSlot(table, qs[i]) == k;
        assert qs[i] in ps;
      }
    }
    forall k | k in a ensures a[k] == b[k] {
      if k !in r {
        var i :| 0 <= i < |ps| && PairSlot(table, ps[i]) == k;
        assert ps[i] in qs;
        var j :| 0 <= j < |qs| && qs[j] == ps[i];
      }
    }
  }

  lemma {:induction false} Twice<T>(s: seq<T>, i: nat, j: nat)
    requires i < j < |s| && s[i] == s[j]
    ensures multiset(s)[s[i]] >= 2
  {
    assert s == s[..i] + [s[i]] + s[i + 1..];
    assert s[i + 1..][j - i - 1] == s[j];
    assert s[i] in multiset(s[i + 1..]);
    assert multiset(s) == multiset(s[..i]) + multiset{s[i]} + multiset(s[i + 1..]);
  }

  lemma {:induction false} Once<T>(s: seq<T>, x: T) returns (i: nat, j: nat)
    requires multiset(s)[x] >= 2
    ensures i < j < |s| && s[i] == x && s[j] == x
  {
    assert x in multiset(s);
    i :| i < |s| && s[i] == x;
    assert s == s[..i] + [x] + s[i + 1..];
    assert multiset(s) == multiset(s[..i]) + multiset{x} + multiset(s[i + 1..]);
    if x in multiset(s[i + 1..]) {
      var m :| 0 <= m < |s[i + 1..]| && s[i + 1..][m] == x;
      j := i + 1 + m;
    } else {
      assert x in multiset(s[..i]);
      var m :| 0 <= m < |s[..i]| && s[..i][m] == x;
      i, j := m, i;
    }
  }

  lemma DistinctPermutes(table: Table, ps: seq<Pair>, qs: seq<Pair>)
    requires multiset(ps) == multiset(qs) && Distinct(table, ps)
    ensures Distinct(table, qs)
  {
    hide RuleOf, Complete, DataOk;
    forall i, j | 0 <= i < j < |qs| ensures PairSlot(table, qs[i]) != PairSlot(table, qs[j]) {
      if qs[i] == qs[j] {
        Twice(qs, i, j);
        var m, n := Once(ps, qs[i]);
      } else {
        assert qs[i] in multiset(ps) && qs[j] in multiset(ps);
        var m :| 0 <= m < |ps| && ps[m] == qs[i];
        var n :| 0 <= n < |ps| && ps[n] == qs[j];
      }
    }
  }

  /** Reordering the pairs of a map changes neither whether it is accepted nor what it holds. */
  lemma OrderIndependent(table: Table, r: Record, ps: seq<Pair>, qs: seq<Pair>)
    requires multiset(ps) == multiset(qs)
    ensures Collect(table, r, ps) == Collect(table, r, qs)
  {
    hide RuleOf, Complete, DataOk;
    CollectExact(table, r, ps);
    CollectExact(table, r, qs);
    forall p ensures p in ps <==> p in qs { assert p in multiset(ps) <==> p in multiset(qs); }
    if Distinct(table, ps) { DistinctPermutes(table, ps, qs); }
    if Distinct(table, qs) { DistinctPermutes(table, qs, ps); }
    if Collectable(table, r, ps) {
      forall i | 0 <= i < |qs| ensures Sound(table, qs[i]) && PairSlot(table, qs[i]) !in r { assert qs[i] in ps; }
    }
    if Collectable(table, r, qs) {
      forall i | 0 <= i < |ps| ensures Sound(table, ps[i]) && PairSlot(table, ps[i]) !in r { assert ps[i] in qs; }
    }
    if Collect(table, r, ps).Some? {
      HoldsUnique(table, r, ps, qs, Collect(table, r, ps).value, Collect(table, r, qs).value);
    }
  }

  lemma BytesUnique(v: bytes, w: bytes, c: bytes, d: bytes)
    requires |v| <= CAP && |w| <= CAP && Prefixed(v) + c == Prefixed(w) + d
    ensures v == w && c == d
  {
    ByteVecCanonical();
    hide Prefixed, Canonical;
    assert Writes(ByteVec(), v, c) && Writes(ByteVec(), w, d) by { BytesWritten(v, c); BytesWritten(w, d); }
    assert c == (Prefixed(v) + c)[|Prefixed(v)|..] && d == (Prefixed(w) + d)[|Prefixed(w)|..];
  }

  lemma BytesWritten(v: bytes, c: bytes)
    ensures Writes(ByteVec(), v, c)
  {
    ByteVecCanonical();
  }

  /** The bytes of a pair say which pair it is, and where it ends. */
  lemma FrameUnique(p: Pair, q: Pair, c: bytes, d: bytes)
    requires PairFits(p) && PairFits(q) && Frame(p) + c == Frame(q) + d
    ensures p == q && c == d
  {
    hide Prefixed, KeyBody;
    Concat(Prefixed(KeyBody(p.key)), Prefixed(p.body), c);
    Concat(Prefixed(KeyBody(q.key)), Prefixed(q.body), d);
    BytesUnique(KeyBody(p.key), KeyBody(q.key), Prefixed(p.body) + c, Prefixed(q.body) + d);
    BytesUnique(p.body, q.body, c, d);
    KeyRoundTrip(p.key, []);
    KeyRoundTrip(q.key, []);
  }

  lemma FrameStarts(p: Pair)
    ensures Frame(p) != [] && Frame(p)[0] != 0
  {
    SizeNonZero(|KeyBody(p.key)|);
  }

  /** The bytes of a map up to its separator say which pairs it holds, and in which order. */
  lemma {:induction false} FramesUnique(ps: seq<Pair>, qs: seq<Pair>, c: bytes, d: bytes)
    requires AllFit(ps) && AllFit(qs) && Frames(ps) + [0] + c == Frames(qs) + [0] + d
    ensures ps == qs && c == d
    decreases |ps|
  {
    hide Frame, PairFits;
    if ps != [] { FrameStarts(ps[0]); }
    if qs != [] { FrameStarts(qs[0]); }
    var b := Frames(ps) + [0] + c;
    assert ps == [] <==> b[0] == 0;
    if ps == [] {
      assert c == b[1..] && d == b[1..];
    } else {
      assert b == Frame(ps[0]) + (Frames(ps[1..]) + [0] + c);
      assert b == Frame(qs[0]) + (Frames(qs[1..]) + [0] + d);
      FrameUnique(ps[0], qs[0], Frames(ps[1..]) + [0] + c, Frames(qs[1..]) + [0] + d);
      FramesUnique(ps[1..], qs[1..], c, d);
      assert ps == [ps[0]] + ps[1..] && qs == [qs[0]] + qs[1..];
    }
  }

  /** Exactly when the bytes of some pairs and a separator are accepted, and as what. */
  lemma FramesAccepted(table: Table, ps: seq<Pair>, c: bytes)
    requires AllFit(ps)
    ensures ParseMap(table, map[], Frames(ps) + [0] + c).Ready?
       <==> Collect(table, map[], ps).Some? && Complete(table, Collect(table, map[], ps).value) == None
    ensures ParseMap(table, map[], Frames(ps) + [0] + c).Ready?
        ==> ParseMap(table, map[], Frames(ps) + [0] + c) == Ready(Collect(table, map[], ps).value, |Frames(ps)| + 1)
  {
    hide Complete, Collect, ParseMap, AllFit, Frames;
    var b := Frames(ps) + [0] + c;
    if ParseMap(table, map[], b).Ready? {
      var qs := MapSound(table, map[], b);
      var k := ParseMap(table, map[], b).used;
      assert b == Frames(qs) + [0] + b[k..];
      FramesUnique(ps, qs, c, b[k..]);
      assert k == |Frames(ps)| + 1;
    }
    if Collect(table, map[], ps).Some? && Complete(table, Collect(table, map[], ps).value) == None {
      MapComplete(table, map[], ps, c);
    }
  }

  lemma FitPermutes(ps: seq<Pair>, qs: seq<Pair>)
    requires AllFit(ps) && multiset(ps) == multiset(qs)
    ensures AllFit(qs) && |qs| == |ps|
  {
    hide PairFits;
    assert |ps| == |multiset(ps)| && |qs| == |multiset(qs)|;
    forall i | 0 <= i < |qs| ensures PairFits(qs[i]) {
      assert qs[i] in multiset(ps);
      var j :| 0 <= j < |ps| && ps[j] == qs[i];
    }
  }

  /**
   * The same, about bytes: of two maps whose pairs are a permutation of each other both are accepted
   * or neither is; if they are, with the same record, which has exactly one slot for every pair read.
   */
  lemma MapOrderIndependent(table: Table, ps: seq<Pair>, qs: seq<Pair>, c: bytes)
    requires AllFit(ps) && multiset(ps) == multiset(qs)
    ensures ParseMap(table, map[], Frames(ps) + [0] + c).Ready? <==> ParseMap(table, map[], Frames(qs) + [0] + c).Ready?
    ensures ParseMap(table, map[], Frames(ps) + [0] + c).Ready? ==>
              && ParseMap(table, map[], Frames(ps) + [0] + c).value == ParseMap(table, map[], Frames(qs) + [0] + c).value
              && |ParseMap(table, map[], Frames(ps) + [0] + c).value| == |ps|
              && ParseMap(table, map[], Frames(ps) + [0] + c).used == |Frames(ps)| + 1
              && ParseMap(table, map[], Frames(qs) + [0] + c).used == |Frames(qs)| + 1
  {
    hide Complete, Collect, ParseMap, AllFit, Frames, Collectable, Holds;
    FitPermutes(ps, qs);
    OrderIndependent(table, map[], ps, qs);
    CollectExact(table, map[], ps);
    FramesAccepted(table, ps, c);
    FramesAccepted(table, qs, c);
  }
}
