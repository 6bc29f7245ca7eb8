/** Reading the fields of a structure out of a record, and writing them into one. */
module Fields {
  import opened Bytes
  import opened CompactSize
  import opened Bitcoin
  import opened KeyOrigins
  import opened Values
  import opened ValueCodecs
  import opened Tables
  import opened Maps
  import opened MapEncoding

  /* ----- the slots of one field ----- */

  /** A field without key data of its own: the slot with no data, if the field is set. */
  function Put(d: bytes, o: Option<Value>): Option<Value> {
    if d == [] then o else None
  }

  function Look<T>(d: bytes, m: map<bytes, T>, make: T -> Value): Option<Value> {
    if d in m then Some(make(m[d])) else None
  }

  function OptNum(o: Option<nat>): Option<Value> { if o.Some? then Some(Num(o.value)) else None }
  function OptBlob(o: Option<bytes>): Option<Value> { if o.Some? then Some(Blob(o.value)) else None }

  function MakeBlob(b: bytes): Value { Blob(b) }
  function MakeSource(s: KeySource): Value { Source(s) }
  function MakeEcdsa(s: EcdsaSig): Value { Ecdsa(s) }
  function MakeTaproot(s: TaprootSig): Value { Taproot(s) }
  function MakeLeaf(l: LeafScript): Value { Leaf(l) }
  function MakeOrigin(o: TapKeyOrigin): Value { Origin(o) }

  const NO_SOURCE: KeySource := KeySource([], [])

  function KeySourceOf(v: Value): KeySource { if v.Source? then v.source else NO_SOURCE }
  function EcdsaOf(v: Value): EcdsaSig { if v.Ecdsa? then v.ecdsa else EcdsaSig([], 0) }
  function TaprootOf(v: Value): TaprootSig { if v.Taproot? then v.taproot else TaprootSig([], 0) }
  function LeafOf(v: Value): LeafScript { if v.Leaf? then v.leaf else LeafScript([], 0) }
  function OriginOf(v: Value): TapKeyOrigin { if v.Origin? then v.origin else TapKeyOrigin([], NO_SOURCE) }
  function TxOf(v: Value): Transaction { if v.Tx? then v.tx else NoTransaction() }
  function OutOf(v: Value): TxOut { if v.Out? then v.txOut else TxOut(0, []) }
  function StackOf(v: Value): seq<bytes> { if v.Stack? then v.items else [] }
  function TreeOf(v: Value): seq<TapLeaf> { if v.Tree? then v.leaves else [] }
  function UnsignedOf(v: Value): UnsignedTx { if v.Unsigned? then v.utx else UnsignedTx(0, [], [], 0) }

  function One<T>(r: Record, t: nat, get: Value -> T): Option<T> {
    if Has(r, t) then Some(get(r[Key(t, [])])) else None
  }

  function Required<T>(r: Record, t: nat, get: Value -> T, default: T): T {
    if Has(r, t) then get(r[Key(t, [])]) else default
  }

  function DataOf(r: Record, t: nat): (s: set<bytes>)
    ensures forall d :: d in s <==> Key(t, d) in r
  {
    var s := set k | k in r && k.keyType == t :: k.data;
    assert forall d | Key(t, d) in r :: Key(t, d).data in s;
    s
  }

  /** The map of all entries of one key type. */
  function Many<T>(r: Record, t: nat, get: Value -> T): map<bytes, T> {
    map d | d in DataOf(r, t) :: get(r[Key(t, d)])
  }

  /** The keys without data of all one-byte key types. */
  function SingleKeys(): set<Key> {
    set t: nat | t < 256 :: Key(t, [])
  }

  lemma SingleKeysExact()
    ensures forall k: Key | k.data == [] && k.keyType < 256 :: k in SingleKeys()
  {
    forall k: Key | k.data == [] && k.keyType < 256 ensures k in SingleKeys() { assert k == Key(k.keyType, []); }
  }

  function KeysOfType(t: nat, s: set<bytes>): (keys: set<Key>)
    ensures forall d :: d in s ==> Key(t, d) in keys
  {
    set d | d in s :: Key(t, d)
  }

  /** The record holds, under one key type, exactly the entries of a map. */
  ghost predicate HoldsMap<T>(r: Record, t: nat, make: T -> Value, m: map<bytes, T>) {
    forall d :: (Key(t, d) in r <==> d in m) && (d in m ==> r[Key(t, d)] == make(m[d]))
  }

  lemma ManyIs<T>(r: Record, t: nat, get: Value -> T, make: T -> Value, m: map<bytes, T>)
    requires HoldsMap(r, t, make, m)
    requires forall x: T :: get(make(x)) == x
    ensures Many(r, t, get) == m
  {
  }

  /** A record as a partial function of keys. */
  function At(r: Record, k: Key): Option<Value> { if k in r then Some(r[k]) else None }

  /** Reading a key type's entries into a map and looking one up gives the entry. */
  lemma LookMany<T>(r: Record, k: Key, get: Value -> T, make: T -> Value)
    requires k in r ==> make(get(r[k])) == r[k]
    ensures Look(k.data, Many(r, k.keyType, get), make) == At(r, k)
  {
    assert k == Key(k.keyType, k.data);
  }

  /* ----- the kind of value a codec yields ----- */

  predicate KindMatches(c: Codec, v: Value) {
    match c
    case Number(_, _, _) => v.Num?
    case CountCodec => v.Num?
    case FixedBlob(_, _) => v.Blob?
    case BytesCodec => v.Blob?
    case TxOutCodec => v.Out?
    case WitnessCodec => v.Stack?
    case TransactionCodec => v.Tx?
    case UnsignedTxCodec => v.Unsigned?
    case EcdsaCodec => v.Ecdsa?
    case TaprootCodec => v.Taproot?
    case KeySourceCodec => v.Source?
    case LeafScriptCodec => v.Leaf?
    case TapTreeCodec => v.Tree?
    case TapKeyOriginCodec => v.Origin?
  }

  lemma InnerKind(c: Codec, v: Value)
    requires FindsItsEnd(c) && InnerFormat(c).ok(v)
    ensures KindMatches(c, v)
  {
    match c
    case Number(w, l, m) => assert NumberFormat(w, l, m).ok(v);
    case FixedBlob(n, check) => assert BlobFormat(n, check).ok(v);
    case CountCodec => assert CountFormat().ok(v);
    case TxOutCodec => assert TxOutValueFormat().ok(v);
    case WitnessCodec => assert WitnessFormat().ok(v);
    case TransactionCodec => assert TransactionValueFormat().ok(v);
    case UnsignedTxCodec => assert UnsignedTxValueFormat().ok(v);
  }

  /** What a well-formed slot says of its key and value. */
  lemma EntryKind(table: Table, k: Key, v: Value)
    requires EntryOk(table, k, v)
    ensures RuleOf(table, k).Accept? && KindMatches(RuleOf(table, k).codec, v)
    ensures RuleOf(table, k).data == IgnoreData || RuleOf(table, k).data == NoData || RuleOf(table, k).data == EmptyData
       ==> k.data == []
  {
    hide RuleOf, InnerFormat, Enc, EcdsaOk, TaprootOk, SourceOk, TreeOk, OriginOk;
    var c := RuleOf(table, k).codec;
    if FindsItsEnd(c) { InnerKind(c, v); }
  }

  lemma NumberMeans(w: nat, least: nat, most: nat, v: Value)
    ensures KindOk(Number(w, least, most), v) <==> v.Num? && least <= v.n <= most && v.n < Pow256(w)
  {
    assert KindOk(Number(w, least, most), v) == NumberFormat(w, least, most).ok(v);
  }

  lemma BlobMeans(len: nat, check: Check, v: Value)
    ensures KindOk(FixedBlob(len, check), v) <==> v.Blob? && |v.b| == len && Passes(check, v.b)
  {
    assert KindOk(FixedBlob(len, check), v) == BlobFormat(len, check).ok(v);
  }

  lemma CountMeans(v: Value)
    ensures KindOk(CountCodec, v) <==> v.Num? && v.n <= CAP
  {
    assert KindOk(CountCodec, v) == CountFormat().ok(v);
  }
}
