/** The range of every kind of field, whichever map and key type carries it. */
module FieldRanges {
  import opened Bytes
  import opened CompactSize
  import opened Bitcoin
  import opened Values
  import opened ValueCodecs
  import opened Tables
  import opened Maps
  import opened MapEncoding
  import opened Fields
  import opened Ranges

  /* ----- the ranges of map fields ----- */

  predicate KeyFitsIn(d: bytes) { |d| < CAP }

  predicate EcdsaMapFits(m: map<bytes, EcdsaSig>) {
    forall d | d in m :: KeyFitsIn(d) && CRYPTO.publicKey(d) && EcdsaFits(m[d])
  }

  predicate DerivationsFit(m: map<bytes, KeySource>) {
    forall d | d in m :: KeyFitsIn(d) && CRYPTO.publicKey(d) && SourceFits(m[d])
  }

  predicate XpubsFit(m: map<bytes, KeySource>) {
    forall d | d in m :: KeyFitsIn(d) && CRYPTO.xpub(d) && SourceFits(m[d])
  }

  /** Preimages under hashes of their length. */
  predicate PreimagesFit(m: map<bytes, bytes>, len: nat) { forall d | d in m :: |d| == len && |m[d]| <= CAP }

  /** Signatures under an x-only key and a leaf hash. */
  predicate LeafSigsFit(m: map<bytes, TaprootSig>) {
    forall d | d in m :: |d| == 64 && CRYPTO.xOnlyKey(d[..32]) && TaprootFits(m[d])
  }

  predicate LeafScriptsFit(m: map<bytes, LeafScript>) {
    forall d | d in m :: KeyFitsIn(d) && CRYPTO.controlBlock(d) && LeafFits(m[d])
  }

  predicate OriginsFit(m: map<bytes, TapKeyOrigin>) {
    forall d | d in m :: KeyFitsIn(d) && CRYPTO.xOnlyKey(d) && OriginFits(m[d])
  }

  predicate SharesFit(m: map<bytes, bytes>) {
    forall d | d in m ::
      KeyFitsIn(d) && d != [] && CRYPTO.compressedKey(d) && |m[d]| == 33 && CRYPTO.compressedKey(m[d])
  }

  predicate ProofsFit(m: map<bytes, bytes>) {
    forall d | d in m :: KeyFitsIn(d) && d != [] && CRYPTO.compressedKey(d) && |m[d]| == 64
  }

  ghost predicate ProprietariesFit(m: map<bytes, bytes>) {
    forall d | d in m :: KeyFitsIn(d) && IsProprietary(d) && |m[d]| <= CAP
  }

  /* ----- what a table takes for a key type ----- */

  /** A key type without data, and how its value is decoded. */
  predicate TakesSingle(table: Table, t: nat, codec: Codec) {
    var rule := RuleOf(table, Key(t, []));
    && t < 0xFD && rule.Accept? && rule.codec == codec
    && (rule.data.IgnoreData? || rule.data.NoData? || rule.data.EmptyData?)
  }

  /** A key type with data, what the data must be, and how its values are decoded. */
  ghost predicate TakesMap(table: Table, t: nat, codec: Codec, data: KeyRule) {
    t < 0xFD && !data.IgnoreData? && forall d: bytes :: RuleOf(table, Key(t, d)) == Accept(codec, data)
  }

  /** No pair of the type is taken, whatever its key. */
  ghost predicate TakesNone(table: Table, t: nat) {
    forall d: bytes, v: Value :: !EntryOk(table, Key(t, d), v)
  }

  lemma SingleType(table: Table, slot: Key -> Option<Value>, t: nat, codec: Codec, o: Option<Value>)
    requires TakesSingle(table, t, codec)
    requires forall d: bytes :: slot(Key(t, d)) == Put(d, o)
    ensures TypeFits(table, slot, t) <==> (o.Some? ==> ValueOk(codec, o.value))
  {
    hide RuleOf, ValueOk;
    SingleFits(table, slot, t, codec, RuleOf(table, Key(t, [])).data, o);
  }

  lemma MapType<T>(table: Table, slot: Key -> Option<Value>, t: nat, codec: Codec, data: KeyRule, m: map<bytes, T>,
                   make: T -> Value)
    requires TakesMap(table, t, codec, data)
    requires forall d: bytes :: slot(Key(t, d)) == Look(d, m, make)
    ensures TypeFits(table, slot, t) <==>
      forall d | d in m :: 1 + |d| <= CAP && DataOk(data, d) && ValueOk(codec, make(m[d]))
  {
    hide RuleOf, ValueOk, DataOk;
    MapFits(table, slot, t, codec, data, m, make);
  }

  lemma RefusedField(table: Table, slot: Key -> Option<Value>, t: nat, m: map<bytes, bytes>)
    requires TakesNone(table, t)
    requires forall d: bytes :: slot(Key(t, d)) == Look(d, m, MakeBlob)
    ensures TypeFits(table, slot, t) <==> m == map[]
  {
    hide EntryOk;
    if m != map[] {
      var d :| d in m;
      assert slot(Key(t, d)).Some?;
      assert !EntryOk(table, Key(t, d), slot(Key(t, d)).value);
    }
  }

  /* ----- one lemma for each kind of field ----- */

  lemma NumberField(table: Table, slot: Key -> Option<Value>, t: nat, least: nat, most: nat, o: Option<nat>)
    requires TakesSingle(table, t, Number(4, least, most))
    requires forall d: bytes :: slot(Key(t, d)) == Put(d, OptNum(o))
    ensures TypeFits(table, slot, t) <==> (o.Some? ==> least <= o.value <= most && o.value < 0x1_0000_0000)
  {
    hide TypeFits, TakesSingle, ValueOk, Put;
    SingleType(table, slot, t, Number(4, least, most), OptNum(o));
    Pow256Values();
    if o.Some? { NumberRange(4, least, most, o.value); }
  }

  lemma AmountField(table: Table, slot: Key -> Option<Value>, t: nat, o: Option<nat>)
    requires TakesSingle(table, t, Number(8, 0, U64 - 1))
    requires forall d: bytes :: slot(Key(t, d)) == Put(d, OptNum(o))
    ensures TypeFits(table, slot, t) <==> (o.Some? ==> o.value < 0x1_0000_0000_0000_0000)
  {
    hide TypeFits, TakesSingle, ValueOk, Put;
    SingleType(table, slot, t, Number(8, 0, U64 - 1), OptNum(o));
    Pow256Values();
    if o.Some? { NumberRange(8, 0, U64 - 1, o.value); }
  }

  lemma FlagsField(table: Table, slot: Key -> Option<Value>, t: nat, b: byte)
    requires TakesSingle(table, t, Number(1, 0, 255))
    requires forall d: bytes :: slot(Key(t, d)) == Put(d, Some(Num(b)))
    ensures TypeFits(table, slot, t)
  {
    hide TypeFits, TakesSingle, ValueOk, Put;
    SingleType(table, slot, t, Number(1, 0, 255), Some(Num(b)));
    assert Pow256(1) == 256 * Pow256(0);
    NumberRange(1, 0, 255, b);
  }

  lemma CountField(table: Table, slot: Key -> Option<Value>, t: nat, n: nat)
    requires TakesSingle(table, t, CountCodec)
    requires forall d: bytes :: slot(Key(t, d)) == Put(d, Some(Num(n)))
    ensures TypeFits(table, slot, t) <==> n <= CAP
  {
    hide TypeFits, TakesSingle, ValueOk, Put;
    SingleType(table, slot, t, CountCodec, Some(Num(n)));
    CountRange(n);
  }

  lemma UnsignedField(table: Table, slot: Key -> Option<Value>, t: nat, utx: UnsignedTx)
    requires TakesSingle(table, t, UnsignedTxCodec)
    requires forall d: bytes :: slot(Key(t, d)) == Put(d, Some(Unsigned(utx)))
    ensures TypeFits(table, slot, t) <==> UnsignedFits(utx)
  {
    hide TypeFits, TakesSingle, ValueOk, Put, UnsignedFits;
    SingleType(table, slot, t, UnsignedTxCodec, Some(Unsigned(utx)));
    UnsignedRange(utx);
  }

  lemma BytesField(table: Table, slot: Key -> Option<Value>, t: nat, o: Option<bytes>)
    requires TakesSingle(table, t, BytesCodec)
    requires forall d: bytes :: slot(Key(t, d)) == Put(d, OptBlob(o))
    ensures TypeFits(table, slot, t) <==> (o.Some? ==> |o.value| <= CAP)
  {
    hide TypeFits, TakesSingle, ValueOk, Put;
    SingleType(table, slot, t, BytesCodec, OptBlob(o));
    if o.Some? { BytesRange(o.value); }
  }

  lemma BlobField(table: Table, slot: Key -> Option<Value>, t: nat, len: nat, check: Check, o: Option<bytes>)
    requires len <= 66
    requires TakesSingle(table, t, FixedBlob(len, check))
    requires forall d: bytes :: slot(Key(t, d)) == Put(d, OptBlob(o))
    ensures TypeFits(table, slot, t) <==> (o.Some? ==> |o.value| == len && Passes(check, o.value))
  {
    hide TypeFits, TakesSingle, ValueOk, Put;
    SingleType(table, slot, t, FixedBlob(len, check), OptBlob(o));
    if o.Some? { BlobRange(len, check, o.value); }
  }

  lemma TransactionField(table: Table, slot: Key -> Option<Value>, t: nat, o: Option<Transaction>)
    requires TakesSingle(table, t, TransactionCodec)
    requires forall d: bytes :: slot(Key(t, d)) == Put(d, if o.Some? then Some(Tx(o.value)) else None)
    ensures TypeFits(table, slot, t) <==> (o.Some? ==> TransactionFits(o.value))
  {
    hide TypeFits, TakesSingle, ValueOk, Put;
    SingleType(table, slot, t, TransactionCodec, if o.Some? then Some(Tx(o.value)) else None);
    if o.Some? { TransactionRange(o.value); }
  }

  lemma TxOutField(table: Table, slot: Key -> Option<Value>, t: nat, o: Option<TxOut>)
    requires TakesSingle(table, t, TxOutCodec)
    requires forall d: bytes :: slot(Key(t, d)) == Put(d, if o.Some? then Some(Out(o.value)) else None)
    ensures TypeFits(table, slot, t) <==> (o.Some? ==> TxOutFits(o.value))
  {
    hide TypeFits, TakesSingle, ValueOk, Put;
    SingleType(table, slot, t, TxOutCodec, if o.Some? then Some(Out(o.value)) else None);
    if o.Some? { TxOutRange(o.value); }
  }

  lemma StackField(table: Table, slot: Key -> Option<Value>, t: nat, o: Option<seq<bytes>>)
    requires TakesSingle(table, t, WitnessCodec)
    requires forall d: bytes :: slot(Key(t, d)) == Put(d, if o.Some? then Some(Stack(o.value)) else None)
    ensures TypeFits(table, slot, t) <==> (o.Some? ==> StackFits(o.value))
  {
    hide TypeFits, TakesSingle, ValueOk, Put;
    SingleType(table, slot, t, WitnessCodec, if o.Some? then Some(Stack(o.value)) else None);
    if o.Some? { StackRange(o.value); }
  }

  lemma TaprootField(table: Table, slot: Key -> Option<Value>, t: nat, o: Option<TaprootSig>)
    requires TakesSingle(table, t, TaprootCodec)
    requires forall d: bytes :: slot(Key(t, d)) == Put(d, if o.Some? then Some(Taproot(o.value)) else None)
    ensures TypeFits(table, slot, t) <==> (o.Some? ==> TaprootFits(o.value))
  {
    hide TypeFits, TakesSingle, ValueOk, Put;
    SingleType(table, slot, t, TaprootCodec, if o.Some? then Some(Taproot(o.value)) else None);
    if o.Some? { TaprootRange(o.value); }
  }

  lemma TreeField(table: Table, slot: Key -> Option<Value>, t: nat, o: Option<seq<TapLeaf>>)
    requires TakesSingle(table, t, TapTreeCodec)
    requires forall d: bytes :: slot(Key(t, d)) == Put(d, if o.Some? then Some(Tree(o.value)) else None)
    ensures TypeFits(table, slot, t) <==> (o.Some? ==> TreeFits(o.value))
  {
    hide TypeFits, TakesSingle, ValueOk, Put;
    SingleType(table, slot, t, TapTreeCodec, if o.Some? then Some(Tree(o.value)) else None);
    if o.Some? { TreeRange(o.value); }
  }

  lemma EcdsaField(table: Table, slot: Key -> Option<Value>, t: nat, m: map<bytes, EcdsaSig>)
    requires TakesMap(table, t, EcdsaCodec, PublicKeyData)
    requires forall d: bytes :: slot(Key(t, d)) == Look(d, m, MakeEcdsa)
    ensures TypeFits(table, slot, t) <==> EcdsaMapFits(m)
  {
    hide TypeFits, TakesMap, ValueOk, Look;
    MapType(table, slot, t, EcdsaCodec, PublicKeyData, m, MakeEcdsa);
    forall d | d in m ensures ValueOk(EcdsaCodec, MakeEcdsa(m[d])) <==> EcdsaFits(m[d]) { EcdsaRange(m[d]); }
    hide EcdsaFits;
  }

  lemma DerivationField(table: Table, slot: Key -> Option<Value>, t: nat, m: map<bytes, KeySource>)
    requires TakesMap(table, t, KeySourceCodec, PublicKeyData)
    requires forall d: bytes :: slot(Key(t, d)) == Look(d, m, MakeSource)
    ensures TypeFits(table, slot, t) <==> DerivationsFit(m)
  {
    hide TypeFits, TakesMap, ValueOk, Look;
    MapType(table, slot, t, KeySourceCodec, PublicKeyData, m, MakeSource);
    forall d | d in m ensures ValueOk(KeySourceCodec, MakeSource(m[d])) <==> SourceFits(m[d]) { SourceRange(m[d]); }
    hide SourceFits;
  }

  lemma XpubField(table: Table, slot: Key -> Option<Value>, t: nat, m: map<bytes, KeySource>)
    requires TakesMap(table, t, KeySourceCodec, XpubData)
    requires forall d: bytes :: slot(Key(t, d)) == Look(d, m, MakeSource)
    ensures TypeFits(table, slot, t) <==> XpubsFit(m)
  {
    hide TypeFits, TakesMap, ValueOk, Look;
    MapType(table, slot, t, KeySourceCodec, XpubData, m, MakeSource);
    forall d | d in m ensures ValueOk(KeySourceCodec, MakeSource(m[d])) <==> SourceFits(m[d]) { SourceRange(m[d]); }
    hide SourceFits;
  }

  lemma LeafSigField(table: Table, slot: Key -> Option<Value>, t: nat, m: map<bytes, TaprootSig>)
    requires TakesMap(table, t, TaprootCodec, LeafSigData)
    requires forall d: bytes :: slot(Key(t, d)) == Look(d, m, MakeTaproot)
    ensures TypeFits(table, slot, t) <==> LeafSigsFit(m)
  {
    hide TypeFits, TakesMap, ValueOk, Look;
    MapType(table, slot, t, TaprootCodec, LeafSigData, m, MakeTaproot);
    forall d | d in m ensures ValueOk(TaprootCodec, MakeTaproot(m[d])) <==> TaprootFits(m[d]) { TaprootRange(m[d]); }
    hide TaprootFits;
  }

  lemma LeafScriptField(table: Table, slot: Key -> Option<Value>, t: nat, m: map<bytes, LeafScript>)
    requires TakesMap(table, t, LeafScriptCodec, ControlBlockData)
    requires forall d: bytes :: slot(Key(t, d)) == Look(d, m, MakeLeaf)
    ensures TypeFits(table, slot, t) <==> LeafScriptsFit(m)
  {
    hide TypeFits, TakesMap, ValueOk, Look;
    MapType(table, slot, t, LeafScriptCodec, ControlBlockData, m, MakeLeaf);
    forall d | d in m ensures ValueOk(LeafScriptCodec, MakeLeaf(m[d])) <==> LeafFits(m[d]) { LeafRange(m[d]); }
    hide LeafFits;
  }

  lemma OriginField(table: Table, slot: Key -> Option<Value>, t: nat, m: map<bytes, TapKeyOrigin>)
    requires TakesMap(table, t, TapKeyOriginCodec, XOnlyData)
    requires forall d: bytes :: slot(Key(t, d)) == Look(d, m, MakeOrigin)
    ensures TypeFits(table, slot, t) <==> OriginsFit(m)
  {
    hide TypeFits, TakesMap, ValueOk, Look;
    MapType(table, slot, t, TapKeyOriginCodec, XOnlyData, m, MakeOrigin);
    forall d | d in m ensures ValueOk(TapKeyOriginCodec, MakeOrigin(m[d])) <==> OriginFits(m[d]) { OriginRange(m[d]); }
    hide OriginFits;
  }

  lemma ShareField(table: Table, slot: Key -> Option<Value>, t: nat, m: map<bytes, bytes>)
    requires TakesMap(table, t, FixedBlob(33, Compressed), CompressedData)
    requires forall d: bytes :: slot(Key(t, d)) == Look(d, m, MakeBlob)
    ensures TypeFits(table, slot, t) <==> SharesFit(m)
  {
    hide TypeFits, TakesMap, ValueOk, Look;
    MapType(table, slot, t, FixedBlob(33, Compressed), CompressedData, m, MakeBlob);
    forall d | d in m
      ensures ValueOk(FixedBlob(33, Compressed), MakeBlob(m[d])) <==> |m[d]| == 33 && CRYPTO.compressedKey(m[d])
    {
      BlobRange(33, Compressed, m[d]);
    }
  }

  lemma ProofField(table: Table, slot: Key -> Option<Value>, t: nat, m: map<bytes, bytes>)
    requires TakesMap(table, t, FixedBlob(64, AnyBytes), CompressedData)
    requires forall d: bytes :: slot(Key(t, d)) == Look(d, m, MakeBlob)
    ensures TypeFits(table, slot, t) <==> ProofsFit(m)
  {
    hide TypeFits, TakesMap, ValueOk, Look;
    MapType(table, slot, t, FixedBlob(64, AnyBytes), CompressedData, m, MakeBlob);
    forall d | d in m ensures ValueOk(FixedBlob(64, AnyBytes), MakeBlob(m[d])) <==> |m[d]| == 64 {
      BlobRange(64, AnyBytes, m[d]);
    }
  }

  lemma PreimageField(table: Table, slot: Key -> Option<Value>, t: nat, m: map<bytes, bytes>, len: nat)
    requires len <= 32
    requires TakesMap(table, t, BytesCodec, HashData(len))
    requires forall d: bytes :: slot(Key(t, d)) == Look(d, m, MakeBlob)
    ensures TypeFits(table, slot, t) <==> PreimagesFit(m, len)
  {
    hide TypeFits, TakesMap, ValueOk, Look;
    MapType(table, slot, t, BytesCodec, HashData(len), m, MakeBlob);
    forall d | d in m ensures ValueOk(BytesCodec, MakeBlob(m[d])) <==> |m[d]| <= CAP { BytesRange(m[d]); }
  }

  lemma ProprietaryField(table: Table, slot: Key -> Option<Value>, t: nat, m: map<bytes, bytes>)
    requires TakesMap(table, t, BytesCodec, ProprietaryData)
    requires forall d: bytes :: slot(Key(t, d)) == Look(d, m, MakeBlob)
    ensures TypeFits(table, slot, t) <==> ProprietariesFit(m)
  {
    hide TypeFits, TakesMap, ValueOk, Look;
    MapType(table, slot, t, BytesCodec, ProprietaryData, m, MakeBlob);
    hide DataOk, IsProprietary;
    forall d | d in m ensures DataOk(ProprietaryData, d) <==> IsProprietary(d) { ProprietaryKeys(d); }
    forall d | d in m ensures ValueOk(BytesCodec, MakeBlob(m[d])) <==> |m[d]| <= CAP { BytesRange(m[d]); }
  }

  /** Pairs of types without a field of their own: raw keys and raw values. */
  lemma UnknownFields(table: Table, slot: Key -> Option<Value>, unknowns: map<Key, bytes>, named: nat -> bool)
    requires forall k: Key | !named(k.keyType) ::
      && RuleOf(table, k) == Accept(BytesCodec, RawData)
      && slot(k) == if k in unknowns then Some(Blob(unknowns[k])) else None
    requires forall k | k in unknowns :: !named(k.keyType)
    ensures (forall t: nat | !named(t) :: TypeFits(table, slot, t)) <==>
      (forall k | k in unknowns :: UnknownFits(k, unknowns[k]))
  {
    hide RuleOf, EntryOk, UnknownFits;
    forall k | k in unknowns ensures EntryOk(table, k, Blob(unknowns[k])) <==> UnknownFits(k, unknowns[k]) {
      RawEntry(table, k, unknowns[k]);
    }
    if forall t: nat | !named(t) :: TypeFits(table, slot, t) {
      forall k | k in unknowns ensures UnknownFits(k, unknowns[k]) {
        assert TypeFits(table, slot, k.keyType) && k == Key(k.keyType, k.data);
        assert slot(Key(k.keyType, k.data)).Some?;
      }
    }
  }

  /** A record that holds what a slot function gives is in order exactly if every key type is. */
  lemma RecordFits(table: Table, r: Record, slot: Key -> Option<Value>)
    requires forall k: Key :: (k in r <==> slot(k).Some?) && (k in r ==> r[k] == slot(k).value)
    ensures RecordOk(table, r) <==> forall t: nat :: TypeFits(table, slot, t)
  {
    hide EntryOk, TypeFits;
    ByType(table, slot);
    if RecordOk(table, r) {
      forall k: Key | slot(k).Some? ensures EntryOk(table, k, slot(k).value) { assert k in r; }
    }
    if forall k: Key :: slot(k).Some? ==> EntryOk(table, k, slot(k).value) {
      forall k | k in r ensures EntryOk(table, k, r[k]) { assert slot(k).Some?; }
    }
  }

  ghost predicate UnknownsFit(unknowns: map<Key, bytes>, named: nat -> bool) {
    forall k | k in unknowns :: !named(k.keyType) && UnknownFits(k, unknowns[k])
  }
}
