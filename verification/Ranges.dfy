/** What each codec takes, in numbers: the exact range of every value, and of every key of every map. */
module Ranges {
  import opened Bytes
  import opened CompactSize
  import opened Bitcoin
  import opened KeyOrigins
  import opened Values
  import opened ValueCodecs
  import opened Tables
  import opened MapEncoding
  import opened Fields
  import opened Layout

  /* ----- the ranges of values ----- */

  predicate EcdsaFits(s: EcdsaSig) {
    && (s.sighash == 1 || s.sighash == 2 || s.sighash == 3
        || s.sighash == 0x81 || s.sighash == 0x82 || s.sighash == 0x83)
    && CRYPTO.der(s.der) == Some(s.der) && |s.der| <= 72
  }

  predicate TaprootFits(s: TaprootSig) {
    && |s.sig| == 64
    && (s.sighash <= 3 || s.sighash == 0x81 || s.sighash == 0x82 || s.sighash == 0x83)
  }

  predicate PathFits(path: seq<nat>) { forall i | 0 <= i < |path| :: path[i] < 0x1_0000_0000 }

  predicate SourceFits(s: KeySource) {
    |s.fingerprint| == 4 && PathFits(s.path) && 4 + 4 * |s.path| <= CAP
  }

  predicate OriginFits(o: TapKeyOrigin) {
    && |o.leafHashes| <= CAP && (forall i | 0 <= i < |o.leafHashes| :: |o.leafHashes[i]| == 32)
    && |o.source.fingerprint| == 4 && PathFits(o.source.path)
    && |Size(|o.leafHashes|)| + 32 * |o.leafHashes| + 4 + 4 * |o.source.path| <= CAP
  }

  predicate LeafFits(l: LeafScript) { CRYPTO.leafVersion(l.version) && |l.script| + 1 <= CAP }

  predicate TreeFits(leaves: seq<TapLeaf>) {
    && CRYPTO.finishTree(leaves) == Some(leaves)
    && (forall i | 0 <= i <= |leaves| :: CRYPTO.addLeaf(leaves[..i]))
    && (forall i | 0 <= i < |leaves| :: CRYPTO.leafVersion(leaves[i].version) && |leaves[i].script| <= CAP)
    && |Join(Pieces(LeafLayout, leaves))| <= CAP
  }

  predicate TxOutFits(o: TxOut) {
    && o.value < 0x1_0000_0000_0000_0000 && |o.scriptPubkey| <= CAP
    && 8 + |Size(|o.scriptPubkey|)| + |o.scriptPubkey| <= CAP
  }

  predicate StackFits(items: seq<bytes>) {
    && |items| <= CAP && (forall i | 0 <= i < |items| :: |items[i]| <= CAP)
    && |StackLayout(items)| <= CAP
  }

  /** A transaction the bitcoin crate reads back from what it writes, within the cap. */
  predicate TransactionFits(t: Transaction) {
    CRYPTO.decodeTx(CRYPTO.encodeTx(t)) == Ready(t, |CRYPTO.encodeTx(t)|) && |CRYPTO.encodeTx(t)| <= CAP
  }

  /** An unsigned transaction: every number within its width, every list and script within the cap. */
  predicate UnsignedFits(t: UnsignedTx) {
    && t.version < 0x1_0000_0000 && t.lockTime < 0x1_0000_0000 && |t.inputs| <= CAP && |t.outputs| <= CAP
    && (forall k | 0 <= k < |t.inputs| ::
          |t.inputs[k].txid| == 32 && t.inputs[k].vout < 0x1_0000_0000 && t.inputs[k].sequence < 0x1_0000_0000)
    && (forall k | 0 <= k < |t.outputs| ::
          t.outputs[k].value < 0x1_0000_0000_0000_0000 && |t.outputs[k].scriptPubkey| <= CAP)
    && |UnsignedTxLayout(t)| <= CAP
  }

  /* ----- what the codecs take ----- */

  lemma NumberRange(w: nat, least: nat, most: nat, n: nat)
    requires w <= 8
    ensures ValueOk(Number(w, least, most), Num(n)) <==> least <= n <= most && n < Pow256(w)
  {
    NumberMeans(w, least, most, Num(n));
    EncLayout(Number(w, least, most), Num(n));
    hide KindOk, Enc;
  }

  lemma CountRange(n: nat)
    ensures ValueOk(CountCodec, Num(n)) <==> n <= CAP
  {
    CountMeans(Num(n));
    EncLayout(CountCodec, Num(n));
    hide KindOk, Enc;
  }

  lemma BlobRange(len: nat, check: Check, b: bytes)
    requires len <= 66
    ensures ValueOk(FixedBlob(len, check), Blob(b)) <==> |b| == len && Passes(check, b)
  {
    BlobMeans(len, check, Blob(b));
    EncLayout(FixedBlob(len, check), Blob(b));
    hide KindOk, Enc, Passes;
  }

  lemma WholeRange(c: Codec, v: Value)
    requires !FindsItsEnd(c)
    ensures ValueOk(c, v) <==> WholeOk(c, v) && |EncWhole(v)| <= CAP
  {
    hide InnerFormat, WholeOk, EncWhole;
  }

  lemma BytesRange(b: bytes)
    ensures ValueOk(BytesCodec, Blob(b)) <==> |b| <= CAP
  {
    WholeRange(BytesCodec, Blob(b));
    hide ValueOk;
  }

  lemma EcdsaRange(s: EcdsaSig)
    ensures ValueOk(EcdsaCodec, Ecdsa(s)) <==> EcdsaFits(s)
  {
    WholeRange(EcdsaCodec, Ecdsa(s));
    hide ValueOk;
    assert |EcdsaBytes(s)| == |s.der| + 1;
  }

  lemma TaprootRange(s: TaprootSig)
    ensures ValueOk(TaprootCodec, Taproot(s)) <==> TaprootFits(s)
  {
    WholeRange(TaprootCodec, Taproot(s));
    hide ValueOk;
    assert |TaprootBytes(s)| <= |s.sig| + 1;
  }

  lemma SourceRange(s: KeySource)
    ensures ValueOk(KeySourceCodec, Source(s)) <==> SourceFits(s)
  {
    WholeRange(KeySourceCodec, Source(s));
    hide ValueOk;
    assert |SourceBytes(s)| == |s.fingerprint| + 4 * |s.path|;
  }

  lemma OriginNumbers(o: TapKeyOrigin)
    ensures OriginOk(o) && |OriginBytes(o)| <= CAP <==> OriginFits(o)
  {
    hide Size, Words, Join;
    if AllHashes(o.leafHashes) {
      JoinChunks(o.leafHashes, []);
      assert |OriginBytes(o)|
          == |Size(|o.leafHashes|)| + 32 * |o.leafHashes| + |o.source.fingerprint| + 4 * |o.source.path|;
    }
  }

  lemma OriginRange(o: TapKeyOrigin)
    ensures ValueOk(TapKeyOriginCodec, Origin(o)) <==> OriginFits(o)
  {
    hide ValueOk, OriginOk, OriginBytes, OriginFits;
    WholeRange(TapKeyOriginCodec, Origin(o));
    OriginNumbers(o);
  }

  lemma LeafRange(l: LeafScript)
    ensures ValueOk(LeafScriptCodec, Leaf(l)) <==> LeafFits(l)
  {
    WholeRange(LeafScriptCodec, Leaf(l));
    hide ValueOk;
  }

  lemma TreeNumbers(leaves: seq<TapLeaf>)
    ensures TreeOk(leaves) && |TreeBytes(leaves)| <= CAP <==> TreeFits(leaves)
  {
    TreeLayout(leaves);
    hide TreeBytes, Pieces, Join;
  }

  lemma TreeRange(leaves: seq<TapLeaf>)
    ensures ValueOk(TapTreeCodec, Tree(leaves)) <==> TreeFits(leaves)
  {
    hide ValueOk, TreeOk, TreeBytes, TreeFits;
    WholeRange(TapTreeCodec, Tree(leaves));
    TreeNumbers(leaves);
  }

  lemma TxOutRange(o: TxOut)
    ensures ValueOk(TxOutCodec, Out(o)) <==> TxOutFits(o)
  {
    EncLayout(TxOutCodec, Out(o));
    assert KindOk(TxOutCodec, Out(o)) == TxOutValueFormat().ok(Out(o));
    hide Enc, KindOk, Size, LE;
  }

  lemma StackRange(items: seq<bytes>)
    ensures ValueOk(WitnessCodec, Stack(items)) <==> StackFits(items)
  {
    EncLayout(WitnessCodec, Stack(items));
    assert KindOk(WitnessCodec, Stack(items)) == WitnessFormat().ok(Stack(items));
    hide Enc, KindOk, StackLayout;
  }

  lemma TransactionRange(t: Transaction)
    ensures ValueOk(TransactionCodec, Tx(t)) <==> TransactionFits(t)
  {
    EncLayout(TransactionCodec, Tx(t));
    assert KindOk(TransactionCodec, Tx(t)) == TransactionValueFormat().ok(Tx(t));
    hide Enc, KindOk;
  }

  lemma UnsignedKind(t: UnsignedTx)
    ensures KindOk(UnsignedTxCodec, Unsigned(t)) <==> UnsignedTxOk(t)
  {
    hide UnsignedTxOk;
    assert KindOk(UnsignedTxCodec, Unsigned(t)) == UnsignedTxValueFormat().ok(Unsigned(t));
  }

  lemma UnsignedNumbers(t: UnsignedTx)
    ensures UnsignedTxOk(t) && |UnsignedTxLayout(t)| <= CAP <==> UnsignedFits(t)
  {
    hide UnsignedTxLayout;
  }

  lemma UnsignedSize(t: UnsignedTx)
    ensures Enc(UnsignedTxCodec, Unsigned(t)) == UnsignedTxLayout(t)
  {
    hide Enc, UnsignedTxLayout;
    EncLayout(UnsignedTxCodec, Unsigned(t));
  }

  lemma UnsignedRange(t: UnsignedTx)
    ensures ValueOk(UnsignedTxCodec, Unsigned(t)) <==> UnsignedFits(t)
  {
    hide Enc, KindOk, UnsignedTxLayout, UnsignedTxOk, UnsignedFits;
    UnsignedSize(t);
    UnsignedKind(t);
    UnsignedNumbers(t);
  }

  /* ----- the slots of one key type ----- */

  /** Every entry of one key type that a map writes can be written and read back. */
  ghost predicate TypeFits(table: Table, slot: Key -> Option<Value>, t: nat) {
    forall d: bytes :: slot(Key(t, d)).Some? ==> EntryOk(table, Key(t, d), slot(Key(t, d)).value)
  }

  /** A slot function is fit exactly if it is for every key type. */
  lemma ByType(table: Table, slot: Key -> Option<Value>)
    ensures (forall k: Key :: slot(k).Some? ==> EntryOk(table, k, slot(k).value)) <==>
      (forall t: nat :: TypeFits(table, slot, t))
  {
    hide EntryOk;
    if forall t: nat :: TypeFits(table, slot, t) {
      forall k: Key | slot(k).Some? ensures EntryOk(table, k, slot(k).value) {
        assert TypeFits(table, slot, k.keyType) && k == Key(k.keyType, k.data);
      }
    }
  }

  lemma KeyBytes(t: nat, d: bytes)
    requires t < 0xFD
    ensures KeyBody(Key(t, d)) == [t] + d && |KeyBody(Key(t, d))| == 1 + |d|
  {
  }

  /** A field with no key data: if it is set, its value is in range. */
  lemma SingleFits(table: Table, slot: Key -> Option<Value>, t: nat, codec: Codec, rule: KeyRule, o: Option<Value>)
    requires t < 0xFD && (rule.IgnoreData? || rule.NoData? || rule.EmptyData?)
    requires RuleOf(table, Key(t, [])) == Accept(codec, rule)
    requires forall d: bytes :: slot(Key(t, d)) == if d == [] then o else None
    ensures TypeFits(table, slot, t) <==> (o.Some? ==> ValueOk(codec, o.value))
  {
    KeyBytes(t, []);
    hide RuleOf, ValueOk;
    assert o.Some? ==> (EntryOk(table, Key(t, []), o.value) <==> ValueOk(codec, o.value));
    assert slot(Key(t, [])) == o;
  }

  /** A map field: the data of each key is as the rule asks, and its value in range. */
  lemma MapFits<T>(table: Table, slot: Key -> Option<Value>, t: nat, codec: Codec, rule: KeyRule, m: map<bytes, T>,
                   make: T -> Value)
    requires t < 0xFD && !rule.IgnoreData?
    requires forall d: bytes :: slot(Key(t, d)) == if d in m then Some(make(m[d])) else None
    requires forall d: bytes | d in m :: RuleOf(table, Key(t, d)) == Accept(codec, rule)
    ensures TypeFits(table, slot, t) <==>
      forall d | d in m :: 1 + |d| <= CAP && DataOk(rule, d) && ValueOk(codec, make(m[d]))
  {
    hide ValueOk, DataOk, RuleOf;
    forall d | d in m
      ensures EntryOk(table, Key(t, d), make(m[d])) <==> 1 + |d| <= CAP && DataOk(rule, d) && ValueOk(codec, make(m[d]))
    {
      KeyBytes(t, d);
    }
    hide EntryOk;
    if TypeFits(table, slot, t) {
      forall d | d in m ensures EntryOk(table, Key(t, d), make(m[d])) { assert slot(Key(t, d)).Some?; }
    }
  }

  /** A key the proprietary format takes: a prefix behind its length, a subtype, the rest. */
  ghost predicate IsProprietary(d: bytes) {
    exists prefix: bytes, subtype: nat, rest: bytes ::
      |prefix| <= CAP && subtype < 0x1_0000_0000_0000_0000 && d == Size(|prefix|) + prefix + Size(subtype) + rest
  }

  lemma ProprietaryKeys(d: bytes)
    ensures DataOk(ProprietaryData, d) <==> IsProprietary(d)
  {
    hide ReadProprietary;
    if ReadProprietary(d).Some? {
      ProprietaryRead(d);
      var k := ReadProprietary(d).value;
      assert d == Size(|k.prefix|) + k.prefix + Size(k.subtype) + k.data;
    }
    forall prefix: bytes, subtype: nat, rest: bytes |
      |prefix| <= CAP && subtype < U64 && d == Size(|prefix|) + prefix + Size(subtype) + rest
      ensures ReadProprietary(d).Some?
    {
      ProprietaryWritten(ProprietaryKey(prefix, subtype, rest));
      assert ProprietaryBody(ProprietaryKey(prefix, subtype, rest)) == d;
    }
  }

  /** An unknown pair: any key of any length within the cap, and any value within it. */
  predicate UnknownFits(k: Key, v: bytes) {
    k.keyType < 0x1_0000_0000_0000_0000 && |Size(k.keyType)| + |k.data| <= CAP && |v| <= CAP
  }

  lemma RawEntry(table: Table, k: Key, v: bytes)
    requires RuleOf(table, k) == Accept(BytesCodec, RawData)
    ensures EntryOk(table, k, Blob(v)) <==> UnknownFits(k, v)
  {
    hide RuleOf;
    BytesRange(v);
    hide ValueOk;
  }
}
