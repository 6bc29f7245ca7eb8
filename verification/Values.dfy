/**
 * The values of PSBT key-value pairs: what each one may be, how it is written, and the decoder
 * that reads it behind its length prefix.
 */
module Values {
  import opened Bytes
  import opened CompactSize
  import opened Bitcoin
  import opened Formats

  datatype UnsignedIn = UnsignedIn(txid: bytes, vout: nat, sequence: nat)
  datatype UnsignedTx = UnsignedTx(version: nat, inputs: seq<UnsignedIn>, outputs: seq<TxOut>, lockTime: nat)

  datatype Value =
    | Num(n: nat) | Blob(b: bytes) | Stack(items: seq<bytes>)
    | Out(txOut: TxOut) | Tx(tx: Transaction) | Unsigned(utx: UnsignedTx)
    | Ecdsa(ecdsa: EcdsaSig) | Taproot(taproot: TaprootSig)
    | Source(source: KeySource) | Origin(origin: TapKeyOrigin)
    | Leaf(leaf: LeafScript) | Tree(leaves: seq<TapLeaf>)

  datatype Check = AnyBytes | XOnly | Compressed | TwoCompressed

  predicate Passes(check: Check, b: bytes) {
    match check
    case AnyBytes => true
    case XOnly => CRYPTO.xOnlyKey(b)
    case Compressed => CRYPTO.compressedKey(b)
    case TwoCompressed => |b| == 66 && CRYPTO.compressedKey(b[..33]) && CRYPTO.compressedKey(b[33..])
  }

  /* ----- values whose decoder finds its own end ----- */

  function NumOf(v: Value): nat { if v.Num? then v.n else 0 }
  function BlobOf(v: Value): bytes { if v.Blob? then v.b else [] }

  function NumberFormat(width: nat, least: nat, most: nat): Format<Value> {
    As(Checked(Fixed(width), (b: bytes) => least <= FromLE(b) <= most, InvalidValue),
       (b: bytes) => Num(FromLE(b)),
       (v: Value) => LE(NumOf(v), width),
       (v: Value) => v.Num? && least <= v.n <= most && v.n < Pow256(width))
  }

  function BlobFormat(len: nat, check: Check): Format<Value> {
    As(Checked(Fixed(len), (b: bytes) => Passes(check, b), InvalidValue),
       (b: bytes) => Blob(b), BlobOf, (v: Value) => v.Blob? && |v.b| == len && Passes(check, v.b))
  }

  function CountFormat(): Format<Value> {
    As(Count(), (n: nat) => Num(n), NumOf, (v: Value) => v.Num? && v.n <= CAP)
  }

  function U32Format(): Format<nat> {
    As(Fixed(4), FromLE, (n: nat) => LE(n, 4), (n: nat) => n < U32)
  }

  function TxOutFormat(): Format<TxOut> {
    As(Pair(Fixed(8), ByteVec()),
       (p: (bytes, bytes)) => TxOut(FromLE(p.0), p.1),
       (o: TxOut) => (LE(o.value, 8), o.scriptPubkey),
       (o: TxOut) => o.value < U64 && |o.scriptPubkey| <= CAP)
  }

  function TxOutValueFormat(): Format<Value> {
    As(TxOutFormat(), (o: TxOut) => Out(o), (v: Value) => if v.Out? then v.txOut else TxOut(0, []),
       (v: Value) => v.Out? && v.txOut.value < U64 && |v.txOut.scriptPubkey| <= CAP)
  }

  function WitnessFormat(): Format<Value> {
    As(Vec(ByteVec()), (items: seq<bytes>) => Stack(items), (v: Value) => if v.Stack? then v.items else [],
       (v: Value) => v.Stack? && |v.items| <= CAP && forall i | 0 <= i < |v.items| :: |v.items[i]| <= CAP)
  }

  function NoTransaction(): Transaction { Transaction(0, 0, [], []) }

  function TransactionFormat(): Format<Transaction> {
    Format(CRYPTO.decodeTx, CRYPTO.encodeTx, (t: Transaction) => TxFits(CRYPTO, t))
  }

  function TransactionValueFormat(): Format<Value> {
    As(TransactionFormat(), (t: Transaction) => Tx(t), (v: Value) => if v.Tx? then v.tx else NoTransaction(),
       (v: Value) => v.Tx? && TxFits(CRYPTO, v.tx))
  }

  /** An input as it stands in a serialized transaction, its script included. */
  datatype RawTxIn = RawTxIn(input: UnsignedIn, script: bytes)

  predicate RawTxInOk(i: RawTxIn) { UnsignedInOk(i.input) && |i.script| <= CAP }

  function RawTxInFormat(): Format<RawTxIn> {
    As(Pair(Pair(Fixed(32), U32Format()), Pair(ByteVec(), U32Format())),
       (p: ((bytes, nat), (bytes, nat))) => RawTxIn(UnsignedIn(p.0.0, p.0.1, p.1.1), p.1.0),
       (i: RawTxIn) => ((i.input.txid, i.input.vout), (i.script, i.input.sequence)), RawTxInOk)
  }

  predicate NoScripts(ins: seq<RawTxIn>) {
    forall i | 0 <= i < |ins| :: ins[i].script == []
  }

  function Bare(ins: seq<RawTxIn>): seq<UnsignedIn> {
    seq(|ins|, i requires 0 <= i < |ins| => ins[i].input)
  }

  function WithEmptyScripts(ins: seq<UnsignedIn>): seq<RawTxIn> {
    seq(|ins|, i requires 0 <= i < |ins| => RawTxIn(ins[i], []))
  }

  predicate UnsignedInOk(i: UnsignedIn) { |i.txid| == 32 && i.vout < U32 && i.sequence < U32 }
  predicate TxOutOk(o: TxOut) { o.value < U64 && |o.scriptPubkey| <= CAP }

  predicate UnsignedInsOk(ins: seq<UnsignedIn>) {
    |ins| <= CAP && forall i | 0 <= i < |ins| :: UnsignedInOk(ins[i])
  }

  predicate UnsignedTxOk(t: UnsignedTx) {
    && t.version < U32 && t.lockTime < U32 && UnsignedInsOk(t.inputs) && |t.outputs| <= CAP
    && (forall i | 0 <= i < |t.outputs| :: TxOutOk(t.outputs[i]))
  }

  /** `UnsignedTxDecoder`: version, inputs without scripts, outputs, lock time. */
  function UnsignedInsFormat(): Format<seq<UnsignedIn>> {
    As(Checked(Vec(RawTxInFormat()), NoScripts, NonEmptyScriptSig), Bare, WithEmptyScripts, UnsignedInsOk)
  }

  function UnsignedTxFormat(): Format<UnsignedTx> {
    As(Pair(Pair(U32Format(), UnsignedInsFormat()), Pair(Vec(TxOutFormat()), U32Format())),
       (p: ((nat, seq<UnsignedIn>), (seq<TxOut>, nat))) => UnsignedTx(p.0.0, p.0.1, p.1.0, p.1.1),
       (t: UnsignedTx) => ((t.version, t.inputs), (t.outputs, t.lockTime)),
       UnsignedTxOk)
  }

  function UnsignedTxValueFormat(): Format<Value> {
    As(UnsignedTxFormat(), (t: UnsignedTx) => Unsigned(t),
       (v: Value) => if v.Unsigned? then v.utx else UnsignedTx(0, [], [], 0),
       (v: Value) => v.Unsigned? && UnsignedTxOk(v.utx))
  }

  lemma NumberCanonical(width: nat, least: nat, most: nat)
    ensures Canonical(NumberFormat(width, least, most))
  {
    FixedCanonical(width);
    CheckedCanonical(Fixed(width), (b: bytes) => least <= FromLE(b) <= most, InvalidValue);
    LEBijection(width);
    hide FromLE, LE, Pow256;
    AsCanonical(Checked(Fixed(width), (b: bytes) => least <= FromLE(b) <= most, InvalidValue),
                (b: bytes) => Num(FromLE(b)), (v: Value) => LE(NumOf(v), width),
                (v: Value) => v.Num? && least <= v.n <= most && v.n < Pow256(width));
  }

  lemma BlobCanonical(len: nat, check: Check)
    ensures Canonical(BlobFormat(len, check))
  {
    FixedCanonical(len);
    CheckedCanonical(Fixed(len), (b: bytes) => Passes(check, b), InvalidValue);
    AsCanonical(Checked(Fixed(len), (b: bytes) => Passes(check, b), InvalidValue),
                (b: bytes) => Blob(b), BlobOf, (v: Value) => v.Blob? && |v.b| == len && Passes(check, v.b));
  }

  lemma CountValueCanonical()
    ensures Canonical(CountFormat())
  {
    CountCanonical();
    AsCanonical(Count(), (n: nat) => Num(n), NumOf, (v: Value) => v.Num? && v.n <= CAP);
  }

  lemma LEBijection(k: nat)
    ensures forall b: bytes | |b| == k :: FromLE(b) < Pow256(k) && LE(FromLE(b), k) == b
    ensures forall n: nat | n < Pow256(k) :: FromLE(LE(n, k)) == n
  {
    forall b: bytes | |b| == k ensures FromLE(b) < Pow256(k) && LE(FromLE(b), k) == b { LEOfFromLE(b); }
    forall n: nat | n < Pow256(k) ensures FromLE(LE(n, k)) == n { FromLEOfLE(n, k); }
  }

  lemma TxOutCanonical()
    ensures Canonical(TxOutFormat())
  {
    FixedCanonical(8);
    ByteVecCanonical();
    PairCanonical(Fixed(8), ByteVec());
    Pow256Values();
    LEBijection(8);
    AsCanonical(Pair(Fixed(8), ByteVec()),
                (p: (bytes, bytes)) => TxOut(FromLE(p.0), p.1),
                (o: TxOut) => (LE(o.value, 8), o.scriptPubkey),
                (o: TxOut) => o.value < U64 && |o.scriptPubkey| <= CAP);
  }

  lemma TxOutValueCanonical()
    ensures Canonical(TxOutValueFormat())
  {
    TxOutCanonical();
    AsCanonical(TxOutFormat(), (o: TxOut) => Out(o), (v: Value) => if v.Out? then v.txOut else TxOut(0, []),
                (v: Value) => v.Out? && v.txOut.value < U64 && |v.txOut.scriptPubkey| <= CAP);
  }

  lemma WitnessCanonical()
    ensures Canonical(WitnessFormat())
  {
    ByteVecCanonical();
    VecCanonical(ByteVec());
    AsCanonical(Vec(ByteVec()), (items: seq<bytes>) => Stack(items), (v: Value) => if v.Stack? then v.items else [],
                (v: Value) => v.Stack? && |v.items| <= CAP && forall i | 0 <= i < |v.items| :: |v.items[i]| <= CAP);
  }

  lemma TransactionCanonical()
    ensures Canonical(TransactionFormat())
  {
    var f := TransactionFormat();
    forall b, c ensures Streams(f, b, c) { assert TxLaw(CRYPTO, b, c); }
    forall b ensures Reads(f, b) { assert TxLaw(CRYPTO, b, []); }
    forall t, c ensures Writes(f, t, c) { assert TxLaw(CRYPTO, CRYPTO.encodeTx(t), c); }
  }

  lemma TransactionValueCanonical()
    ensures Canonical(TransactionValueFormat())
  {
    TransactionCanonical();
    AsCanonical(TransactionFormat(), (t: Transaction) => Tx(t), (v: Value) => if v.Tx? then v.tx else NoTransaction(),
                (v: Value) => v.Tx? && TxFits(CRYPTO, v.tx));
  }

  lemma U32Canonical()
    ensures Canonical(U32Format())
  {
    FixedCanonical(4);
    Pow256Values();
    LEBijection(4);
    AsCanonical(Fixed(4), FromLE, (n: nat) => LE(n, 4), (n: nat) => n < U32);
  }

  lemma RawTxInConversion(f: Format<((bytes, nat), (bytes, nat))>)
    requires f == Pair(Pair(Fixed(32), U32Format()), Pair(ByteVec(), U32Format()))
    ensures forall p | f.ok(p) :: RawTxInOk(RawTxIn(UnsignedIn(p.0.0, p.0.1, p.1.1), p.1.0))
    ensures forall i: RawTxIn | RawTxInOk(i) :: f.ok(((i.input.txid, i.input.vout), (i.script, i.input.sequence)))
  {
  }

  lemma RawTxInCanonical()
    ensures Canonical(RawTxInFormat())
  {
    FixedCanonical(32);
    U32Canonical();
    ByteVecCanonical();
    PairCanonical(Fixed(32), U32Format());
    PairCanonical(ByteVec(), U32Format());
    var f := Pair(Pair(Fixed(32), U32Format()), Pair(ByteVec(), U32Format()));
    PairCanonical(Pair(Fixed(32), U32Format()), Pair(ByteVec(), U32Format()));
    RawTxInConversion(f);
    AsCanonical(f,
       (p: ((bytes, nat), (bytes, nat))) => RawTxIn(UnsignedIn(p.0.0, p.0.1, p.1.1), p.1.0),
       (i: RawTxIn) => ((i.input.txid, i.input.vout), (i.script, i.input.sequence)), RawTxInOk);
  }

  lemma BareInverse(v: seq<RawTxIn>, w: seq<UnsignedIn>)
    ensures NoScripts(v) ==> WithEmptyScripts(Bare(v)) == v
    ensures NoScripts(WithEmptyScripts(w)) && Bare(WithEmptyScripts(w)) == w
  {
    if NoScripts(v) {
      forall i | 0 <= i < |v| ensures WithEmptyScripts(Bare(v))[i] == v[i] { assert v[i] == RawTxIn(v[i].input, []); }
    }
  }

  lemma UnsignedInsConversion(f: Format<seq<RawTxIn>>)
    requires f == Checked(Vec(RawTxInFormat()), NoScripts, NonEmptyScriptSig)
    ensures forall v | f.ok(v) :: UnsignedInsOk(Bare(v)) && WithEmptyScripts(Bare(v)) == v
    ensures forall w: seq<UnsignedIn> | UnsignedInsOk(w) :: f.ok(WithEmptyScripts(w)) && Bare(WithEmptyScripts(w)) == w
  {
    forall v | f.ok(v) ensures UnsignedInsOk(Bare(v)) && WithEmptyScripts(Bare(v)) == v {
      BareInverse(v, []);
      assert AllOk(RawTxInFormat().ok, v);
      assert forall i | 0 <= i < |v| :: RawTxInFormat().ok(v[i]);
    }
    forall w: seq<UnsignedIn> | UnsignedInsOk(w) ensures f.ok(WithEmptyScripts(w)) && Bare(WithEmptyScripts(w)) == w {
      BareInverse([], w);
      assert AllOk(RawTxInFormat().ok, WithEmptyScripts(w));
    }
  }

  lemma UnsignedInsCanonical()
    ensures Canonical(UnsignedInsFormat())
  {
    RawTxInCanonical();
    VecCanonical(RawTxInFormat());
    CheckedCanonical(Vec(RawTxInFormat()), NoScripts, NonEmptyScriptSig);
    var f := Checked(Vec(RawTxInFormat()), NoScripts, NonEmptyScriptSig);
    UnsignedInsConversion(f);
    AsCanonical(f, Bare, WithEmptyScripts, UnsignedInsOk);
  }

  lemma UnsignedTxCanonical()
    ensures Canonical(UnsignedTxFormat())
  {
    U32Canonical();
    UnsignedInsCanonical();
    TxOutCanonical();
    VecCanonical(TxOutFormat());
    PairCanonical(U32Format(), UnsignedInsFormat());
    PairCanonical(Vec(TxOutFormat()), U32Format());
    var f := Pair(Pair(U32Format(), UnsignedInsFormat()), Pair(Vec(TxOutFormat()), U32Format()));
    PairCanonical(Pair(U32Format(), UnsignedInsFormat()), Pair(Vec(TxOutFormat()), U32Format()));
    UnsignedTxConversion(f);
    AsCanonical(f,
       (p: ((nat, seq<UnsignedIn>), (seq<TxOut>, nat))) => UnsignedTx(p.0.0, p.0.1, p.1.0, p.1.1),
       (t: UnsignedTx) => ((t.version, t.inputs), (t.outputs, t.lockTime)),
       UnsignedTxOk);
  }

  lemma UnsignedTxConversion(f: Format<((nat, seq<UnsignedIn>), (seq<TxOut>, nat))>)
    requires f == Pair(Pair(U32Format(), UnsignedInsFormat()), Pair(Vec(TxOutFormat()), U32Format()))
    ensures forall p | f.ok(p) :: UnsignedTxOk(UnsignedTx(p.0.0, p.0.1, p.1.0, p.1.1))
    ensures forall t: UnsignedTx | UnsignedTxOk(t) :: f.ok(((t.version, t.inputs), (t.outputs, t.lockTime)))
  {
    forall p | f.ok(p) ensures UnsignedTxOk(UnsignedTx(p.0.0, p.0.1, p.1.0, p.1.1)) {
      assert AllOk(TxOutFormat().ok, p.1.0);
      assert forall i | 0 <= i < |p.1.0| :: TxOutFormat().ok(p.1.0[i]);
    }
    forall t: UnsignedTx | UnsignedTxOk(t) ensures f.ok(((t.version, t.inputs), (t.outputs, t.lockTime))) {
      assert AllOk(TxOutFormat().ok, t.outputs);
    }
  }

  lemma UnsignedTxValueCanonical()
    ensures Canonical(UnsignedTxValueFormat())
  {
    UnsignedTxCanonical();
    AsCanonical(UnsignedTxFormat(), (t: UnsignedTx) => Unsigned(t),
       (v: Value) => if v.Unsigned? then v.utx else UnsignedTx(0, [], [], 0),
       (v: Value) => v.Unsigned? && UnsignedTxOk(v.utx));
  }
}
