/**
 * The bytes on the wire, written out: which numbers, in which order and width, every value and every
 * pair of a map consists of. The formats elsewhere are stated by how they are read back; this is what
 * a reader of the bytes sees.
 */
module Layout {
  import opened Bytes
  import opened CompactSize
  import opened Bitcoin
  import opened Formats
  import opened KeyOrigins
  import opened Values
  import opened ValueCodecs
  import opened Tables
  import opened Maps
  import opened MapEncoding
  import opened Fields
  import opened Psbt
  import opened V0

  /* ----- numbers ----- */

  /** A compact size: one byte, or a marker and the shortest of two, four or eight, least byte first. */
  lemma SizeLayout(n: nat)
    ensures n < 253 ==> Size(n) == [n]
    ensures 253 <= n < 0x1_0000 ==> Size(n) == [253, n % 256, n / 256]
    ensures 0x1_0000 <= n < 0x1_0000_0000 ==>
      |Size(n)| == 5 && Size(n)[0] == 254 && forall i | 0 <= i < 4 :: Size(n)[1 + i] == n / Pow256(i) % 256
    ensures 0x1_0000_0000 <= n ==>
      |Size(n)| == 9 && Size(n)[0] == 255 && forall i | 0 <= i < 8 :: Size(n)[1 + i] == n / Pow256(i) % 256
  {
    if n < 0x1_0000 {
      assert LE(n, 2) == [n % 256] + LE(n / 256, 1) && LE(n / 256, 1) == [n / 256 % 256] + LE(n / 256 / 256, 0);
    }
    forall i | 0 <= i < 4 ensures LE(n, 4)[i] == n / Pow256(i) % 256 { LEDigit(n, 4, i); }
    forall i | 0 <= i < 8 ensures LE(n, 8)[i] == n / Pow256(i) % 256 { LEDigit(n, 8, i); }
  }

  /** A marker whose number would fit a shorter form. */
  predicate Padded(b: bytes) {
    || (|b| >= 3 && b[0] == 253 && b[1] < 253 && b[2] == 0)
    || (|b| >= 5 && b[0] == 254 && b[3] == 0 && b[4] == 0)
    || (|b| >= 9 && b[0] == 255 && b[5] == 0 && b[6] == 0 && b[7] == 0 && b[8] == 0)
  }

  predicate Unfinished(b: bytes) {
    b == [] || (b[0] == 253 && |b| < 3) || (b[0] == 254 && |b| < 5) || (b[0] == 255 && |b| < 9)
  }

  /** What is no compact size: one that is not all there yet, one that is padded, and for lengths one above the cap. */
  lemma SizeVerdicts(b: bytes)
    ensures ParseSize64(b) == More <==> Unfinished(b)
    ensures ParseSize64(b).Fail? <==> ParseSize64(b) == Fail(NonMinimal)
    ensures ParseSize64(b) == Fail(NonMinimal) <==> !Unfinished(b) && Padded(b)
    ensures ParseSize64(b).Ready? && ParseSize64(b).value > CAP ==> ParseSize(b) == Fail(TooLarge(ParseSize64(b).value))
    ensures !ParseSize64(b).Ready? || ParseSize64(b).value <= CAP ==> ParseSize(b) == ParseSize64(b)
  {
    hide FromLE;
    if |b| >= 3 && b[0] == 253 { TwoBytes(b[1..3]); }
    if |b| >= 5 && b[0] == 254 { FourBytes(b[1..5]); }
    if |b| >= 9 && b[0] == 255 { EightBytes(b[1..9]); }
  }

  lemma FourBytes(b: bytes)
    requires |b| == 4
    ensures FromLE(b) < 0x1_0000 <==> b[2] == 0 && b[3] == 0
  {
    hide FromLE;
    Pow256Values();
    HighBytes(b, 2);
  }

  lemma EightBytes(b: bytes)
    requires |b| == 8
    ensures FromLE(b) < 0x1_0000_0000 <==> b[4] == 0 && b[5] == 0 && b[6] == 0 && b[7] == 0
  {
    hide FromLE;
    Pow256Values();
    HighBytes(b, 4);
  }

  lemma TwoBytes(b: bytes)
    requires |b| == 2
    ensures FromLE(b) < 253 <==> b[0] < 253 && b[1] == 0
  {
    assert FromLE(b) == b[0] + 256 * FromLE(b[1..]) && FromLE(b[1..]) == b[1] + 256 * FromLE(b[2..]);
  }

  /** A number is below a power of 256 exactly if all bytes from there on are zero. */
  lemma {:induction false} HighBytes(b: bytes, k: nat)
    requires k <= |b|
    ensures FromLE(b) < Pow256(k) <==> forall i | k <= i < |b| :: b[i] == 0
    decreases |b|
  {
    if |b| > 0 && k > 0 {
      HighBytes(b[1..], k - 1);
      assert forall i | k <= i < |b| :: b[i] == b[1..][i - 1];
    } else if |b| > 0 {
      HighBytes(b[1..], 0);
      assert forall i | 0 < i < |b| :: b[i] == b[1..][i - 1];
    }
  }

  /** What is no key: nothing at all, or a type that is cut short or padded. */
  lemma KeyVerdicts(body: bytes)
    ensures ReadKey(body) == Err(EmptyKey) <==> body == []
    ensures ReadKey(body) == Err(TruncatedKeyType) <==> body != [] && Unfinished(body)
    ensures ReadKey(body) == Err(NonMinimal) <==> !Unfinished(body) && Padded(body)
    ensures ReadKey(body).Err? <==> Unfinished(body) || Padded(body)
  {
    SizeVerdicts(body);
    if ParseSize64(body).Ready? { SizeSound(body); }
    hide Padded, Unfinished, ParseSize64;
    assert body == [] ==> Unfinished(body) by { EmptyUnfinished(); }
  }

  lemma EmptyUnfinished()
    ensures Unfinished([])
  {
  }

  lemma ShortBody(c: Codec, n: nat, b: bytes)
    requires !FindsItsEnd(c) && !c.TapKeyOriginCodec?
    ensures !LengthOk(c, n) ==> ParseBody(c, n, b) == Fail(InvalidLength(n))
    ensures LengthOk(c, n) && |b| < n ==> ParseBody(c, n, b) == More
  {
    hide DecodeWhole, InnerFormat, LengthOk;
  }

  /** Values of a declared length are refused at the length: DER with its type byte, Schnorr, key sources. */
  lemma LengthVerdicts(n: nat, b: bytes)
    ensures n > 73 ==> ParseBody(EcdsaCodec, n, b) == Fail(InvalidLength(n))
    ensures n <= 73 && |b| < n ==> ParseBody(EcdsaCodec, n, b) == More
    ensures n != 64 && n != 65 ==> ParseBody(TaprootCodec, n, b) == Fail(InvalidLength(n))
    ensures (n == 64 || n == 65) && |b| < n ==> ParseBody(TaprootCodec, n, b) == More
    ensures n < 4 || n % 4 != 0 ==> ParseBody(KeySourceCodec, n, b) == Fail(InvalidLength(n))
    ensures n >= 4 && n % 4 == 0 && |b| < n ==> ParseBody(KeySourceCodec, n, b) == More
  {
    ShortBody(EcdsaCodec, n, b);
    ShortBody(TaprootCodec, n, b);
    ShortBody(KeySourceCodec, n, b);
    hide ParseBody;
  }

  /** A number in its range, in as many bytes as its width; anything else of that width is no value. */
  lemma NumberVerdict(w: nat, least: nat, most: nat, b: bytes)
    ensures InnerFormat(Number(w, least, most)).parse(b) ==
      if |b| < w then More
      else if least <= FromLE(b[..w]) <= most then Ready(Num(FromLE(b[..w])), w)
      else Fail(InvalidValue)
  {
    hide FromLE;
  }

  lemma BlobVerdict(len: nat, check: Check, b: bytes)
    ensures InnerFormat(FixedBlob(len, check)).parse(b) ==
      if |b| < len then More
      else if Passes(check, b[..len]) then Ready(Blob(b[..len]), len)
      else Fail(InvalidValue)
  {
    hide Passes;
  }

  /** A decoder that finds its own end is held to the declared length afterwards. */
  lemma DeclaredVerdict(c: Codec, n: nat, b: bytes)
    requires FindsItsEnd(c)
    ensures InnerFormat(c).parse(b).Ready? && InnerFormat(c).parse(b).used != n ==>
      ParseBody(c, n, b) == Fail(WrongLength(n, InnerFormat(c).parse(b).used))
    ensures !InnerFormat(c).parse(b).Ready? || InnerFormat(c).parse(b).used == n ==>
      ParseBody(c, n, b) == InnerFormat(c).parse(b)
  {
    hide InnerFormat;
  }

  predicate EcdsaType(n: nat) { n == 1 || n == 2 || n == 3 || n == 0x81 || n == 0x82 || n == 0x83 }

  /**
   * What the bytes of a signature or a leaf script mean, canonical or not: DER before a standard type,
   * 64 bytes of the default type or any valid type behind them, a script before a known version.
   */
  lemma WholeVerdicts(b: bytes)
    ensures var n := |b| - 1;
      DecodeEcdsa(b) ==
        if b == [] || !EcdsaType(b[n]) || CRYPTO.der(b[..n]).None? then Err(InvalidValue)
        else Ok(EcdsaSig(CRYPTO.der(b[..n]).value, b[n]))
    ensures |b| == 64 ==> DecodeTaproot(b) == Ok(TaprootSig(b, 0))
    ensures |b| == 65 ==>
      DecodeTaproot(b) == if b[64] == 0 || EcdsaType(b[64]) then Ok(TaprootSig(b[..64], b[64])) else Err(InvalidValue)
    ensures var n := |b| - 1;
      DecodeLeafScript(b) ==
        if b == [] || !CRYPTO.leafVersion(b[n]) then Err(InvalidValue) else Ok(LeafScript(b[..n], b[n]))
  {
  }

  /* ----- lists ----- */

  function Pieces<V>(enc: V -> bytes, vs: seq<V>): seq<bytes> {
    seq(|vs|, i requires 0 <= i < |vs| => enc(vs[i]))
  }

  lemma {:induction false} ManyLayout<V>(enc: V -> bytes, vs: seq<V>)
    ensures EncMany(enc, vs) == Join(Pieces(enc, vs))
  {
    if vs != [] {
      ManyLayout(enc, vs[1..]);
      assert Pieces(enc, vs)[1..] == Pieces(enc, vs[1..]);
    }
  }

  /** A length and that many bytes. */
  function Counted(b: bytes): bytes { Size(|b|) + b }

  function TxOutLayout(o: TxOut): bytes { LE(o.value, 8) + Counted(o.scriptPubkey) }

  /** An input of an unsigned transaction: its outpoint, an empty script, its sequence. */
  function UnsignedInLayout(i: UnsignedIn): bytes { i.txid + LE(i.vout, 4) + [0] + LE(i.sequence, 4) }

  function UnsignedTxLayout(t: UnsignedTx): bytes {
    LE(t.version, 4)
    + Size(|t.inputs|) + Join(Pieces(UnsignedInLayout, t.inputs))
    + Size(|t.outputs|) + Join(Pieces(TxOutLayout, t.outputs))
    + LE(t.lockTime, 4)
  }

  function StackLayout(items: seq<bytes>): bytes { Size(|items|) + Join(Pieces(Counted, items)) }

  function StepLayout(step: nat): bytes { LE(step, 4) }

  function SourceLayout(s: KeySource): bytes { s.fingerprint + Join(Pieces(StepLayout, s.path)) }

  function OriginLayout(o: TapKeyOrigin): bytes {
    Size(|o.leafHashes|) + Join(o.leafHashes) + SourceLayout(o.source)
  }

  function LeafLayout(l: TapLeaf): bytes { [l.depth, l.version] + Counted(l.script) }

  /** The bytes of a value behind its length, by what it is. */
  function ValueLayout(c: Codec, v: Value): bytes {
    match v
    case Num(n) => if c.Number? then LE(n, c.width) else Size(n)
    case Blob(b) => b
    case Stack(items) => StackLayout(items)
    case Out(o) => TxOutLayout(o)
    case Tx(t) => CRYPTO.encodeTx(t)
    case Unsigned(t) => UnsignedTxLayout(t)
    case Ecdsa(s) => s.der + [s.sighash % 256]
    case Taproot(s) => if s.sighash == 0 then s.sig else s.sig + [s.sighash % 256]
    case Source(s) => SourceLayout(s)
    case Origin(o) => OriginLayout(o)
    case Leaf(l) => l.script + [l.version]
    case Tree(leaves) => Join(Pieces(LeafLayout, leaves))
  }

  lemma TxOutBytes(o: TxOut)
    ensures TxOutFormat().enc(o) == TxOutLayout(o)
  {
  }

  lemma StackBytes(items: seq<bytes>)
    ensures WitnessFormat().enc(Stack(items)) == StackLayout(items)
  {
    assert WitnessFormat().enc(Stack(items)) == Vec(ByteVec()).enc(items);
    assert ByteVec().enc == Prefixed;
    ManyLayout(Prefixed, items);
    assert Pieces(Prefixed, items) == Pieces(Counted, items);
  }

  lemma RawTxInBytes(i: UnsignedIn)
    ensures RawTxInFormat().enc(RawTxIn(i, [])) == UnsignedInLayout(i)
  {
    assert Prefixed([]) == [0];
    assert RawTxInFormat().enc(RawTxIn(i, [])) == (i.txid + LE(i.vout, 4)) + (Prefixed([]) + LE(i.sequence, 4));
  }

  lemma UnsignedInsBytes(ins: seq<UnsignedIn>)
    ensures UnsignedInsFormat().enc(ins) == Size(|ins|) + Join(Pieces(UnsignedInLayout, ins))
  {
    var raw := WithEmptyScripts(ins);
    assert UnsignedInsFormat().enc(ins) == Vec(RawTxInFormat()).enc(raw);
    assert Vec(RawTxInFormat()).enc(raw) == Size(|raw|) + EncMany(RawTxInFormat().enc, raw);
    ManyLayout(RawTxInFormat().enc, raw);
    forall i | 0 <= i < |ins| ensures Pieces(RawTxInFormat().enc, raw)[i] == Pieces(UnsignedInLayout, ins)[i] {
      RawTxInBytes(ins[i]);
    }
    assert Pieces(RawTxInFormat().enc, raw) == Pieces(UnsignedInLayout, ins);
  }

  lemma TxOutsBytes(outs: seq<TxOut>)
    ensures Vec(TxOutFormat()).enc(outs) == Size(|outs|) + Join(Pieces(TxOutLayout, outs))
  {
    ManyLayout(TxOutFormat().enc, outs);
    forall i | 0 <= i < |outs| ensures Pieces(TxOutFormat().enc, outs)[i] == Pieces(TxOutLayout, outs)[i] {
      TxOutBytes(outs[i]);
    }
    assert Pieces(TxOutFormat().enc, outs) == Pieces(TxOutLayout, outs);
  }

  lemma Regroup(a: bytes, b: bytes, c: bytes, d: bytes, e: bytes, f: bytes)
    ensures (a + (b + c)) + ((d + e) + f) == a + b + c + d + e + f
  {
  }

  lemma UnsignedTxParts(t: UnsignedTx)
    ensures UnsignedTxFormat().enc(t)
         == (LE(t.version, 4) + UnsignedInsFormat().enc(t.inputs))
            + (Vec(TxOutFormat()).enc(t.outputs) + LE(t.lockTime, 4))
  {
    hide TxOutFormat, UnsignedInsFormat;
  }

  lemma UnsignedTxBytes(t: UnsignedTx)
    ensures UnsignedTxFormat().enc(t) == UnsignedTxLayout(t)
  {
    UnsignedTxParts(t);
    UnsignedInsBytes(t.inputs);
    TxOutsBytes(t.outputs);
    hide TxOutFormat, UnsignedInsFormat, UnsignedTxFormat, Vec, Pieces, Join, LE, Size;
    Regroup(LE(t.version, 4), Size(|t.inputs|), Join(Pieces(UnsignedInLayout, t.inputs)),
            Size(|t.outputs|), Join(Pieces(TxOutLayout, t.outputs)), LE(t.lockTime, 4));
  }

  lemma {:induction false} WordsLayout(path: seq<nat>)
    ensures Words(path) == Join(Pieces(StepLayout, path))
  {
    if path != [] {
      WordsLayout(path[1..]);
      assert Pieces(StepLayout, path)[1..] == Pieces(StepLayout, path[1..]);
    }
  }

  lemma {:induction false} TreeLayout(leaves: seq<TapLeaf>)
    ensures TreeBytes(leaves) == Join(Pieces(LeafLayout, leaves))
  {
    if leaves != [] {
      TreeLayout(leaves[1..]);
      assert Pieces(LeafLayout, leaves)[1..] == Pieces(LeafLayout, leaves[1..]);
      assert LeafBytes(leaves[0]) == LeafLayout(leaves[0]);
    }
  }

  lemma OneByteLE(n: nat)
    ensures LE(n, 1) == [n % 256]
  {
    assert LE(n / 256, 0) == [];
  }

  lemma PlainLayout(c: Codec, v: Value)
    requires c.Number? || c.FixedBlob? || c.CountCodec?
    requires KindMatches(c, v)
    ensures InnerFormat(c).enc(v) == ValueLayout(c, v)
  {
    match c
    case Number(w, l, m) => assert NumberFormat(w, l, m).enc(v) == LE(v.n, w);
    case FixedBlob(n, check) => assert BlobFormat(n, check).enc(v) == v.b;
    case CountCodec => assert CountFormat().enc(v) == Count().enc(NumOf(v));
  }

  lemma OutLayout(v: Value)
    requires v.Out?
    ensures TxOutValueFormat().enc(v) == TxOutLayout(v.txOut)
  {
    TxOutBytes(v.txOut);
    hide TxOutFormat, TxOutLayout;
  }

  lemma TxLayout(v: Value)
    requires v.Tx?
    ensures TransactionValueFormat().enc(v) == CRYPTO.encodeTx(v.tx)
  {
    assert TransactionValueFormat().enc(v) == TransactionFormat().enc(v.tx);
  }

  lemma UnsignedLayout(v: Value)
    requires v.Unsigned?
    ensures UnsignedTxValueFormat().enc(v) == UnsignedTxLayout(v.utx)
  {
    UnsignedTxBytes(v.utx);
    hide UnsignedTxFormat, UnsignedTxLayout;
  }

  lemma FoundLayout(c: Codec, v: Value)
    requires FindsItsEnd(c) && KindMatches(c, v)
    ensures InnerFormat(c).enc(v) == ValueLayout(c, v)
  {
    hide WitnessFormat, TxOutValueFormat, UnsignedTxValueFormat, TransactionValueFormat, TxOutLayout, UnsignedTxLayout,
         StackLayout, NumberFormat, BlobFormat, CountFormat;
    match c
    case TxOutCodec => OutLayout(v);
    case WitnessCodec => StackBytes(v.items);
    case TransactionCodec => TxLayout(v);
    case UnsignedTxCodec => UnsignedLayout(v);
    case _ => PlainLayout(c, v);
  }

  lemma WholeLayout(c: Codec, v: Value)
    requires !FindsItsEnd(c) && KindMatches(c, v)
    ensures EncWhole(v) == ValueLayout(c, v)
  {
    match v {
      case Ecdsa(s) => OneByteLE(s.sighash);
      case Taproot(s) => OneByteLE(s.sighash);
      case Source(s) => WordsLayout(s.path);
      case Origin(o) => WordsLayout(o.source.path);
      case Tree(leaves) => TreeLayout(leaves);
      case _ =>
    }
  }

  /** Every value of every codec is written as laid out. */
  lemma EncLayout(c: Codec, v: Value)
    requires KindMatches(c, v)
    ensures Enc(c, v) == ValueLayout(c, v)
  {
    hide InnerFormat, EncWhole, ValueLayout, KindMatches;
    if FindsItsEnd(c) { FoundLayout(c, v); } else { WholeLayout(c, v); }
  }

  /* ----- pairs, and the head of a PSBT ----- */

  /** A pair: the length of the key, its type and data, the length of the value, the value. */
  lemma PairLayout(table: Table, k: Key, v: Value)
    requires EntryOk(table, k, v)
    ensures Frame(PairOf(table, k, v))
         == Counted(Size(k.keyType) + k.data) + Counted(ValueLayout(RuleOf(table, k).codec, v))
  {
    hide EntryOk, ValueLayout, Enc;
    EntryKind(table, k, v);
    EncLayout(RuleOf(table, k).codec, v);
  }

  /** The order in which the pairs of a map go out, by key type; all types without a field go out together. */
  lemma PairOrder()
    ensures Order(GlobalV2) ==
      [Only(0xfb), Only(0x02), Only(0x03), Only(0x04), Only(0x05), Only(0x06), Only(0x01), Only(0x07),
       Only(0x08), Only(0xfc), Rest]
    ensures Order(GlobalV0) ==
      [Only(0x00), Only(0x01), Only(0xfc), Rest, Only(0x07), Only(0x08)]
    ensures Order(OutputV2) ==
      [Only(0x03), Only(0x04), Only(0x00), Only(0x01), Only(0x02), Only(0x05), Only(0x06), Only(0x07),
       Only(0x09), Only(0x0a), Only(0xfc), Rest]
    ensures Order(OutputV0) ==
      [Only(0x01), Only(0x02), Only(0x05), Only(0x06), Only(0x07), Only(0xfc), Rest, Only(0x09), Only(0x0a)]
    ensures Order(InputV2) ==
      [Only(0x0e), Only(0x0f), Only(0x10), Only(0x11), Only(0x12), Only(0x00), Only(0x01), Only(0x02),
       Only(0x03), Only(0x04), Only(0x05), Only(0x06), Only(0x07), Only(0x08), Only(0x0a), Only(0x0b),
       Only(0x0c), Only(0x0d), Only(0x13), Only(0x14), Only(0x15), Only(0x16), Only(0x17), Only(0x18),
       Only(0x1d), Only(0x1e), Only(0xfc), Rest]
    ensures Order(InputV0) ==
      [Only(0x00), Only(0x01), Only(0x02), Only(0x03), Only(0x04), Only(0x05), Only(0x06), Only(0x07),
       Only(0x08), Only(0x0a), Only(0x0b), Only(0x0c), Only(0x0d), Only(0x13), Only(0x14), Only(0x15),
       Only(0x16), Only(0x17), Only(0x18), Only(0xfc), Rest, Only(0x1d), Only(0x1e)]
  {
  }

  /** Both versions start with `psbt` and 0xFF; a decoder tells a wrong word from a wrong separator. */
  lemma HeadLayout(p: Psbt, v: PsbtV0, b: bytes)
    ensures Serialize(p) == [0x70, 0x73, 0x62, 0x74, 0xFF] + MapsBytes(p)
    ensures SerializeV0(v) == [0x70, 0x73, 0x62, 0x74, 0xFF] + MapsBytesV0(v)
    ensures |b| >= 4 && b[..4] != [0x70, 0x73, 0x62, 0x74] ==>
      ParsePsbt(b) == Fail(InvalidMagic) && ParseV0(b) == Fail(InvalidMagic)
    ensures |b| >= 5 && b[..4] == [0x70, 0x73, 0x62, 0x74] && b[4] != 0xFF ==>
      ParsePsbt(b) == Fail(InvalidSeparator) && ParseV0(b) == Fail(InvalidSeparator)
    ensures b == [0x70, 0x73, 0x62, 0x74] || b == [0x70, 0x73, 0x62] ==> ParsePsbt(b) == More && ParseV0(b) == More
  {
    hide ParseMaps, ParseMapsV0, MapsBytes, MapsBytesV0;
    assert MAGIC + [SEPARATOR] == [0x70, 0x73, 0x62, 0x74, 0xFF];
    if b == [0x70, 0x73, 0x62, 0x74] { assert b[..4] == MAGIC; }
  }
}
