/** Every value codec behind its length prefix, and what all of them have in common. */
module ValueCodecs {
  import opened Bytes
  import opened CompactSize
  import opened Bitcoin
  import opened Formats
  import opened KeyOrigins
  import opened Values
  import Sighash

  /** How a value is decoded, one constructor per decoder. */
  datatype Codec =
    // `ValueDecoder<T>`: the inner decoder finds its own end; the declared length is only compared.
    | Number(width: nat, least: nat, most: nat) | FixedBlob(len: nat, check: Check)
    | CountCodec | TxOutCodec | WitnessCodec | TransactionCodec | UnsignedTxCodec
    // Decoders that read exactly the declared length and then look at it.
    | BytesCodec | EcdsaCodec | TaprootCodec | KeySourceCodec | LeafScriptCodec | TapTreeCodec
    // `TapKeyOriginDecoder`: counts the declared length down to zero.
    | TapKeyOriginCodec

  const MAX_ECDSA: nat := 73

  predicate FindsItsEnd(c: Codec) {
    c.Number? || c.FixedBlob? || c.CountCodec? || c.TxOutCodec? || c.WitnessCodec?
    || c.TransactionCodec? || c.UnsignedTxCodec?
  }

  function InnerFormat(c: Codec): Format<Value>
    requires FindsItsEnd(c)
  {
    match c
    case Number(w, l, m) => NumberFormat(w, l, m)
    case FixedBlob(n, check) => BlobFormat(n, check)
    case CountCodec => CountFormat()
    case TxOutCodec => TxOutValueFormat()
    case WitnessCodec => WitnessFormat()
    case TransactionCodec => TransactionValueFormat()
    case UnsignedTxCodec => UnsignedTxValueFormat()
  }

  lemma InnerCanonical(c: Codec)
    requires FindsItsEnd(c)
    ensures Canonical(InnerFormat(c))
  {
    match c
    case Number(w, l, m) => NumberCanonical(w, l, m);
    case FixedBlob(n, check) => BlobCanonical(n, check);
    case CountCodec => CountValueCanonical();
    case TxOutCodec => TxOutValueCanonical();
    case WitnessCodec => WitnessCanonical();
    case TransactionCodec => TransactionValueCanonical();
    case UnsignedTxCodec => UnsignedTxValueCanonical();
  }

  /* ----- values of a declared length ----- */

  predicate LengthOk(c: Codec, n: nat) {
    match c
    case EcdsaCodec => n <= MAX_ECDSA
    case TaprootCodec => n == 64 || n == 65
    case KeySourceCodec => 4 <= n && n % 4 == 0
    case _ => true
  }

  function DecodeEcdsa(b: bytes): Result<EcdsaSig, Error> {
    if b == [] || !Sighash.EcdsaStandard(b[|b| - 1]) then Err(InvalidValue)
    else
      match CRYPTO.der(b[..|b| - 1])
      case None => Err(InvalidValue)
      case Some(d) => Ok(EcdsaSig(d, b[|b| - 1]))
  }

  function EcdsaBytes(s: EcdsaSig): bytes { s.der + LE(s.sighash, 1) }

  predicate EcdsaOk(s: EcdsaSig) {
    Sighash.EcdsaStandard(s.sighash) && CRYPTO.der(s.der) == Some(s.der) && |s.der| <= 72
  }

  /** A signature of 65 bytes may carry the default type explicitly. */
  function DecodeTaproot(b: bytes): Result<TaprootSig, Error>
    requires |b| == 64 || |b| == 65
  {
    if |b| == 64 then Ok(TaprootSig(b, 0))
    else if Sighash.TapValid(b[64]) then Ok(TaprootSig(b[..64], b[64]))
    else Err(InvalidValue)
  }

  function TaprootBytes(s: TaprootSig): bytes {
    if s.sighash == 0 then s.sig else s.sig + LE(s.sighash, 1)
  }

  predicate TaprootOk(s: TaprootSig) { |s.sig| == 64 && Sighash.TapValid(s.sighash) }

  function DecodeLeafScript(b: bytes): Result<LeafScript, Error> {
    if b == [] || !CRYPTO.leafVersion(b[|b| - 1]) then Err(InvalidValue)
    else Ok(LeafScript(b[..|b| - 1], b[|b| - 1]))
  }

  /**
   * The leaf-list loop of `TapTreeDecoder::end`. A script declared longer than what is left is
   * sliced out of range: the error is `Underflow`.
   */
  function DecodeLeaves(b: bytes, acc: seq<TapLeaf>): Result<seq<TapLeaf>, Error> {
    if b == [] then Ok(acc)
    else if |b| < 2 || !ParseSize(b[2..]).Ready? || ParseSize(b[2..]).used > |b| - 2 then Err(InvalidValue)
    else
      var Ready(n, k) := ParseSize(b[2..]);
      var rest := b[2 + k..];
      if n > |rest| then Err(Underflow)
      else
        var leaf := TapLeaf(b[0], b[1], rest[..n]);
        if !CRYPTO.leafVersion(leaf.version) || !CRYPTO.addLeaf(acc + [leaf]) then Err(InvalidValue)
        else DecodeLeaves(rest[n..], acc + [leaf])
  }

  function DecodeTree(b: bytes): Result<seq<TapLeaf>, Error> {
    match DecodeLeaves(b, [])
    case Err(e) => Err(e)
    case Ok(leaves) =>
      match CRYPTO.finishTree(leaves)
      case None => Err(InvalidValue)
      case Some(tree) => Ok(tree)
  }

  predicate TreeOk(leaves: seq<TapLeaf>) {
    && CRYPTO.finishTree(leaves) == Some(leaves)
    && (forall i | 0 <= i <= |leaves| :: CRYPTO.addLeaf(leaves[..i]))
    && (forall i | 0 <= i < |leaves| :: CRYPTO.leafVersion(leaves[i].version))
    && LeavesFit(leaves)
  }

  function DecodeWhole(c: Codec, b: bytes): Result<Value, Error>
    requires !FindsItsEnd(c) && !c.TapKeyOriginCodec? && LengthOk(c, |b|)
  {
    match c
    case BytesCodec => Ok(Blob(b))
    case EcdsaCodec => (match DecodeEcdsa(b) case Ok(s) => Ok(Ecdsa(s)) case Err(e) => Err(e))
    case TaprootCodec => (match DecodeTaproot(b) case Ok(s) => Ok(Taproot(s)) case Err(e) => Err(e))
    case KeySourceCodec => Ok(Source(SourceOf(b)))
    case LeafScriptCodec => (match DecodeLeafScript(b) case Ok(s) => Ok(Leaf(s)) case Err(e) => Err(e))
    case TapTreeCodec => (match DecodeTree(b) case Ok(t) => Ok(Tree(t)) case Err(e) => Err(e))
  }

  /* ----- all codecs ----- */

  function ParseBody(c: Codec, n: nat, b: bytes): Outcome<Value> {
    if FindsItsEnd(c) then
      match InnerFormat(c).parse(b)
      case Ready(v, k) => if k == n then Ready(v, k) else Fail(WrongLength(n, k))
      case o => o
    else if c.TapKeyOriginCodec? then
      match ParseOrigin(n, b)
      case More => More
      case Fail(e) => Fail(e)
      case Ready(o, k) => Ready(Origin(o), k)
    else if !LengthOk(c, n) then Fail(InvalidLength(n))
    else if |b| < n then More
    else
      match DecodeWhole(c, b[..n])
      case Ok(v) => Ready(v, n)
      case Err(e) => Fail(e)
  }

  /** A value behind its compact-size length. */
  function ParseValue(c: Codec, b: bytes): Outcome<Value> {
    match ParseSize(b)
    case More => More
    case Fail(e) => Fail(e)
    case Ready(n, k) => if k > |b| then More else Shift(ParseBody(c, n, b[k..]), k)
  }

  /** The value a complete body stands for. */
  function Dec(c: Codec, body: bytes): Option<Value> {
    match ParseBody(c, |body|, body)
    case Ready(v, k) => if k == |body| then Some(v) else None
    case _ => None
  }

  function EncWhole(v: Value): bytes {
    match v
    case Blob(b) => b
    case Ecdsa(s) => EcdsaBytes(s)
    case Taproot(s) => TaprootBytes(s)
    case Source(s) => SourceBytes(s)
    case Origin(o) => OriginBytes(o)
    case Leaf(l) => l.script + [l.version]
    case Tree(leaves) => TreeBytes(leaves)
    case _ => []
  }

  predicate WholeOk(c: Codec, v: Value) {
    match c
    case BytesCodec => v.Blob?
    case EcdsaCodec => v.Ecdsa? && EcdsaOk(v.ecdsa)
    case TaprootCodec => v.Taproot? && TaprootOk(v.taproot)
    case KeySourceCodec => v.Source? && SourceOk(v.source)
    case LeafScriptCodec => v.Leaf? && CRYPTO.leafVersion(v.leaf.version)
    case TapTreeCodec => v.Tree? && TreeOk(v.leaves)
    case TapKeyOriginCodec => v.Origin? && OriginOk(v.origin)
    case _ => false
  }

  function Enc(c: Codec, v: Value): bytes {
    if FindsItsEnd(c) then InnerFormat(c).enc(v) else EncWhole(v)
  }

  predicate KindOk(c: Codec, v: Value) {
    if FindsItsEnd(c) then InnerFormat(c).ok(v) else WholeOk(c, v)
  }

  /** A value the codec can write and read back: of the right kind and within the cap. */
  predicate ValueOk(c: Codec, v: Value) { KindOk(c, v) && |Enc(c, v)| <= CAP }

  lemma LeafWritten(leaf: TapLeaf, tail: bytes, acc: seq<TapLeaf>)
    requires |leaf.script| <= CAP && CRYPTO.leafVersion(leaf.version) && CRYPTO.addLeaf(acc + [leaf])
    ensures DecodeLeaves(LeafBytes(leaf) + tail, acc) == DecodeLeaves(tail, acc + [leaf])
  {
    var b, size := LeafBytes(leaf) + tail, Size(|leaf.script|);
    assert b[2..] == size + (leaf.script + tail);
    SizeComplete(|leaf.script|, leaf.script + tail);
    assert b[2 + |size|..] == leaf.script + tail;
    Concat(leaf.script, tail, []);
    assert (leaf.script + tail)[..|leaf.script|] == leaf.script;
    assert (leaf.script + tail)[|leaf.script|..] == tail;
  }

  lemma StepWritten(leaves: seq<TapLeaf>, k: nat)
    requires k < |leaves| && TreeOk(leaves)
    ensures DecodeLeaves(TreeBytes(leaves[k..]), leaves[..k])
         == DecodeLeaves(TreeBytes(leaves[k + 1..]), leaves[..k + 1])
  {
    var tail := TreeBytes(leaves[k + 1..]);
    assert leaves[k..][1..] == leaves[k + 1..];
    assert TreeBytes(leaves[k..]) == LeafBytes(leaves[k]) + tail;
    assert leaves[..k] + [leaves[k]] == leaves[..k + 1];
    LeafWritten(leaves[k], tail, leaves[..k]);
  }

  lemma {:induction false} LeavesWritten(leaves: seq<TapLeaf>, k: nat)
    requires k <= |leaves| && TreeOk(leaves)
    ensures DecodeLeaves(TreeBytes(leaves[k..]), leaves[..k]) == Ok(leaves)
    decreases |leaves| - k
  {
    if k == |leaves| {
      assert leaves[..k] == leaves;
    } else {
      StepWritten(leaves, k);
      LeavesWritten(leaves, k + 1);
    }
  }

  lemma {:induction false} LeavesRead(b: bytes, acc: seq<TapLeaf>)
    requires DecodeLeaves(b, acc).Ok? && LeavesFit(acc)
    ensures var leaves := DecodeLeaves(b, acc).value;
      LeavesFit(leaves) && |TreeBytes(leaves)| == |TreeBytes(acc)| + |b|
  {
    if b != [] {
      SizeSound(b[2..]);
      var Ready(n, k) := ParseSize(b[2..]);
      var leaf := TapLeaf(b[0], b[1], b[2 + k..][..n]);
      assert |LeafBytes(leaf)| == 2 + k + n;
      LeavesRead(b[2 + k..][n..], acc + [leaf]);
      TreeBytesAppend(acc, leaf);
    }
  }

  lemma {:induction false} TreeBytesAppend(acc: seq<TapLeaf>, leaf: TapLeaf)
    ensures |TreeBytes(acc + [leaf])| == |TreeBytes(acc)| + |LeafBytes(leaf)|
  {
    if acc == [] {
      assert (acc + [leaf])[1..] == [];
    } else {
      TreeBytesAppend(acc[1..], leaf);
      assert (acc + [leaf])[1..] == acc[1..] + [leaf];
    }
  }

  lemma TreeRoundTrip(leaves: seq<TapLeaf>, b: bytes)
    ensures TreeOk(leaves) ==> DecodeTree(TreeBytes(leaves)) == Ok(leaves)
    ensures DecodeTree(b).Ok? ==> TreeOk(DecodeTree(b).value) && |TreeBytes(DecodeTree(b).value)| <= |b|
  {
    if TreeOk(leaves) {
      LeavesWritten(leaves, 0);
      assert leaves[0..] == leaves;
    }
    if DecodeTree(b).Ok? {
      LeavesRead(b, []);
      assert TreeLaw(CRYPTO, DecodeLeaves(b, []).value);
    }
  }

  /* ----- when the leaf loop slices out of range ----- */

  predicate Takes(acc: seq<TapLeaf>, leaf: TapLeaf) {
    |leaf.script| <= CAP && CRYPTO.leafVersion(leaf.version) && CRYPTO.addLeaf(acc + [leaf])
  }

  /** Leaves the loop takes, one after the other, when it already holds `acc`. */
  predicate Taken(acc: seq<TapLeaf>, leaves: seq<TapLeaf>)
    decreases |leaves|
  {
    leaves == [] || (Takes(acc, leaves[0]) && Taken(acc + [leaves[0]], leaves[1..]))
  }

  /** A depth, a version and a readable script length that is more than the bytes left. */
  predicate Overruns(tail: bytes) {
    |tail| >= 2 && ParseSize(tail[2..]).Ready?
    && ParseSize(tail[2..]).value + ParseSize(tail[2..]).used > |tail| - 2
  }

  lemma TakenMore(acc: seq<TapLeaf>, leaf: TapLeaf, rest: seq<TapLeaf>)
    requires Takes(acc, leaf) && Taken(acc + [leaf], rest)
    ensures Taken(acc, [leaf] + rest) && TreeBytes([leaf] + rest) == LeafBytes(leaf) + TreeBytes(rest)
  {
    hide Takes, LeafBytes;
    assert ([leaf] + rest)[1..] == rest;
  }

  /** The leaf a script length of `n` in `k` bytes announces. */
  function LeafAt(b: bytes, n: nat, k: nat): TapLeaf
    requires 2 + k + n <= |b|
  {
    TapLeaf(b[0], b[1], b[2 + k..][..n])
  }

  /** The first leaf as it stands in the bytes, and what follows it. */
  lemma LeafBytesAt(b: bytes, n: nat, k: nat)
    requires 2 + k + n <= |b| && b[2..][..k] == Size(n)
    ensures b == LeafBytes(LeafAt(b, n, k)) + b[2 + k..][n..]
  {
    hide Size;
    assert b[2..] == b[2..][..k] + b[2 + k..];
    assert b[2 + k..] == b[2 + k..][..n] + b[2 + k..][n..];
    assert b == [b[0], b[1]] + b[2..];
    Concat(Size(n), b[2 + k..][..n], b[2 + k..][n..]);
    Concat([b[0], b[1]], Size(n) + b[2 + k..][..n], b[2 + k..][n..]);
    Concat([b[0], b[1]], Size(n), b[2 + k..][..n]);
  }

  /** One turn of the loop that does not slice out of range and is not refused. */
  lemma LeafStep(b: bytes, acc: seq<TapLeaf>)
    requires b != [] && DecodeLeaves(b, acc) == Err(Underflow) && !Overruns(b)
    ensures |b| >= 2 && ParseSize(b[2..]).Ready?
    ensures var Ready(n, k) := ParseSize(b[2..]);
      && 2 + k + n <= |b| && b[2..][..k] == Size(n) && Takes(acc, LeafAt(b, n, k))
      && DecodeLeaves(b, acc) == DecodeLeaves(b[2 + k..][n..], acc + [LeafAt(b, n, k)])
  {
    hide ParseSize64, Size;
    SizeSound(b[2..]);
  }

  lemma {:induction false} OverrunFound(b: bytes, acc: seq<TapLeaf>) returns (leaves: seq<TapLeaf>, tail: bytes)
    requires DecodeLeaves(b, acc) == Err(Underflow)
    ensures b == TreeBytes(leaves) + tail && Taken(acc, leaves) && Overruns(tail)
    decreases |b|
  {
    hide Overruns, Takes, LeafBytes, ParseSize, Size;
    if Overruns(b) {
      leaves, tail := [], b;
    } else {
      LeafStep(b, acc);
      var Ready(n, k) := ParseSize(b[2..]);
      var leaf, rest := LeafAt(b, n, k), b[2 + k..][n..];
      LeafBytesAt(b, n, k);
      hide DecodeLeaves, LeafAt;
      leaves, tail := OverrunFound(rest, acc + [leaf]);
      TakenMore(acc, leaf, leaves);
      hide TreeBytes, Taken;
      Concat(LeafBytes(leaf), TreeBytes(leaves), tail);
      leaves := [leaf] + leaves;
    }
  }

  lemma {:induction false} OverrunFails(leaves: seq<TapLeaf>, tail: bytes, acc: seq<TapLeaf>)
    requires Taken(acc, leaves) && Overruns(tail)
    ensures DecodeLeaves(TreeBytes(leaves) + tail, acc) == Err(Underflow)
    decreases |leaves|
  {
    if leaves == [] {
      assert TreeBytes(leaves) + tail == tail;
      SizeSound(tail[2..]);
    } else {
      hide DecodeLeaves, Overruns, LeafBytes;
      var leaf, rest := leaves[0], leaves[1..];
      OverrunFails(rest, tail, acc + [leaf]);
      Concat(LeafBytes(leaf), TreeBytes(rest), tail);
      LeafWritten(leaf, TreeBytes(rest) + tail, acc);
    }
  }

  /**
   * Exactly when decoding a tap tree slices past its bytes: after some leaves that are taken, a
   * script length follows that is readable and more than what is left.
   */
  lemma TreeOverruns(b: bytes)
    ensures DecodeTree(b) == Err(Underflow) <==>
      exists leaves, tail :: b == TreeBytes(leaves) + tail && Taken([], leaves) && Overruns(tail)
  {
    if DecodeTree(b) == Err(Underflow) { var leaves, tail := OverrunFound(b, []); }
    if leaves, tail :| b == TreeBytes(leaves) + tail && Taken([], leaves) && Overruns(tail) {
      OverrunFails(leaves, tail, []);
    }
  }

  /** Three bytes are enough: a script of one byte announced, and none there. */
  lemma TreeOverrun()
    ensures DecodeTree([0, 0xC0, 1]) == Err(Underflow)
  {
    var b: bytes := [0, 0xC0, 1];
    assert b[2..] == [1];
    assert ParseSize(b[2..]) == Ready(1, 1);
    hide ParseSize64, ParseSize;
  }

  lemma OneByte(n: nat)
    requires n < 256
    ensures LE(n, 1) == [n]
  {
    assert LE(n, 1) == [n % 256] + LE(n / 256, 0);
  }

  lemma EcdsaRoundTrip(s: EcdsaSig, b: bytes)
    ensures EcdsaOk(s) ==> |EcdsaBytes(s)| <= MAX_ECDSA && DecodeEcdsa(EcdsaBytes(s)) == Ok(s)
    ensures DecodeEcdsa(b).Ok? ==> EcdsaOk(DecodeEcdsa(b).value)
  {
    if EcdsaOk(s) {
      OneByte(s.sighash);
      assert EcdsaBytes(s)[..|s.der|] == s.der;
    }
    if DecodeEcdsa(b).Ok? { assert DerLaw(CRYPTO, b[..|b| - 1]); }
  }

  lemma TaprootRoundTrip(s: TaprootSig, b: bytes)
    ensures TaprootOk(s) ==>
              && (|TaprootBytes(s)| == 64 || |TaprootBytes(s)| == 65)
              && DecodeTaproot(TaprootBytes(s)) == Ok(s)
    ensures |b| == 64 || |b| == 65 ==> DecodeTaproot(b).Ok? ==> TaprootOk(DecodeTaproot(b).value)
  {
    if TaprootOk(s) {
      OneByte(s.sighash);
      assert s.sighash != 0 ==> TaprootBytes(s)[..64] == s.sig;
    }
  }

  lemma LeafScriptRoundTrip(l: LeafScript)
    requires CRYPTO.leafVersion(l.version)
    ensures DecodeLeafScript(l.script + [l.version]) == Ok(l)
  {
    assert (l.script + [l.version])[..|l.script|] == l.script;
  }

  lemma WholeDecEnc(c: Codec, v: Value)
    requires !FindsItsEnd(c) && !c.TapKeyOriginCodec? && WholeOk(c, v)
    ensures LengthOk(c, |EncWhole(v)|) && DecodeWhole(c, EncWhole(v)) == Ok(v)
  {
    match c
    case BytesCodec =>
    case EcdsaCodec => EcdsaRoundTrip(v.ecdsa, []);
    case TaprootCodec => TaprootRoundTrip(v.taproot, []);
    case KeySourceCodec => SourceRoundTrip(v.source, []);
    case LeafScriptCodec => LeafScriptRoundTrip(v.leaf);
    case TapTreeCodec => TreeRoundTrip(v.leaves, []);
  }

  lemma InnerDecEnc(c: Codec, v: Value)
    requires FindsItsEnd(c) && InnerFormat(c).ok(v)
    ensures InnerFormat(c).parse(InnerFormat(c).enc(v)) == Ready(v, |InnerFormat(c).enc(v)|)
  {
    hide InnerFormat;
    InnerCanonical(c);
    assert Writes(InnerFormat(c), v, []);
    assert InnerFormat(c).enc(v) + [] == InnerFormat(c).enc(v);
  }

  /** What is written decodes to what was meant. */
  lemma DecEnc(c: Codec, v: Value)
    requires KindOk(c, v)
    ensures Dec(c, Enc(c, v)) == Some(v)
  {
    hide InnerFormat, DecodeWhole, ParseOrigin, OriginBytes, OriginOk, LengthOk;
    if FindsItsEnd(c) {
      InnerDecEnc(c, v);
    } else if c.TapKeyOriginCodec? {
      OriginWritten(v.origin, []);
      assert OriginBytes(v.origin) + [] == OriginBytes(v.origin);
    } else {
      hide WholeOk, EncWhole;
      WholeDecEnc(c, v);
      assert EncWhole(v)[..|EncWhole(v)|] == EncWhole(v);
    }
  }

  lemma WholeDecOk(c: Codec, b: bytes)
    requires !FindsItsEnd(c) && !c.TapKeyOriginCodec? && LengthOk(c, |b|) && |b| <= CAP
    requires DecodeWhole(c, b).Ok?
    ensures WholeOk(c, DecodeWhole(c, b).value) && |EncWhole(DecodeWhole(c, b).value)| <= CAP
  {
    match c
    case BytesCodec =>
    case EcdsaCodec =>
      EcdsaRoundTrip(DecodeWhole(c, b).value.ecdsa, b);
    case TaprootCodec =>
      TaprootRoundTrip(DecodeWhole(c, b).value.taproot, b);
      assert |EncWhole(DecodeWhole(c, b).value)| <= 65;
    case KeySourceCodec => SourceRoundTrip(KeySource([], []), b);
    case LeafScriptCodec =>
    case TapTreeCodec => TreeRoundTrip([], b);
  }

  lemma InnerDecOk(c: Codec, b: bytes)
    requires FindsItsEnd(c) && InnerFormat(c).parse(b).Ready? && InnerFormat(c).parse(b).used == |b|
    ensures InnerFormat(c).ok(InnerFormat(c).parse(b).value)
    ensures InnerFormat(c).enc(InnerFormat(c).parse(b).value) == b
  {
    hide InnerFormat;
    InnerCanonical(c);
    assert Reads(InnerFormat(c), b);
    assert b[..|b|] == b;
  }

  /** Whatever decodes is a value that can be written, in no more bytes than the cap allows. */
  lemma DecOk(c: Codec, body: bytes)
    requires Dec(c, body).Some? && |body| <= CAP
    ensures ValueOk(c, Dec(c, body).value)
  {
    hide InnerFormat, DecodeWhole, ParseOrigin, OriginBytes, OriginOk, LengthOk;
    assert body[..|body|] == body;
    if FindsItsEnd(c) {
      InnerDecOk(c, body);
    } else if c.TapKeyOriginCodec? {
      OriginRead(|body|, body);
    } else {
      hide WholeOk, EncWhole;
      WholeDecOk(c, body);
    }
  }

  /** Once settled, always settled; a body that is read has the declared length. */
  lemma BodySettled(c: Codec, n: nat, b: bytes, x: bytes)
    ensures ParseBody(c, n, b) != More ==> ParseBody(c, n, b + x) == ParseBody(c, n, b)
    ensures ParseBody(c, n, b).Ready? ==> ParseBody(c, n, b).used == n <= |b|
  {
    hide InnerFormat;
    if FindsItsEnd(c) {
      InnerCanonical(c);
      assert Streams(InnerFormat(c), b, x);
    } else if c.TapKeyOriginCodec? {
      OriginSettled(n, b, x);
      OriginVerdict(n, b);
    } else if |b| >= n {
      assert (b + x)[..n] == b[..n];
    }
  }

  /** Nothing past the declared length has a say in what is read. */
  lemma BodyExact(c: Codec, n: nat, b: bytes)
    requires n <= |b|
    ensures ParseBody(c, n, b).Ready? <==> Dec(c, b[..n]).Some?
    ensures ParseBody(c, n, b).Ready? ==> Dec(c, b[..n]) == Some(ParseBody(c, n, b).value)
  {
    hide InnerFormat;
    assert b[..n] + b[n..] == b && |b[..n]| == n;
    BodySettled(c, n, b[..n], b[n..]);
    BodySettled(c, n, b, []);
    if ParseBody(c, n, b).Ready? { BodyReady(c, n, b); }
  }

  lemma InnerReady(c: Codec, n: nat, b: bytes)
    requires FindsItsEnd(c) && n <= |b| && InnerFormat(c).parse(b).Ready? && InnerFormat(c).parse(b).used == n
    ensures InnerFormat(c).parse(b[..n]) == InnerFormat(c).parse(b)
  {
    hide InnerFormat;
    InnerCanonical(c);
    var f := InnerFormat(c);
    assert Reads(f, b);
    assert Writes(f, f.parse(b).value, []);
    assert b[..n] + [] == b[..n];
  }

  lemma BodyReady(c: Codec, n: nat, b: bytes)
    requires n <= |b| && ParseBody(c, n, b).Ready?
    ensures ParseBody(c, n, b[..n]) == ParseBody(c, n, b)
  {
    hide InnerFormat;
    if FindsItsEnd(c) {
      InnerReady(c, n, b);
    } else if c.TapKeyOriginCodec? {
      OriginRead(n, b);
      OriginWritten(ParseOrigin(n, b).value, []);
      assert b[..n] + [] == b[..n];
    } else {
      assert b[..n][..n] == b[..n];
    }
  }

  /* ----- values behind their length prefix ----- */

  lemma ValueSettled(c: Codec, b: bytes, x: bytes)
    ensures Settled(ParseValue(c, b), ParseValue(c, b + x), |b|)
  {
    hide ParseBody;
    SizeSettled(b, x);
    if ParseSize(b).Ready? {
      var Ready(n, k) := ParseSize(b);
      Split(b, x, k);
      BodySettled(c, n, b[k..], x);
    }
  }

  /** A body behind its length is read as the value it decodes to, whatever follows. */
  lemma ValueComplete(c: Codec, body: bytes, x: bytes)
    requires |body| <= CAP && Dec(c, body).Some?
    ensures ParseValue(c, Prefixed(body) + x) == Ready(Dec(c, body).value, |Prefixed(body)|)
  {
    hide ParseBody, InnerFormat;
    var size := Size(|body|);
    Concat(size, body, x);
    SizeComplete(|body|, body + x);
    BodyExact(c, |body|, body);
    BodySettled(c, |body|, body, x);
  }

  /** What is read is a body behind its length, and the value is what that body decodes to. */
  lemma ValueSound(c: Codec, b: bytes) returns (body: bytes)
    requires ParseValue(c, b).Ready?
    ensures var Ready(v, k) := ParseValue(c, b);
      |body| <= CAP && k <= |b| && b[..k] == Prefixed(body) && Dec(c, body) == Some(v)
  {
    hide ParseBody;
    SizeSound(b);
    var Ready(n, k) := ParseSize(b);
    BodySettled(c, n, b[k..], []);
    body := b[k..][..n];
    BodyExact(c, n, b[k..]);
    Cut(b, k, k + n);
  }
}
