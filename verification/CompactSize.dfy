/**
 * Push decoders seen from the outside, and compact-size integers.
 *
 * A decoder is a function from all the bytes it has been given so far to an `Outcome`. It keeps
 * asking for more until some prefix of the stream settles the matter; then it reports how many
 * bytes it used. The decoder classes are proved to compute these functions however the stream is
 * cut into pieces.
 */
module CompactSize {
  import opened Bytes

  datatype Error =
    | NonMinimal | TooLarge(n: nat)
    | InvalidMagic | InvalidSeparator | Unconsumed | EarlyEnd
    | EmptyKey | TruncatedKeyType
    | ExcludedKey | InvalidKeyData | DuplicateKey | InvalidValue
    | WrongLength(declared: nat, consumed: nat) | InvalidLength(n: nat)
    | Underflow
    | Missing(keyType: nat) | SpFieldMismatch | SpLabelWithoutInfo | IncorrectNonWitnessUtxo
    | NonEmptyScriptSig

  datatype Outcome<+V> = More | Ready(value: V, used: nat) | Fail(error: Error)

  /** The same outcome, reported by a decoder that started `k` bytes earlier. */
  function Shift<V>(o: Outcome<V>, k: nat): Outcome<V> {
    match o
    case Ready(v, used) => Ready(v, used + k)
    case _ => o
  }

  /** Once `now` is settled, `later` (the outcome on a longer stream of at least `n` bytes) is the same. */
  predicate Settled<V(==)>(now: Outcome<V>, later: Outcome<V>, n: nat) {
    && (now != More ==> later == now)
    && (now.Ready? ==> now.used <= n)
  }

  const U32: nat := 0x1_0000_0000
  const U64: nat := 0x1_0000_0000_0000_0000

  /**
   * The cap the consensus-encoding crate puts on decoded lengths and counts. The crate is not
   * part of this model: the cap is some number, at least one that fits a fixed-size field.
   */
  type Limit = n: nat | 0x1000 <= n < 0x1_0000_0000 witness 0x0200_0000
  const CAP: Limit

  function Size(n: nat): (b: bytes)
    ensures 1 <= |b| <= 9
  {
    if n < 0xFD then [n]
    else if n <= 0xFFFF then [0xFD] + LE(n, 2)
    else if n < U32 then [0xFE] + LE(n, 4)
    else [0xFF] + LE(n, 8)
  }

  /** The number of bytes that follow the first byte. */
  function Extra(first: byte): nat {
    if first < 0xFD then 0 else if first == 0xFD then 2 else if first == 0xFE then 4 else 8
  }

  function Least(first: byte): nat {
    if first < 0xFD then 0 else if first == 0xFD then 0xFD else if first == 0xFE then 0x1_0000 else U32
  }

  /** `CompactSizeU64Decoder`: any 64-bit number in its shortest form. */
  function ParseSize64(b: bytes): Outcome<nat> {
    if b == [] || |b| < 1 + Extra(b[0]) then More
    else
      var n := if b[0] < 0xFD then b[0] as nat else FromLE(b[1..1 + Extra(b[0])]);
      if n < Least(b[0]) then Fail(NonMinimal) else Ready(n, 1 + Extra(b[0]))
  }

  /** `CompactSizeDecoder`: a length or a count, capped. */
  function ParseSize(b: bytes): Outcome<nat> {
    match ParseSize64(b)
    case Ready(n, k) => if n <= CAP then Ready(n, k) else Fail(TooLarge(n))
    case o => o
  }

  lemma Pow256Values()
    ensures Pow256(2) == 0x1_0000 && Pow256(4) == U32 && Pow256(8) == U64
  {
    assert Pow256(1) == 256 && Pow256(2) == 256 * Pow256(1) && Pow256(3) == 256 * Pow256(2);
    assert Pow256(4) == 256 * Pow256(3) && Pow256(5) == 256 * Pow256(4);
    assert Pow256(6) == 256 * Pow256(5) && Pow256(7) == 256 * Pow256(6) && Pow256(8) == 256 * Pow256(7);
  }

  lemma SizeComplete(n: nat, c: bytes)
    requires n < U64
    ensures ParseSize64(Size(n) + c) == Ready(n, |Size(n)|)
    ensures n <= CAP ==> ParseSize(Size(n) + c) == Ready(n, |Size(n)|)
  {
    Pow256Values();
    var b := Size(n) + c;
    if n >= 0xFD {
      var w := Extra(b[0]);
      assert b[1..1 + w] == LE(n, w);
      FromLEOfLE(n, w);
    }
  }

  /** The shortest form is the only one accepted, so a size read is a size written. */
  lemma SizeSound(b: bytes)
    requires ParseSize64(b).Ready?
    ensures ParseSize64(b).value < U64 && ParseSize64(b).used <= |b|
    ensures b[..ParseSize64(b).used] == Size(ParseSize64(b).value)
  {
    Pow256Values();
    var w := Extra(b[0]);
    LEOfFromLE(b[1..1 + w]);
    assert b[..1 + w] == [b[0]] + b[1..1 + w];
  }

  lemma SizeSettled(b: bytes, c: bytes)
    ensures Settled(ParseSize64(b), ParseSize64(b + c), |b|)
    ensures Settled(ParseSize(b), ParseSize(b + c), |b|)
  {
    if ParseSize64(b) != More {
      var w := Extra(b[0]);
      assert (b + c)[1..1 + w] == b[1..1 + w];
    }
  }
}
