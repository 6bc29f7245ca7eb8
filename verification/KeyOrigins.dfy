/** Key sources and tap key origins: the countdown decoder, and exactly when it is safe. */
module KeyOrigins {
  import opened Bytes
  import opened CompactSize
  import opened Bitcoin

  /** A derivation path as it is written: four bytes a step. */
  function Words(path: seq<nat>): (b: bytes)
    ensures |b| == 4 * |path|
  {
    if path == [] then [] else LE(path[0], 4) + Words(path[1..])
  }

  /** The four-byte words of `b`; an incomplete last word is ignored. */
  function FromWords(b: bytes): (path: seq<nat>)
    ensures |path| == |b| / 4
  {
    if |b| < 4 then [] else [FromLE(b[..4])] + FromWords(b[4..])
  }

  predicate PathOk(path: seq<nat>) {
    forall i | 0 <= i < |path| :: path[i] < U32
  }

  predicate SourceOk(s: KeySource) {
    |s.fingerprint| == 4 && PathOk(s.path)
  }

  lemma {:induction false} FromWordsOfWords(path: seq<nat>)
    requires PathOk(path)
    ensures FromWords(Words(path)) == path
  {
    if path != [] {
      Pow256Values();
      FromLEOfLE(path[0], 4);
      FromWordsOfWords(path[1..]);
      assert Words(path)[..4] == LE(path[0], 4) && Words(path)[4..] == Words(path[1..]);
      assert path == [path[0]] + path[1..];
    }
  }

  lemma {:induction false} WordsOfFromWords(b: bytes)
    requires |b| % 4 == 0
    ensures PathOk(FromWords(b)) && Words(FromWords(b)) == b
  {
    if b != [] {
      Pow256Values();
      LEOfFromLE(b[..4]);
      WordsOfFromWords(b[4..]);
      assert FromWords(b)[1..] == FromWords(b[4..]);
      assert b == b[..4] + b[4..];
    }
  }

  function SourceBytes(s: KeySource): bytes { s.fingerprint + Words(s.path) }

  function SourceOf(b: bytes): KeySource
    requires |b| >= 4
  {
    KeySource(b[..4], FromWords(b[4..]))
  }

  lemma SourceRoundTrip(s: KeySource, b: bytes)
    ensures SourceOk(s) ==> SourceOf(SourceBytes(s)) == s && |SourceBytes(s)| == 4 + 4 * |s.path|
    ensures |b| >= 4 && |b| % 4 == 0 ==> SourceOk(SourceOf(b)) && SourceBytes(SourceOf(b)) == b
  {
    if SourceOk(s) {
      FromWordsOfWords(s.path);
      assert SourceBytes(s)[..4] == s.fingerprint && SourceBytes(s)[4..] == Words(s.path);
    }
    if |b| >= 4 && |b| % 4 == 0 { WordsOfFromWords(b[4..]); }
  }

  /* ----- tap key origins ----- */

  function OriginBytes(o: TapKeyOrigin): bytes {
    Size(|o.leafHashes|) + Join(o.leafHashes) + SourceBytes(o.source)
  }

  predicate AllHashes(hashes: seq<bytes>) {
    forall i | 0 <= i < |hashes| :: |hashes[i]| == 32
  }

  predicate OriginOk(o: TapKeyOrigin) {
    |o.leafHashes| <= CAP && AllHashes(o.leafHashes) && SourceOk(o.source)
  }

  /** The count, read out of `n` remaining bytes. The bytes it takes are subtracted as they are read. */
  function ParseCount(n: nat, b: bytes): Outcome<nat> {
    if b == [] then More
    else if |b| > n && 1 + Extra(b[0]) > n then Fail(Underflow)
    else ParseSize(b)
  }

  function ParseHashes(count: nat, n: nat, b: bytes): Outcome<seq<bytes>> {
    if count == 0 then Ready([], 0)
    else if |b| < 32 then More
    else if n < 32 then Fail(Underflow)
    else
      match ParseHashes(count - 1, n - 32, b[32..])
      case Ready(hashes, k) => Ready([b[..32]] + hashes, 32 + k)
      case o => o
  }

  function ParseSteps(n: nat, b: bytes): Outcome<seq<nat>> {
    if n == 0 then Ready([], 0)
    else if |b| < 4 then More
    else if n < 4 then Fail(Underflow)
    else
      match ParseSteps(n - 4, b[4..])
      case Ready(steps, k) => Ready([FromLE(b[..4])] + steps, 4 + k)
      case More => More
      case Fail(e) => Fail(e)
  }

  function ParseFingerprint(n: nat, b: bytes): Outcome<KeySource> {
    if |b| < 4 then More
    else if n < 4 then Fail(Underflow)
    else
      match ParseSteps(n - 4, b[4..])
      case Ready(steps, k) => Ready(KeySource(b[..4], steps), 4 + k)
      case More => More
      case Fail(e) => Fail(e)
  }

  function ParseTail(count: nat, n: nat, b: bytes): Outcome<TapKeyOrigin> {
    match ParseHashes(count, n, b)
    case More => More
    case Fail(e) => Fail(e)
    case Ready(hashes, k) =>
      if k > n || k > |b| then More else
      match ParseFingerprint(n - k, b[k..])
      case More => More
      case Fail(e) => Fail(e)
      case Ready(source, m) => Ready(TapKeyOrigin(hashes, source), k + m)
  }

  /** `TapKeyOriginDecoder` after its length prefix said `n`. */
  function ParseOrigin(n: nat, b: bytes): Outcome<TapKeyOrigin> {
    match ParseCount(n, b)
    case More => More
    case Fail(e) => Fail(e)
    case Ready(count, k) => if k > n || k > |b| then More else Shift(ParseTail(count, n - k, b[k..]), k)
  }

  /**
   * The framing condition: the declared length covers the count, that many hashes, a fingerprint
   * and a whole number of path steps.
   */
  predicate TailFramed(count: nat, n: nat) {
    32 * count + 4 <= n && (n - 32 * count) % 4 == 0
  }

  predicate WellFramed(n: nat, b: bytes) {
    && ParseSize(b).Ready?
    && ParseSize(b).used <= n
    && TailFramed(ParseSize(b).value, n - ParseSize(b).used)
  }

  function Chunks(count: nat, b: bytes): (hashes: seq<bytes>)
    requires |b| >= 32 * count
    ensures |hashes| == count && AllHashes(hashes)
  {
    if count == 0 then [] else [b[..32]] + Chunks(count - 1, b[32..])
  }

  lemma {:induction false} ChunksJoin(count: nat, b: bytes)
    requires |b| == 32 * count
    ensures Join(Chunks(count, b)) == b
  {
    if count > 0 {
      ChunksJoin(count - 1, b[32..]);
      assert Chunks(count, b)[1..] == Chunks(count - 1, b[32..]);
      assert b == b[..32] + b[32..];
    }
  }

  lemma {:induction false} JoinChunks(hashes: seq<bytes>, c: bytes)
    requires AllHashes(hashes)
    ensures |Join(hashes)| == 32 * |hashes|
    ensures Chunks(|hashes|, Join(hashes) + c) == hashes
  {
    if hashes != [] {
      JoinChunks(hashes[1..], c);
      var b := Join(hashes) + c;
      Concat(hashes[0], Join(hashes[1..]), c);
      assert b == hashes[0] + (Join(hashes[1..]) + c);
      assert b[..32] == hashes[0] && b[32..] == Join(hashes[1..]) + c;
      assert hashes == [hashes[0]] + hashes[1..];
    }
  }

  /** The whole verdict on the hashes: they are read iff they fit, and otherwise never. */
  lemma {:induction false} HashesVerdict(count: nat, n: nat, b: bytes)
    ensures 32 * count <= n && 32 * count <= |b| ==> ParseHashes(count, n, b) == Ready(Chunks(count, b), 32 * count)
    ensures ParseHashes(count, n, b).Ready? ==> 32 * count <= n && 32 * count <= |b|
    ensures ParseHashes(count, n, b).Fail? ==> ParseHashes(count, n, b) == Fail(Underflow)
    ensures ParseHashes(count, n, b).Fail? <==> 32 * count > n && |b| >= n - n % 32 + 32
  {
    if count > 0 && |b| >= 32 && n >= 32 { HashesVerdict(count - 1, n - 32, b[32..]); }
  }

  lemma {:induction false} StepsVerdict(n: nat, b: bytes)
    ensures n % 4 == 0 && n <= |b| ==> ParseSteps(n, b) == Ready(FromWords(b[..n]), n)
    ensures ParseSteps(n, b).Ready? ==> n % 4 == 0 && n <= |b|
    ensures ParseSteps(n, b).Fail? ==> ParseSteps(n, b) == Fail(Underflow)
    ensures ParseSteps(n, b).Fail? <==> n % 4 != 0 && |b| >= n - n % 4 + 4
  {
    if n >= 4 && |b| >= 4 {
      StepsVerdict(n - 4, b[4..]);
      if n <= |b| { assert b[..n][..4] == b[..4] && b[..n][4..] == b[4..][..n - 4]; }
    }
  }

  function TailOf(count: nat, n: nat, b: bytes): TapKeyOrigin
    requires TailFramed(count, n) && |b| >= n
  {
    TapKeyOrigin(Chunks(count, b), SourceOf(b[32 * count..n]))
  }

  lemma TailVerdict(count: nat, n: nat, b: bytes)
    ensures TailFramed(count, n) && n <= |b| ==> ParseTail(count, n, b) == Ready(TailOf(count, n, b), n)
    ensures ParseTail(count, n, b).Ready? ==> TailFramed(count, n) && n <= |b|
    ensures ParseTail(count, n, b).Fail? ==> ParseTail(count, n, b) == Fail(Underflow) && !TailFramed(count, n)
    ensures !TailFramed(count, n) && |b| >= n + 32 ==> ParseTail(count, n, b).Fail?
  {
    HashesVerdict(count, n, b);
    if 32 * count <= n && 32 * count <= |b| {
      var m, c := n - 32 * count, b[32 * count..];
      if m >= 4 && |c| >= 4 {
        StepsVerdict(m - 4, c[4..]);
        if m <= |c| {
          assert b[32 * count..n][..4] == c[..4];
          assert b[32 * count..n][4..] == c[4..][..m - 4];
        }
      }
    }
  }

  /** How many bytes it takes to settle the part after the count, one way or the other. */
  function TailNeed(count: nat, n: nat): nat {
    if 32 * count > n then n - n % 32 + 32
    else if TailFramed(count, n) then n
    else 32 * count + (n - 32 * count) - (n - 32 * count) % 4 + 4
  }

  /** Once that many bytes are there the verdict is in: read if well framed, a countdown below zero if not. */
  lemma TailSettles(count: nat, n: nat, b: bytes)
    ensures ParseTail(count, n, b) == More <==> |b| < TailNeed(count, n)
    ensures !TailFramed(count, n) && |b| >= TailNeed(count, n) ==> ParseTail(count, n, b) == Fail(Underflow)
  {
    TailVerdict(count, n, b);
    HashesVerdict(count, n, b);
    hide ParseHashes, ParseSteps, Chunks, FromWords, TailOf;
    if 32 * count <= n && 32 * count <= |b| { FingerprintSettles(n - 32 * count, b[32 * count..]); }
  }

  lemma FingerprintSettles(m: nat, c: bytes)
    ensures ParseFingerprint(m, c) == More <==>
      |c| < (if m >= 4 && m % 4 == 0 then m else if m < 4 then 4 else m - m % 4 + 4)
  {
    hide ParseSteps, FromWords;
    if m >= 4 && |c| >= 4 { StepsVerdict(m - 4, c[4..]); }
  }

  /**
   * The countdown of `TapKeyOriginDecoder` never goes below zero on a well-framed value, consumes
   * exactly the declared bytes, and returns what they say. On any other value it is never ready.
   */
  lemma OriginVerdict(n: nat, b: bytes)
    ensures ParseOrigin(n, b).Ready? <==> WellFramed(n, b) && n <= |b|
    ensures WellFramed(n, b) && n <= |b| ==>
              var k := ParseSize(b).used;
              k <= |b| && ParseOrigin(n, b) == Ready(TailOf(ParseSize(b).value, n - k, b[k..]), n)
    ensures ParseOrigin(n, b) == Fail(Underflow) ==> !WellFramed(n, b)
    ensures ParseSize(b).Ready? && !WellFramed(n, b) && |b| >= n + 41 ==> ParseOrigin(n, b) == Fail(Underflow)
  {
    if ParseSize(b).Ready? {
      SizeSound(b);
      var k := ParseSize(b).used;
      if k <= n { TailVerdict(ParseSize(b).value, n - k, b[k..]); }
    }
  }

  lemma CountSettled(n: nat, b: bytes, c: bytes)
    ensures ParseCount(n, b) != More ==> ParseCount(n, b + c) == ParseCount(n, b)
    ensures ParseCount(n, b).Ready? ==> ParseCount(n, b) == ParseSize(b) && 0 < ParseSize(b).used <= n
    ensures ParseCount(n, b).Ready? ==> ParseSize(b).used <= |b|
  {
    SizeSettled(b, c);
  }

  lemma TailSettled(count: nat, n: nat, b: bytes, c: bytes)
    ensures ParseTail(count, n, b) != More ==> ParseTail(count, n, b + c) == ParseTail(count, n, b)
  {
    TailVerdict(count, n, b);
    TailVerdict(count, n, b + c);
    HashesVerdict(count, n, b);
    HashesVerdict(count, n, b + c);
    if ParseTail(count, n, b).Ready? {
      ChunksPrefix(count, b, c);
      assert (b + c)[32 * count..n] == b[32 * count..n];
    } else if ParseTail(count, n, b).Fail? && 32 * count <= n {
      var m := n - 32 * count;
      assert (b + c)[32 * count..] == b[32 * count..] + c;
      var d := b[32 * count..];
      if m >= 4 {
        assert (d + c)[4..] == d[4..] + c;
        StepsVerdict(m - 4, d[4..]);
        StepsVerdict(m - 4, d[4..] + c);
      }
    }
  }

  /** More input never changes a verdict. */
  lemma OriginSettled(n: nat, b: bytes, c: bytes)
    ensures ParseOrigin(n, b) != More ==> ParseOrigin(n, b + c) == ParseOrigin(n, b)
  {
    CountSettled(n, b, c);
    if ParseCount(n, b).Ready? {
      var k := ParseSize(b).used;
      assert 0 < k <= |b|;
      Drop(b, c, k);
      TailSettled(ParseSize(b).value, n - k, b[k..], c);
      hide ParseCount, ParseSize, ParseTail;
    }
  }

  lemma Drop(b: bytes, c: bytes, k: nat)
    requires k <= |b|
    ensures (b + c)[k..] == b[k..] + c
  {
  }

  lemma {:induction false} ChunksPrefix(count: nat, b: bytes, c: bytes)
    requires |b| >= 32 * count
    ensures Chunks(count, b + c) == Chunks(count, b)
  {
    if count > 0 {
      assert (b + c)[..32] == b[..32] && (b + c)[32..] == b[32..] + c;
      ChunksPrefix(count - 1, b[32..], c);
    }
  }

  /** Decoding inverts encoding, for any number of hashes and any path length. */
  lemma OriginWritten(o: TapKeyOrigin, c: bytes)
    requires OriginOk(o)
    ensures ParseOrigin(|OriginBytes(o)|, OriginBytes(o) + c) == Ready(o, |OriginBytes(o)|)
  {
    var size, tail := Size(|o.leafHashes|), Join(o.leafHashes) + SourceBytes(o.source);
    Concat(size, Join(o.leafHashes), SourceBytes(o.source));
    Concat(size, tail, c);
    SizeComplete(|o.leafHashes|, tail + c);
    TailWritten(o, c);
  }

  lemma TailWritten(o: TapKeyOrigin, c: bytes)
    requires OriginOk(o)
    ensures var tail := Join(o.leafHashes) + SourceBytes(o.source);
      ParseTail(|o.leafHashes|, |tail|, tail + c) == Ready(o, |tail|)
  {
    var hashes, source := Join(o.leafHashes), SourceBytes(o.source);
    Concat(hashes, source, c);
    JoinChunks(o.leafHashes, source + c);
    SourceRoundTrip(o.source, []);
    TailVerdict(|o.leafHashes|, |hashes + source|, hashes + source + c);
  }

  /** Encoding inverts decoding: the bytes consumed are the encoding of the value returned. */
  lemma OriginRead(n: nat, b: bytes)
    requires ParseOrigin(n, b).Ready?
    ensures n <= |b| && ParseOrigin(n, b).used == n
    ensures OriginOk(ParseOrigin(n, b).value) && b[..n] == OriginBytes(ParseOrigin(n, b).value)
  {
    hide ParseOrigin, ParseSize64, TailOf, TailFramed, SourceBytes, Join, AllHashes, SourceOk;
    OriginVerdict(n, b);
    SizeSound(b);
    var k := ParseSize(b).used;
    TailRead(ParseSize(b).value, n - k, b[k..]);
    Cut(b, k, n);
    var o := TailOf(ParseSize(b).value, n - k, b[k..]);
    assert ParseOrigin(n, b).value == o;
    Concat(b[..k], Join(o.leafHashes), SourceBytes(o.source));
  }

  lemma TailRead(count: nat, n: nat, b: bytes)
    requires TailFramed(count, n) && n <= |b|
    ensures var o := TailOf(count, n, b);
      |o.leafHashes| == count && AllHashes(o.leafHashes) && SourceOk(o.source)
      && b[..n] == Join(o.leafHashes) + SourceBytes(o.source)
  {
    ChunksPrefix(count, b[..32 * count], b[32 * count..]);
    assert b[..32 * count] + b[32 * count..] == b;
    ChunksJoin(count, b[..32 * count]);
    SourceRoundTrip(KeySource([], []), b[32 * count..n]);
    assert b[..n] == b[..32 * count] + b[32 * count..n];
  }

  /** A declared length of one byte and five bytes of value: the fingerprint takes more than is left. */
  lemma CountdownUnderflows()
    ensures ParseOrigin(1, [0, 0, 0, 0, 0]) == Fail(Underflow) && !WellFramed(1, [0, 0, 0, 0, 0])
  {
    var b: bytes := [0, 0, 0, 0, 0];
    assert ParseSize(b) == Ready(0, 1);
    assert b[1..] == [0, 0, 0, 0];
    assert ParseHashes(0, 0, b[1..]) == Ready([], 0);
    assert b[1..][0..] == b[1..];
  }
}
