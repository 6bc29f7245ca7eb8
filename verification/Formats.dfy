/**
 * Canonical formats: a push parser and an encoder that undo each other.
 *
 * The combinators are those of the consensus-encoding crate (`ArrayDecoder`, `ByteVecDecoder`,
 * `Decoder2`, `VecDecoderWith`), written out because the crate itself is not part of this model.
 */
module Formats {
  import opened Bytes
  import opened CompactSize

  datatype Format<!V> = Format(parse: bytes -> Outcome<V>, enc: V -> bytes, ok: V -> bool)

  /** More input never changes a settled outcome. */
  ghost predicate Streams<V>(f: Format<V>, b: bytes, c: bytes) {
    && (f.parse(b) != More ==> f.parse(b + c) == f.parse(b))
    && (f.parse(b).Ready? ==> f.parse(b).used <= |b|)
  }

  /** What was read is the encoding of the value returned. */
  ghost predicate Reads<V>(f: Format<V>, b: bytes) {
    f.parse(b).Ready? ==>
      && f.parse(b).used <= |b|
      && f.ok(f.parse(b).value) && b[..f.parse(b).used] == f.enc(f.parse(b).value)
  }

  /** What was written is read back, whatever follows. */
  ghost predicate Writes<V>(f: Format<V>, v: V, c: bytes) {
    f.ok(v) ==> f.parse(f.enc(v) + c) == Ready(v, |f.enc(v)|)
  }

  ghost predicate Canonical<V(!new)>(f: Format<V>) {
    && (forall b, c :: Streams(f, b, c))
    && (forall b :: Reads(f, b))
    && (forall v, c :: Writes(f, v, c))
  }

  lemma Split(b: bytes, c: bytes, k: nat)
    requires k <= |b|
    ensures (b + c)[k..] == b[k..] + c && (b + c)[..k] == b[..k] && b == b[..k] + b[k..]
  {
  }

  /** `ArrayDecoder`: exactly `n` bytes. */
  function Take(n: nat, b: bytes): Outcome<bytes> {
    if |b| < n then More else Ready(b[..n], n)
  }

  function Fixed(n: nat): Format<bytes> {
    Format((b: bytes) => Take(n, b), (v: bytes) => v, (v: bytes) => |v| == n)
  }

  lemma FixedCanonical(n: nat)
    ensures Canonical(Fixed(n))
  {
    var f := Fixed(n);
    forall b, c ensures Streams(f, b, c) {
      if |b| >= n { Split(b, c, n); }
    }
    forall v, c ensures Writes(f, v, c) {
      if |v| == n { assert (v + c)[..n] == v; }
    }
  }

  /** A capped compact size. */
  function Count(): Format<nat> {
    Format(ParseSize, Size, (n: nat) => n <= CAP)
  }

  lemma CountCanonical()
    ensures Canonical(Count())
  {
    forall b, c ensures Streams(Count(), b, c) { SizeSettled(b, c); }
    forall b ensures Reads(Count(), b) {
      if ParseSize(b).Ready? { SizeSound(b); }
    }
    forall v: nat, c: bytes ensures Writes(Count(), v, c) {
      if v <= CAP { SizeComplete(v, c); }
    }
  }

  /** `Decoder2`: one after the other. */
  function ParsePair<A, B>(p: bytes -> Outcome<A>, q: bytes -> Outcome<B>, b: bytes): Outcome<(A, B)> {
    match p(b)
    case More => More
    case Fail(e) => Fail(e)
    case Ready(x, k) =>
      if k > |b| then More else
      match q(b[k..])
      case More => More
      case Fail(e) => Fail(e)
      case Ready(y, m) => Ready((x, y), k + m)
  }

  function Pair<A, B>(f: Format<A>, g: Format<B>): Format<(A, B)> {
    Format((b: bytes) => ParsePair(f.parse, g.parse, b),
           (v: (A, B)) => f.enc(v.0) + g.enc(v.1),
           (v: (A, B)) => f.ok(v.0) && g.ok(v.1))
  }

  lemma PairCanonical<A(!new), B(!new)>(f: Format<A>, g: Format<B>)
    requires Canonical(f) && Canonical(g)
    ensures Canonical(Pair(f, g))
  {
    var h := Pair(f, g);
    forall b, c ensures Streams(h, b, c) {
      assert Streams(f, b, c);
      if f.parse(b).Ready? {
        var k := f.parse(b).used;
        Split(b, c, k);
        assert Streams(g, b[k..], c);
      }
    }
    forall b ensures Reads(h, b) {
      assert Reads(f, b);
      if h.parse(b).Ready? {
        var k := f.parse(b).used;
        assert Reads(g, b[k..]);
        var m := g.parse(b[k..]).used;
        assert b[..k + m] == b[..k] + b[k..][..m];
      }
    }
    forall v, c ensures Writes(h, v, c) {
      if h.ok(v) {
        assert f.enc(v.0) + g.enc(v.1) + c == f.enc(v.0) + (g.enc(v.1) + c);
        assert Writes(f, v.0, g.enc(v.1) + c) && Writes(g, v.1, c);
        Split(f.enc(v.0), g.enc(v.1) + c, |f.enc(v.0)|);
        assert (f.enc(v.0) + (g.enc(v.1) + c))[|f.enc(v.0)|..] == g.enc(v.1) + c;
      }
    }
  }

  /** A fixed number of items, as in `ExactVecDecoderWith`. */
  function ParseMany<V>(p: bytes -> Outcome<V>, n: nat, b: bytes): Outcome<seq<V>> {
    if n == 0 then Ready([], 0) else
    match p(b)
    case More => More
    case Fail(e) => Fail(e)
    case Ready(x, k) =>
      if k > |b| then More else
      match ParseMany(p, n - 1, b[k..])
      case More => More
      case Fail(e) => Fail(e)
      case Ready(xs, m) => Ready([x] + xs, k + m)
  }

  function EncMany<V>(enc: V -> bytes, vs: seq<V>): bytes {
    if vs == [] then [] else enc(vs[0]) + EncMany(enc, vs[1..])
  }

  predicate AllOk<V>(ok: V -> bool, vs: seq<V>) {
    forall i | 0 <= i < |vs| :: ok(vs[i])
  }

  lemma {:induction false} ManyStreams<V(!new)>(f: Format<V>, n: nat, b: bytes, c: bytes)
    requires forall b, c :: Streams(f, b, c)
    ensures ParseMany(f.parse, n, b) != More ==> ParseMany(f.parse, n, b + c) == ParseMany(f.parse, n, b)
    ensures ParseMany(f.parse, n, b).Ready? ==> ParseMany(f.parse, n, b).used <= |b|
  {
    if n > 0 {
      assert Streams(f, b, c);
      if f.parse(b).Ready? {
        var k := f.parse(b).used;
        Split(b, c, k);
        ManyStreams(f, n - 1, b[k..], c);
      }
    }
  }

  lemma {:induction false} ManyReads<V(!new)>(f: Format<V>, n: nat, b: bytes)
    requires Canonical(f) && ParseMany(f.parse, n, b).Ready?
    ensures var Ready(vs, k) := ParseMany(f.parse, n, b);
      k <= |b| && |vs| == n && AllOk(f.ok, vs) && b[..k] == EncMany(f.enc, vs)
  {
    if n > 0 {
      assert Reads(f, b);
      var k := f.parse(b).used;
      ManyReads(f, n - 1, b[k..]);
      var m := ParseMany(f.parse, n - 1, b[k..]).used;
      assert b[..k + m] == b[..k] + b[k..][..m];
      var xs := ParseMany(f.parse, n - 1, b[k..]).value;
      assert ([f.parse(b).value] + xs)[1..] == xs;
    }
  }

  lemma {:induction false} ManyWrites<V(!new)>(f: Format<V>, vs: seq<V>, c: bytes)
    requires (forall v, c :: Writes(f, v, c)) && AllOk(f.ok, vs)
    ensures ParseMany(f.parse, |vs|, EncMany(f.enc, vs) + c) == Ready(vs, |EncMany(f.enc, vs)|)
  {
    if vs != [] {
      var head, tail := f.enc(vs[0]), EncMany(f.enc, vs[1..]);
      assert head + tail + c == head + (tail + c);
      assert Writes(f, vs[0], tail + c);
      assert (head + (tail + c))[|head|..] == tail + c;
      ManyWrites(f, vs[1..], c);
      assert vs == [vs[0]] + vs[1..];
    }
  }

  /** Everything a list decoder returns is as its item decoder returns it, and as many as were asked for. */
  lemma {:induction false} ManyNormal<V(!new)>(f: Format<V>, n: nat, b: bytes)
    requires forall b :: f.parse(b).Ready? ==> f.ok(f.parse(b).value)
    requires ParseMany(f.parse, n, b).Ready?
    ensures var vs := ParseMany(f.parse, n, b).value; |vs| == n && AllOk(f.ok, vs)
  {
    if n > 0 { ManyNormal(f, n - 1, b[f.parse(b).used..]); }
  }

  /** `VecDecoderWith`: a capped count, then that many items. */
  function ParseVec<V>(p: bytes -> Outcome<V>, b: bytes): Outcome<seq<V>> {
    match ParseSize(b)
    case More => More
    case Fail(e) => Fail(e)
    case Ready(n, k) => if k > |b| then More else Shift(ParseMany(p, n, b[k..]), k)
  }

  function Vec<V>(f: Format<V>): Format<seq<V>> {
    Format((b: bytes) => ParseVec(f.parse, b),
           (vs: seq<V>) => Size(|vs|) + EncMany(f.enc, vs),
           (vs: seq<V>) => |vs| <= CAP && AllOk(f.ok, vs))
  }

  lemma VecStreams<V(!new)>(f: Format<V>, b: bytes, c: bytes)
    requires Canonical(f)
    ensures Streams(Vec(f), b, c)
  {
    SizeSettled(b, c);
    if ParseSize(b).Ready? {
      var k := ParseSize(b).used;
      Split(b, c, k);
      ManyStreams(f, ParseSize(b).value, b[k..], c);
    }
  }

  lemma VecReads<V(!new)>(f: Format<V>, b: bytes)
    requires Canonical(f)
    ensures Reads(Vec(f), b)
  {
    if ParseVec(f.parse, b).Ready? {
      SizeSound(b);
      var Ready(n, k) := ParseSize(b);
      ManyReads(f, n, b[k..]);
      var m := ParseMany(f.parse, n, b[k..]).used;
      assert b[..k + m] == b[..k] + b[k..][..m];
    }
  }

  lemma VecWrites<V(!new)>(f: Format<V>, vs: seq<V>, c: bytes)
    requires Canonical(f)
    ensures Writes(Vec(f), vs, c)
  {
    if Vec(f).ok(vs) {
      var head, tail := Size(|vs|), EncMany(f.enc, vs);
      assert head + tail + c == head + (tail + c);
      SizeComplete(|vs|, tail + c);
      assert (head + (tail + c))[|head|..] == tail + c;
      ManyWrites(f, vs, c);
    }
  }

  lemma VecCanonical<V(!new)>(f: Format<V>)
    requires Canonical(f)
    ensures Canonical(Vec(f))
  {
    forall b, c ensures Streams(Vec(f), b, c) { VecStreams(f, b, c); }
    forall b ensures Reads(Vec(f), b) { VecReads(f, b); }
    forall vs, c ensures Writes(Vec(f), vs, c) { VecWrites(f, vs, c); }
  }

  /** `ByteVecDecoder`: a capped length, then that many bytes. */
  function ParseBytes(b: bytes): Outcome<bytes> {
    match ParseSize(b)
    case More => More
    case Fail(e) => Fail(e)
    case Ready(n, k) => if k > |b| then More else Shift(Take(n, b[k..]), k)
  }

  function Prefixed(v: bytes): bytes { Size(|v|) + v }

  function ByteVec(): Format<bytes> {
    Format(ParseBytes, Prefixed, (v: bytes) => |v| <= CAP)
  }

  lemma ByteVecCanonical()
    ensures Canonical(ByteVec())
  {
    var h := ByteVec();
    CountCanonical();
    forall b, c ensures Streams(h, b, c) {
      assert Streams(Count(), b, c);
      if ParseSize(b).Ready? {
        Split(b, c, ParseSize(b).used);
        var k := ParseSize(b).used;
        if ParseBytes(b).Ready? { Split(b[k..], c, ParseSize(b).value); }
      }
    }
    forall b ensures Reads(h, b) {
      assert Reads(Count(), b);
      if h.parse(b).Ready? {
        var Ready(n, k) := ParseSize(b);
        assert b[..k + n] == b[..k] + b[k..][..n];
      }
    }
    forall v, c ensures Writes(h, v, c) {
      if |v| <= CAP {
        assert Size(|v|) + v + c == Size(|v|) + (v + c);
        assert Writes(Count(), |v|, v + c);
        assert (Size(|v|) + (v + c))[|Size(|v|)|..] == v + c;
      }
    }
  }

  /** A decoder whose `end` rejects some of the values it has read. */
  function ParseChecked<V>(p: bytes -> Outcome<V>, check: V -> bool, e: Error, b: bytes): Outcome<V> {
    match p(b)
    case Ready(v, k) => if check(v) then Ready(v, k) else Fail(e)
    case o => o
  }

  function Checked<V>(f: Format<V>, check: V -> bool, e: Error): Format<V> {
    Format((b: bytes) => ParseChecked(f.parse, check, e, b), f.enc, (v: V) => f.ok(v) && check(v))
  }

  lemma CheckedCanonical<V(!new)>(f: Format<V>, check: V -> bool, e: Error)
    requires Canonical(f)
    ensures Canonical(Checked(f, check, e))
  {
    var h := Checked(f, check, e);
    forall b, c ensures Streams(h, b, c) { assert Streams(f, b, c); }
    forall b ensures Reads(h, b) { assert Reads(f, b); }
    forall v, c ensures Writes(h, v, c) { assert Writes(f, v, c); }
  }

  /** The same bytes read as another type. */
  function ParseAs<V, W>(p: bytes -> Outcome<V>, to: V -> W, b: bytes): Outcome<W> {
    match p(b)
    case More => More
    case Fail(e) => Fail(e)
    case Ready(v, k) => Ready(to(v), k)
  }

  function As<V, W>(f: Format<V>, to: V -> W, from: W -> V, ok: W -> bool): Format<W> {
    Format((b: bytes) => ParseAs(f.parse, to, b), (w: W) => f.enc(from(w)), ok)
  }

  lemma AsCanonical<V(!new), W(!new)>(f: Format<V>, to: V -> W, from: W -> V, ok: W -> bool)
    requires Canonical(f)
    requires forall v :: f.ok(v) ==> ok(to(v)) && f.enc(from(to(v))) == f.enc(v)
    requires forall w :: ok(w) ==> f.ok(from(w)) && to(from(w)) == w
    ensures Canonical(As(f, to, from, ok))
  {
    var h := As(f, to, from, ok);
    forall b, c ensures Streams(h, b, c) { assert Streams(f, b, c); }
    forall b ensures Reads(h, b) { assert Reads(f, b); }
    forall w, c ensures Writes(h, w, c) { assert Writes(f, from(w), c); }
  }
}
