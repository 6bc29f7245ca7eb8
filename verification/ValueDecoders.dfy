/**
 * The push decoders of values, as objects fed in pieces.
 *
 * Every decoder keeps, for the proof, the bytes it has `seen`. What it reports after a push is what
 * the parsing function of its value says of those bytes, so how the bytes were cut does not matter.
 */
module ValueDecoders {
  import opened Bytes
  import opened CompactSize
  import opened Bitcoin
  import opened Formats
  import opened KeyOrigins
  import opened Values
  import opened ValueCodecs

  /** What a push reports; a completed decoder is then asked for its value with `End`. */
  datatype Status = NeedsMore | Finished | Failed(error: Error)

  function Min(a: nat, b: nat): nat { if a <= b then a else b }

  /* ----- the compact-size decoder of the consensus-encoding crate ----- */

  /** How many of the bytes offered a compact-size decoder takes. */
  function SizeTake(fed: bytes, b: bytes): (n: nat)
    ensures n <= |b|
  {
    if b == [] then 0
    else
      var first := if fed == [] then b[0] else fed[0];
      if |fed| >= 1 + Extra(first) then 0 else Min(1 + Extra(first) - |fed|, |b|)
  }

  lemma SizeTaken(fed: bytes, b: bytes)
    requires ParseSize(fed) == More
    ensures var f := fed + b[..SizeTake(fed, b)];
      && (ParseSize(f) == More ==> SizeTake(fed, b) == |b|)
      && (ParseSize(f).Ready? ==> ParseSize(f).used == |f|)
      && |f| <= 9
  {
  }

  /** What a value behind its length is, once the length is read. */
  lemma AfterPrefix(c: Codec, prefix: bytes, rest: bytes)
    requires ParseSize(prefix).Ready? && ParseSize(prefix).used == |prefix|
    ensures ParseValue(c, prefix + rest) == Shift(ParseBody(c, ParseSize(prefix).value, rest), |prefix|)
  {
    hide ParseBody, ParseSize;
    SizeSettled(prefix, rest);
    assert (prefix + rest)[|prefix|..] == rest;
  }

  lemma PrefixFails(c: Codec, prefix: bytes)
    ensures ParseSize(prefix) == More ==> ParseValue(c, prefix) == More
    ensures ParseSize(prefix).Fail? ==> ParseValue(c, prefix) == Fail(ParseSize(prefix).error)
  {
    hide ParseBody, ParseSize;
  }

  /* ----- values read whole ----- */

  predicate ReadsWhole(c: Codec) { !FindsItsEnd(c) && !c.TapKeyOriginCodec? }

  lemma WholeBody(c: Codec, n: nat, b: bytes)
    requires ReadsWhole(c)
    ensures !LengthOk(c, n) ==> ParseBody(c, n, b) == Fail(InvalidLength(n))
    ensures LengthOk(c, n) && |b| < n ==> ParseBody(c, n, b) == More
    ensures LengthOk(c, n) && |b| == n && DecodeWhole(c, b).Ok? ==>
      ParseBody(c, n, b) == Ready(DecodeWhole(c, b).value, n)
    ensures LengthOk(c, n) && |b| == n && DecodeWhole(c, b).Err? ==> ParseBody(c, n, b) == Fail(DecodeWhole(c, b).error)
  {
    hide InnerFormat, DecodeWhole, LengthOk;
    if |b| == n { assert b[..n] == b; }
  }

  datatype WholeState = ReadingPrefix(fed: bytes) | ReadingValue(buf: bytes, expected: nat) | Errored

  /**
   * `ByteVecDecoder` and the decoders around it (`KeyDecoder`, `LeafScriptDecoder`, `TapTreeDecoder`),
   * and `TaprootSignatureDecoder`: the length first, then exactly that many bytes.
   */
  class WholeDecoder {
    const codec: Codec
    var state: WholeState
    ghost var seen: bytes

    ghost predicate Valid()
      reads this
    {
      && ReadsWhole(codec)
      && match state
         case ReadingPrefix(fed) => seen == fed && ParseSize(fed) == More
         case ReadingValue(buf, n) =>
           && |buf| <= n && |buf| <= |seen| && LengthOk(codec, n)
           && ParseSize(seen[..|seen| - |buf|]) == Ready(n, |seen| - |buf|)
           && seen[|seen| - |buf|..] == buf
         case Errored => false
    }

    ghost predicate Done()
      reads this
    {
      state.ReadingValue? && |state.buf| == state.expected
    }

    constructor (codec: Codec)
      requires ReadsWhole(codec)
      ensures Valid() && !Done() && seen == [] && this.codec == codec
    {
      this.codec := codec;
      state := ReadingPrefix([]);
      seen := [];
    }

    lemma Verdict()
      requires Valid()
      ensures !Done() ==> ParseValue(codec, seen) == More
      ensures Done() ==> match DecodeWhole(codec, state.buf)
                         case Ok(v) => ParseValue(codec, seen) == Ready(v, |seen|)
                         case Err(e) => ParseValue(codec, seen) == Fail(e)
    {
      hide ParseSize, ParseValue, ParseBody, DecodeWhole, LengthOk;
      match state
      case ReadingPrefix(fed) => PrefixFails(codec, fed);
      case ReadingValue(buf, n) =>
        var k := |seen| - |buf|;
        assert seen == seen[..k] + buf;
        AfterPrefix(codec, seen[..k], buf);
        WholeBody(codec, n, buf);
    }

    /** The value's share of the bytes. */
    method TakeValue(b: bytes) returns (used: nat, status: Status)
      requires Valid() && state.ReadingValue?
      modifies this
      ensures used <= |b| && seen == old(seen) + b[..used]
      ensures status.NeedsMore? ==> used == |b| && Valid() && !Done() && ParseValue(codec, seen) == More
      ensures status.Finished? ==> Valid() && Done()
      ensures !status.Failed?
    {
      hide ParseValue, ParseBody, DecodeWhole, ParseSize;
      used := Min(state.expected - |state.buf|, |b|);
      ghost var prefix := seen[..|seen| - |state.buf|];
      var buf := state.buf + b[..used];
      seen := seen + b[..used];
      state := ReadingValue(buf, state.expected);
      assert seen == prefix + buf;
      Verdict();
      status := if |buf| == state.expected then Finished else NeedsMore;
    }

    method PushBytes(b: bytes) returns (used: nat, status: Status)
      requires Valid() && !Done()
      modifies this
      ensures used <= |b| && seen == old(seen) + b[..used]
      ensures status.NeedsMore? ==> used == |b| && Valid() && !Done() && ParseValue(codec, seen) == More
      ensures status.Finished? ==> Valid() && Done()
      ensures status.Failed? ==> ParseValue(codec, seen) == Fail(status.error)
    {
      hide ParseValue, ParseBody, DecodeWhole, ParseSize;
      used := 0;
      if state.ReadingPrefix? {
        var fed := state.fed;
        used := SizeTake(fed, b);
        SizeTaken(fed, b);
        fed := fed + b[..used];
        seen := fed;
        PrefixFails(codec, fed);
        match ParseSize(fed)
        case More =>
          state := ReadingPrefix(fed);
          return used, NeedsMore;
        case Fail(e) =>
          state := Errored;
          return used, Failed(e);
        case Ready(n, _) =>
          if !LengthOk(codec, n) {
            state := Errored;
            AfterPrefix(codec, fed, []);
            assert fed + [] == fed;
            WholeBody(codec, n, []);
            return used, Failed(InvalidLength(n));
          }
          state := ReadingValue([], n);
          assert seen[..|seen|] == seen;
      }
      var k;
      k, status := TakeValue(b[used..]);
      Cut(b, used, used + k);
      used := used + k;
    }

    method End() returns (r: Result<Value, Error>)
      requires Valid() && Done()
      ensures r.Ok? ==> ParseValue(codec, seen) == Ready(r.value, |seen|)
      ensures r.Err? ==> ParseValue(codec, seen) == Fail(r.error)
    {
      hide ParseValue, DecodeTree;
      Verdict();
      if codec.TapTreeCodec? {
        var t := EndTree(state.buf);
        match t
        case Ok(leaves) => r := Ok(Tree(leaves));
        case Err(e) => r := Err(e);
      } else {
        r := DecodeWhole(codec, state.buf);
      }
    }
  }

  /** `TapTreeDecoder::end`: one leaf after the other off the front of the slice, then the finished tree. */
  method EndTree(value: bytes) returns (r: Result<seq<TapLeaf>, Error>)
    ensures r == DecodeTree(value)
  {
    var builder: seq<TapLeaf>, slice := [], value;
    while slice != []
      invariant DecodeLeaves(slice, builder) == DecodeLeaves(value, [])
      decreases |slice|
    {
      if |slice| < 2 { return Err(InvalidValue); }
      var rest := slice[2..];
      match ParseSize(rest)
      case More => return Err(InvalidValue);
      case Fail(_) => return Err(InvalidValue);
      case Ready(n, k) =>
        SizeSound(rest);
        assert slice[2 + k..] == rest[k..];
        if n > |rest| - k { return Err(Underflow); }
        var leaf := TapLeaf(slice[0], slice[1], rest[k..k + n]);
        assert rest[k..][..n] == rest[k..k + n];
        if !CRYPTO.leafVersion(leaf.version) { return Err(InvalidValue); }
        if !CRYPTO.addLeaf(builder + [leaf]) { return Err(InvalidValue); }
        builder := builder + [leaf];
        assert rest[k..][n..] == rest[k + n..];
        slice := rest[k + n..];
    }
    match CRYPTO.finishTree(builder)
    case None => return Err(InvalidValue);
    case Some(tree) => return Ok(tree);
  }

  datatype EcdsaState = EcdsaPrefix(fed: bytes) | EcdsaValue(written: nat, expected: nat) | EcdsaErrored

  /** `EcdsaSignatureDecoder`: copies into a fixed buffer of the longest signature there is. */
  class EcdsaSignatureDecoder {
    const buf: array<byte>
    var state: EcdsaState
    ghost var seen: bytes

    ghost predicate Valid()
      reads this, buf
    {
      && buf.Length == MAX_ECDSA
      && match state
         case EcdsaPrefix(fed) => seen == fed && ParseSize(fed) == More
         case EcdsaValue(w, n) =>
           && w <= n <= MAX_ECDSA && w <= |seen|
           && ParseSize(seen[..|seen| - w]) == Ready(n, |seen| - w)
           && seen[|seen| - w..] == buf[..w]
         case EcdsaErrored => false
    }

    ghost predicate Done()
      reads this
    {
      state.EcdsaValue? && state.written == state.expected
    }

    constructor ()
      ensures Valid() && !Done() && seen == [] && fresh(buf)
    {
      buf := new byte[MAX_ECDSA](_ => 0);
      state := EcdsaPrefix([]);
      seen := [];
    }

    lemma Verdict()
      requires Valid()
      ensures !Done() ==> ParseValue(EcdsaCodec, seen) == More
      ensures Done() ==> match DecodeWhole(EcdsaCodec, buf[..state.written])
                         case Ok(v) => ParseValue(EcdsaCodec, seen) == Ready(v, |seen|)
                         case Err(e) => ParseValue(EcdsaCodec, seen) == Fail(e)
    {
      hide ParseSize, ParseValue, ParseBody, DecodeWhole;
      match state
      case EcdsaPrefix(fed) => PrefixFails(EcdsaCodec, fed);
      case EcdsaValue(w, n) =>
        var k := |seen| - w;
        assert seen == seen[..k] + buf[..w];
        AfterPrefix(EcdsaCodec, seen[..k], buf[..w]);
        WholeBody(EcdsaCodec, n, buf[..w]);
    }

    method PushBytes(b: bytes) returns (used: nat, status: Status)
      requires Valid() && !Done()
      modifies this, buf
      ensures used <= |b| && seen == old(seen) + b[..used]
      ensures status.NeedsMore? ==> used == |b| && Valid() && !Done() && ParseValue(EcdsaCodec, seen) == More
      ensures status.Finished? ==> Valid() && Done()
      ensures status.Failed? ==> ParseValue(EcdsaCodec, seen) == Fail(status.error)
    {
      hide ParseValue, ParseBody, DecodeWhole, ParseSize;
      used := 0;
      if state.EcdsaPrefix? {
        var fed := state.fed;
        used := SizeTake(fed, b);
        SizeTaken(fed, b);
        fed := fed + b[..used];
        seen := fed;
        PrefixFails(EcdsaCodec, fed);
        match ParseSize(fed)
        case More =>
          state := EcdsaPrefix(fed);
          return used, NeedsMore;
        case Fail(e) =>
          state := EcdsaErrored;
          return used, Failed(e);
        case Ready(n, _) =>
          if n > MAX_ECDSA {
            state := EcdsaErrored;
            AfterPrefix(EcdsaCodec, fed, []);
            assert fed + [] == fed;
            WholeBody(EcdsaCodec, n, []);
            return used, Failed(InvalidLength(n));
          }
          state := EcdsaValue(0, n);
          assert seen[..|seen|] == seen;
      }
      var k: nat;
      k, status := Fill(b[used..]);
      assert b[..used] + b[used..][..k] == b[..used + k];
      used := used + k;
    }

    /** The copy into the buffer: as much as is missing, or as much as there is. */
    method Fill(b: bytes) returns (used: nat, status: Status)
      requires Valid() && state.EcdsaValue?
      modifies this, buf
      ensures used <= |b| && seen == old(seen) + b[..used]
      ensures status.NeedsMore? ==> used == |b| && Valid() && !Done() && ParseValue(EcdsaCodec, seen) == More
      ensures status.Finished? ==> Valid() && Done()
      ensures !status.Failed?
    {
      hide ParseValue, ParseBody, DecodeWhole, ParseSize;
      var w, n := state.written, state.expected;
      used := Min(n - w, |b|);
      ghost var prefix, had := seen[..|seen| - w], buf[..w];
      forall i | 0 <= i < used { buf[w + i] := b[i]; }
      assert buf[..w + used] == had + b[..used];
      seen := seen + b[..used];
      state := EcdsaValue(w + used, n);
      assert seen == prefix + buf[..w + used];
      Verdict();
      status := if w + used == n then Finished else NeedsMore;
    }

    method End() returns (r: Result<Value, Error>)
      requires Valid() && Done()
      ensures r.Ok? ==> ParseValue(EcdsaCodec, seen) == Ready(r.value, |seen|)
      ensures r.Err? ==> ParseValue(EcdsaCodec, seen) == Fail(r.error)
    {
      hide ParseValue;
      Verdict();
      r := DecodeWhole(EcdsaCodec, buf[..state.expected]);
    }
  }

  datatype KeySourceState =
    | SourcePrefix(fed: bytes)
    | SourceValue(fingerprint: bytes, path: seq<nat>, word: bytes, count: nat)
    | SourceErrored

  /** `KeySourceDecoder`: a fingerprint, then as many path steps as the length leaves room for. */
  class KeySourceDecoder {
    var state: KeySourceState
    ghost var prefix: bytes
    ghost var seen: bytes

    ghost predicate Valid()
      reads this
    {
      match state
      case SourcePrefix(fed) => seen == fed && ParseSize(fed) == More
      case SourceValue(fingerprint, path, word, count) =>
        && ParseSize(prefix) == Ready(4 + 4 * count, |prefix|)
        && seen == prefix + (fingerprint + Words(path) + word)
        && SourceShape(fingerprint, path, word, count)
      case SourceErrored => false
    }

    ghost predicate Done()
      reads this
    {
      state.SourceValue? && |state.fingerprint| == 4 && |state.path| == state.count
    }

    constructor ()
      ensures Valid() && !Done() && seen == []
    {
      state, seen, prefix := SourcePrefix([]), [], [];
    }

    lemma Verdict()
      requires Valid()
      ensures !Done() ==> ParseValue(KeySourceCodec, seen) == More
      ensures Done() ==>
        ParseValue(KeySourceCodec, seen) == Ready(Source(KeySource(state.fingerprint, state.path)), |seen|)
    {
      hide ParseSize, ParseValue, ParseBody, DecodeWhole, SourceShape, Words;
      match state
      case SourcePrefix(fed) => PrefixFails(KeySourceCodec, fed);
      case SourceValue(fingerprint, path, word, count) =>
        SourceBody(fingerprint, path, word, count);
        AfterPrefix(KeySourceCodec, prefix, fingerprint + Words(path) + word);
        WholeBody(KeySourceCodec, 4 + 4 * count, fingerprint + Words(path) + word);
    }

    method PushBytes(b: bytes) returns (used: nat, status: Status)
      requires Valid() && !Done()
      modifies this
      ensures used <= |b| && seen == old(seen) + b[..used]
      ensures status.NeedsMore? ==> used == |b| && Valid() && !Done() && ParseValue(KeySourceCodec, seen) == More
      ensures status.Finished? ==> Valid() && Done()
      ensures status.Failed? ==> ParseValue(KeySourceCodec, seen) == Fail(status.error)
    {
      hide ParseValue, ParseBody, ParseSize, Words, PathOk, SourceShape;
      used := 0;
      if state.SourcePrefix? {
        used, status := Prefix(b);
        if !status.Finished? { return; }
      }
      var k: nat;
      k, status := Fill(b[used..]);
      Cut(b, used, used + k);
      used := used + k;
    }

    /** The length, which leaves room for a fingerprint and whole path steps or is refused. */
    method Prefix(b: bytes) returns (used: nat, status: Status)
      requires Valid() && state.SourcePrefix?
      modifies this
      ensures used <= |b| && seen == old(seen) + b[..used]
      ensures status.NeedsMore? ==> used == |b| && Valid() && !Done() && ParseValue(KeySourceCodec, seen) == More
      ensures status.Finished? ==> Valid() && state.SourceValue?
      ensures status.Failed? ==> ParseValue(KeySourceCodec, seen) == Fail(status.error)
    {
      hide ParseValue, ParseBody, ParseSize, Words, PathOk, SourceShape;
      var fed := state.fed;
      used := SizeTake(fed, b);
      SizeTaken(fed, b);
      fed := fed + b[..used];
      seen := fed;
      PrefixFails(KeySourceCodec, fed);
      match ParseSize(fed)
      case More =>
        state := SourcePrefix(fed);
        status := NeedsMore;
      case Fail(e) =>
        state := SourceErrored;
        status := Failed(e);
      case Ready(n, _) =>
        if n < 4 || n % 4 != 0 {
          BadLength(fed, n);
          state := SourceErrored;
          return used, Failed(InvalidLength(n));
        }
        NothingFilled(fed, (n - 4) / 4);
        prefix, state := fed, SourceValue([], [], [], (n - 4) / 4);
        status := Finished;
    }

    static lemma BadLength(fed: bytes, n: nat)
      requires ParseSize(fed) == Ready(n, |fed|) && (n < 4 || n % 4 != 0)
      ensures ParseValue(KeySourceCodec, fed) == Fail(InvalidLength(n))
    {
      hide ParseValue, ParseBody, ParseSize;
      AfterPrefix(KeySourceCodec, fed, []);
      assert fed + [] == fed;
      WholeBody(KeySourceCodec, n, []);
    }

    static lemma NothingFilled(fed: bytes, count: nat)
      ensures SourceShape([], [], [], count) && fed == fed + ([] + Words([]) + [])
    {
    }

    /** The fingerprint and path decoders, one after the other. */
    method Fill(b: bytes) returns (used: nat, status: Status)
      requires Valid() && state.SourceValue?
      modifies this
      ensures used <= |b| && seen == old(seen) + b[..used]
      ensures status.NeedsMore? ==> used == |b| && Valid() && !Done() && ParseValue(KeySourceCodec, seen) == More
      ensures status.Finished? ==> Valid() && Done()
      ensures !status.Failed?
    {
      hide ParseValue, ParseBody, ParseSize, Words, PathOk;
      ghost var body := state.fingerprint + Words(state.path) + state.word;
      var fingerprint, path, word;
      used, fingerprint, path, word := FillSource(state.fingerprint, state.path, state.word, state.count, b);
      Concat(prefix, body, b[..used]);
      seen := seen + b[..used];
      state := SourceValue(fingerprint, path, word, state.count);
      Verdict();
      status := if |fingerprint| == 4 && |path| == state.count then Finished else NeedsMore;
    }

    method End() returns (r: Result<Value, Error>)
      requires Valid() && Done()
      ensures r.Ok? ==> ParseValue(KeySourceCodec, seen) == Ready(r.value, |seen|)
      ensures r.Err? ==> ParseValue(KeySourceCodec, seen) == Fail(r.error)
    {
      hide ParseValue;
      Verdict();
      r := Ok(Source(KeySource(state.fingerprint, state.path)));
    }
  }

  /** Path steps, four bytes each, until there are `count` of them or the bytes run out. */
  method FillPath(path0: seq<nat>, word0: bytes, count: nat, b: bytes) returns (used: nat, path: seq<nat>, word: bytes)
    requires |path0| <= count && |word0| < 4 && PathOk(path0) && (|path0| == count ==> word0 == [])
    ensures used <= |b| && Words(path) + word == Words(path0) + word0 + b[..used]
    ensures |path| <= count && |word| < 4 && PathOk(path) && (|path| == count ==> word == [])
    ensures used == |b| || |path| == count
  {
    hide Words, PathOk;
    used, path, word := 0, path0, word0;
    ghost var base := Words(path0) + word0;
    assert base + b[..0] == base;
    while used < |b| && |path| < count
      invariant used <= |b| && |path| <= count && |word| < 4 && PathOk(path)
      invariant |path| == count ==> word == []
      invariant Words(path) + word == base + b[..used]
    {
      var k := Min(4 - |word|, |b| - used);
      MoreWord(Words(path), word, base, b, used, k);
      word, used := word + b[used..used + k], used + k;
      if |word| == 4 {
        StepPushed(path, word);
        path, word := path + [FromLE(word)], [];
      }
    }
  }

  /** The parts filled so far fall short of the declared length, or they are all of it and the source itself. */
  lemma SourceBody(fingerprint: bytes, path: seq<nat>, word: bytes, count: nat)
    requires SourceShape(fingerprint, path, word, count)
    ensures var body, n := fingerprint + Words(path) + word, 4 + 4 * count;
      && LengthOk(KeySourceCodec, n)
      && (|fingerprint| != 4 || |path| != count ==> |body| < n)
      && (|fingerprint| == 4 && |path| == count ==>
            |body| == n && DecodeWhole(KeySourceCodec, body) == Ok(Source(KeySource(fingerprint, path))))
  {
    hide PathOk, Words;
    if |fingerprint| == 4 && |path| == count {
      assert fingerprint + Words(path) + word == SourceBytes(KeySource(fingerprint, path));
      hide SourceBytes, SourceOf;
      SourceRoundTrip(KeySource(fingerprint, path), []);
    }
  }

  predicate SourceShape(fingerprint: bytes, path: seq<nat>, word: bytes, count: nat) {
    && |fingerprint| <= 4 && |path| <= count && |word| < 4 && PathOk(path)
    && (|fingerprint| < 4 ==> path == [] && word == [])
    && (|path| == count ==> word == [])
  }

  method FillSource(fingerprint0: bytes, path0: seq<nat>, word0: bytes, count: nat, b: bytes)
    returns (used: nat, fingerprint: bytes, path: seq<nat>, word: bytes)
    requires SourceShape(fingerprint0, path0, word0, count)
    ensures SourceShape(fingerprint, path, word, count) && used <= |b|
    ensures fingerprint + Words(path) + word == fingerprint0 + Words(path0) + word0 + b[..used]
    ensures used == |b| || (|fingerprint| == 4 && |path| == count)
  {
    hide Words, PathOk;
    used := Min(4 - |fingerprint0|, |b|);
    fingerprint, path, word := fingerprint0 + b[..used], path0, word0;
    NoWords();
    ghost var u := used;
    var k := 0;
    if |fingerprint| == 4 {
      k, path, word := FillPath(path0, word0, count, b[used..]);
      used := used + k;
    } else {
      assert Words(path) + word == Words(path0) + word0 + b[u..][..0];
    }
    FillJoin(fingerprint0, Words(path0), word0, Words(path), word, b, u, k);
  }

  lemma FillJoin(fingerprint: bytes, words0: bytes, word0: bytes, words: bytes, word: bytes, b: bytes, u: nat, k: nat)
    requires u + k <= |b| && (u > 0 ==> words0 == [] && word0 == [])
    requires words + word == words0 + word0 + b[u..][..k]
    ensures fingerprint + b[..u] + words + word == fingerprint + words0 + word0 + b[..u + k]
  {
    Concat(fingerprint + b[..u], words, word);
    Concat(fingerprint, words0, word0);
    Cut(b, u, u + k);
    if u > 0 {
      assert words + word == b[u..u + k];
      Concat(fingerprint, b[..u], b[u..u + k]);
    } else {
      assert b[..u + k] == b[u..][..k];
      Concat(fingerprint, words0 + word0, b[..k]);
    }
  }

  lemma NoWords()
    ensures Words([]) == []
  {
  }

  lemma MoreWord(words: bytes, word: bytes, base: bytes, b: bytes, used: nat, k: nat)
    requires used + k <= |b| && words + word == base + b[..used]
    ensures words + (word + b[used..used + k]) == base + b[..used + k]
  {
    Concat(words, word, b[used..used + k]);
    Concat(base, b[..used], b[used..used + k]);
    Cut(b, used, used + k);
  }

  lemma {:induction false} WordsAppend(path: seq<nat>, n: nat)
    ensures Words(path + [n]) == Words(path) + LE(n, 4)
  {
    if path == [] {
      assert ([] + [n])[1..] == [];
    } else {
      WordsAppend(path[1..], n);
      assert (path + [n])[1..] == path[1..] + [n];
      Concat(LE(path[0], 4), Words(path[1..]), LE(n, 4));
    }
  }

  /** Four bytes and the step they make are the same bytes. */
  lemma StepPushed(path: seq<nat>, word: bytes)
    requires |word| == 4 && PathOk(path)
    ensures Words(path + [FromLE(word)]) + [] == Words(path) + word
    ensures PathOk(path + [FromLE(word)])
  {
    Pow256Values();
    LEOfFromLE(word);
    WordsAppend(path, FromLE(word));
  }

  /**
   * `ValueDecoder<T>`: the length prefix, then a decoder that finds its own end. The inner decoder
   * belongs to another crate: all that is known is that it takes bytes until it has its verdict.
   */
  datatype SizedState = SizedPrefix(fed: bytes) | SizedValue(declared: nat) | SizedErrored

  class ValueDecoder {
    const codec: Codec
    var state: SizedState
    var inner: bytes
    var consumed: nat
    ghost var prefix: bytes
    ghost var seen: bytes

    ghost predicate Valid()
      reads this
    {
      && FindsItsEnd(codec) && consumed == |inner|
      && match state
         case SizedPrefix(fed) => seen == fed && ParseSize(fed) == More && inner == []
         case SizedValue(n) =>
           && ParseSize(prefix) == Ready(n, |prefix|) && seen == prefix + inner
           && (InnerFormat(codec).parse(inner).Ready? ==> InnerFormat(codec).parse(inner).used == |inner|)
         case SizedErrored => false
    }

    ghost predicate Done()
      reads this
      requires FindsItsEnd(codec)
    {
      state.SizedValue? && InnerFormat(codec).parse(inner) != More
    }

    constructor (codec: Codec)
      requires FindsItsEnd(codec)
      ensures Valid() && !Done() && seen == [] && this.codec == codec
    {
      this.codec := codec;
      state, inner, consumed, prefix, seen := SizedPrefix([]), [], 0, [], [];
    }

    lemma Verdict()
      requires Valid()
      ensures !Done() ==> ParseValue(codec, seen) == More
      ensures Done() ==> match InnerFormat(codec).parse(inner)
                         case Ready(v, k) =>
                           if k == state.declared then ParseValue(codec, seen) == Ready(v, |seen|)
                           else ParseValue(codec, seen) == Fail(WrongLength(state.declared, k))
                         case Fail(e) => ParseValue(codec, seen) == Fail(e)
                         case More => true
    {
      hide ParseSize, ParseValue, InnerFormat;
      match state
      case SizedPrefix(fed) => PrefixFails(codec, fed);
      case SizedValue(n) => AfterPrefix(codec, prefix, inner);
    }

    method PushBytes(b: bytes) returns (used: nat, status: Status)
      requires Valid() && !Done()
      modifies this
      ensures used <= |b| && seen == old(seen) + b[..used]
      ensures status.NeedsMore? ==> used == |b| && Valid() && !Done() && ParseValue(codec, seen) == More
      ensures status.Finished? ==> Valid() && Done()
      ensures status.Failed? ==> ParseValue(codec, seen) == Fail(status.error)
    {
      hide ParseValue, InnerFormat, ParseSize;
      used := 0;
      if state.SizedPrefix? {
        var fed := state.fed;
        used := SizeTake(fed, b);
        SizeTaken(fed, b);
        fed := fed + b[..used];
        seen := fed;
        PrefixFails(codec, fed);
        match ParseSize(fed)
        case More =>
          state := SizedPrefix(fed);
          return used, NeedsMore;
        case Fail(e) =>
          state := SizedErrored;
          return used, Failed(e);
        case Ready(n, _) =>
          prefix := fed;
          state := SizedValue(n);
          assert seen == prefix + [];
          EmptyInner(codec);
      }
      var k: nat;
      k, status := PushInner(b[used..]);
      assert b[..used] + b[used..][..k] == b[..used + k];
      used := used + k;
    }

    /** The inner push: byte after byte, until the inner decoder has its verdict or the bytes run out. */
    method PushInner(b: bytes) returns (used: nat, status: Status)
      requires Valid() && state.SizedValue?
      modifies this
      ensures used <= |b| && seen == old(seen) + b[..used]
      ensures status.NeedsMore? ==> used == |b| && Valid() && !Done() && ParseValue(codec, seen) == More
      ensures status.Finished? ==> Valid() && Done()
      ensures status.Failed? ==> ParseValue(codec, seen) == Fail(status.error)
    {
      hide ParseValue, InnerFormat, ParseSize;
      used := 0;
      var fed := inner;
      while used < |b| && InnerFormat(codec).parse(fed) == More
        modifies {}
        invariant used <= |b| && fed == inner + b[..used]
        invariant InnerFormat(codec).parse(fed).Ready? ==> InnerFormat(codec).parse(fed).used == |fed|
      {
        InnerStep(codec, fed, b[used]);
        assert b[..used] + [b[used]] == b[..used + 1];
        fed, used := fed + [b[used]], used + 1;
      }
      Concat(prefix, inner, b[..used]);
      seen := seen + b[..used];
      inner := fed;
      consumed := consumed + used;
      Verdict();
      match InnerFormat(codec).parse(fed)
      case More => status := NeedsMore;
      case Fail(e) => status := Failed(e);
      case Ready(_, _) => status := Finished;
    }

    /** The declared length is compared with the bytes consumed only here. */
    method End() returns (r: Result<Value, Error>)
      requires Valid() && Done()
      ensures r.Ok? ==> ParseValue(codec, seen) == Ready(r.value, |seen|)
      ensures r.Err? ==> ParseValue(codec, seen) == Fail(r.error)
    {
      hide ParseValue, InnerFormat;
      Verdict();
      match InnerFormat(codec).parse(inner)
      case Ready(v, _) => r := if consumed == state.declared then Ok(v) else Err(WrongLength(state.declared, consumed));
      case Fail(e) => r := Err(e);
      case More => assert false; r := Err(EarlyEnd);
    }
  }

  /** A value read off a longer stream is read off as soon as its last byte is there. */
  lemma InnerStep(c: Codec, fed: bytes, x: byte)
    requires FindsItsEnd(c) && InnerFormat(c).parse(fed) == More
    ensures InnerFormat(c).parse(fed + [x]).Ready? ==> InnerFormat(c).parse(fed + [x]).used == |fed| + 1
  {
    hide InnerFormat;
    InnerCanonical(c);
    var f, b := InnerFormat(c), fed + [x];
    if f.parse(b).Ready? {
      var k := f.parse(b).used;
      assert Streams(f, b, []);
      if k <= |fed| {
        assert b[..k] == fed[..k] && fed == fed[..k] + fed[k..];
        assert Streams(f, fed[..k], fed[k..]);
        InnerReady(c, k, b);
      }
    }
  }

  lemma EmptyInner(c: Codec)
    requires FindsItsEnd(c)
    ensures InnerFormat(c).parse([]).Ready? ==> InnerFormat(c).parse([]).used == 0
  {
    hide InnerFormat;
    InnerCanonical(c);
    assert Streams(InnerFormat(c), [], []);
  }
}
