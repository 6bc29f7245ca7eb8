/** The tap key origin decoder: a machine that counts its declared length down to zero. */
module TapKeyOriginDecoder {
  import opened Bytes
  import opened CompactSize
  import opened Bitcoin
  import opened KeyOrigins
  import opened Values
  import opened ValueCodecs
  import opened ValueDecoders

  datatype Stage =
    | OriginPrefix(fed: bytes)
    | OriginValue(remaining: nat, inner: ValueStage)
    | OriginDone
    | OriginErrored

  datatype ValueStage =
    | Count(fed: bytes)
    | LeafHash(fed: bytes, count: nat)
    | Fingerprint(fed: bytes)
    | PathStep(fed: bytes)

  /** The part of an origin after the count, as far as it has been read. */
  function Rest(hashes: seq<bytes>, fingerprint: bytes, steps: seq<nat>, fed: bytes): bytes {
    Join(hashes) + fingerprint + Words(steps) + fed
  }

  lemma RestLength(hashes: seq<bytes>, fingerprint: bytes, steps: seq<nat>, fed: bytes)
    requires AllHashes(hashes)
    ensures |Rest(hashes, fingerprint, steps, fed)| == 32 * |hashes| + |fingerprint| + 4 * |steps| + |fed|
  {
    JoinChunks(hashes, []);
  }

  /** The decoder from the count on, for a declared length of `n`. */
  lemma AfterCount(n: nat, head: bytes, rest: bytes)
    requires ParseSize(head).Ready? && ParseSize(head).used == |head| <= n
    ensures ParseBody(TapKeyOriginCodec, n, head + rest)
         == match ParseTail(ParseSize(head).value, n - |head|, rest)
            case More => More
            case Fail(e) => Fail(e)
            case Ready(o, k) => Ready(Origin(o), |head| + k)
  {
    hide ParseSize, ParseTail;
    SizeSettled(head, rest);
    CountReady(n, head);
    CountSettled(n, head, rest);
    assert (head + rest)[|head|..] == rest;
  }

  lemma CountReady(n: nat, head: bytes)
    requires ParseSize(head).Ready? && ParseSize(head).used == |head| <= n
    ensures ParseCount(n, head) == ParseSize(head) && head != []
  {
  }

  lemma CountPending(n: nat, fed: bytes)
    requires |fed| <= 9
    ensures ParseSize(fed) == More && |fed| <= n ==> ParseCount(n, fed) == More
    ensures ParseSize(fed).Fail? && |fed| <= n ==> ParseCount(n, fed) == ParseSize(fed)
    ensures fed != [] && |fed| > n && |fed| <= 1 + Extra(fed[0]) ==> ParseCount(n, fed) == Fail(Underflow)
  {
  }

  lemma CountVerdict(n: nat, fed: bytes)
    ensures ParseCount(n, fed) == More ==> ParseBody(TapKeyOriginCodec, n, fed) == More
    ensures ParseCount(n, fed).Fail? ==> ParseBody(TapKeyOriginCodec, n, fed) == Fail(ParseCount(n, fed).error)
  {
    hide ParseCount;
  }

  /** Which of the bytes offered a compact-size decoder takes: never more than the integer has. */
  lemma SizeTakenWithin(fed: bytes, b: bytes)
    requires ParseSize(fed) == More
    ensures var f := fed + b[..SizeTake(fed, b)]; f != [] ==> |f| <= 1 + Extra(f[0])
    ensures b != [] ==> SizeTake(fed, b) >= 1
  {
  }

  class TapKeyOriginDecoder {
    var stage: Stage
    var leafHashes: seq<bytes>
    var fingerprint: bytes
    var pathSteps: seq<nat>
    ghost var prefix: bytes
    ghost var head: bytes
    ghost var seen: bytes

    ghost function Declared(): nat
      reads this
      requires ParseSize(prefix).Ready?
    {
      ParseSize(prefix).value
    }

    /** The count has been read, and this much of what follows it. */
    ghost predicate CountRead(remaining: nat, fed: bytes)
      reads this
    {
      && ParseSize(head).Ready? && ParseSize(head).used == |head|
      && AllHashes(leafHashes) && PathOk(pathSteps)
      && |leafHashes| <= ParseSize(head).value
      && seen == prefix + (head + Rest(leafHashes, fingerprint, pathSteps, fed))
      && ParseSize(prefix).Ready?
      && |head| + 32 * |leafHashes| + |fingerprint| + 4 * |pathSteps| + remaining == Declared()
    }

    ghost predicate Valid()
      reads this
    {
      match stage
      case OriginPrefix(fed) =>
        && seen == fed && ParseSize(fed) == More && leafHashes == [] && fingerprint == [] && pathSteps == []
      case OriginValue(remaining, inner) =>
        && ParseSize(prefix).Ready? && ParseSize(prefix).used == |prefix|
        && (match inner
           case Count(fed) =>
             && seen == prefix + fed && ParseSize(fed) == More && |fed| + remaining == Declared() && |fed| <= 9
             && leafHashes == [] && fingerprint == [] && pathSteps == []
           case LeafHash(fed, count) =>
             && CountRead(remaining, fed) && count == ParseSize(head).value && |leafHashes| < count && |fed| < 32
             && fingerprint == [] && pathSteps == []
           case Fingerprint(fed) =>
             && CountRead(remaining, fed) && |leafHashes| == ParseSize(head).value && |fed| < 4
             && fingerprint == [] && pathSteps == []
           case PathStep(fed) =>
             && CountRead(remaining, fed) && |leafHashes| == ParseSize(head).value && |fed| < 4
             && |fingerprint| == 4 && remaining > 0)
      case OriginDone =>
        && ParseSize(prefix).Ready? && ParseSize(prefix).used == |prefix|
        && CountRead(0, []) && |leafHashes| == ParseSize(head).value && |fingerprint| == 4
      case OriginErrored => false
    }

    ghost predicate Done()
      reads this
    {
      stage.OriginDone?
    }

    constructor ()
      ensures Valid() && !Done() && seen == []
    {
      stage, leafHashes, fingerprint, pathSteps := OriginPrefix([]), [], [], [];
      prefix, head, seen := [], [], [];
    }

    /** What the bytes seen so far amount to, in any state between two steps. */
    lemma Verdict()
      requires Valid()
      ensures !Done() ==> ParseValue(TapKeyOriginCodec, seen) == More
      ensures Done()
              ==> ParseValue(TapKeyOriginCodec, seen)
                  == Ready(Origin(TapKeyOrigin(leafHashes, KeySource(fingerprint, pathSteps))), |seen|)
    {
      hide ParseValue, ParseBody, ParseSize, ParseTail, Join, Words, TailNeed;
      match stage
      case OriginPrefix(fed) => PrefixFails(TapKeyOriginCodec, fed);
      case OriginValue(remaining, Count(fed)) =>
        AfterPrefix(TapKeyOriginCodec, prefix, fed);
        CountPending(Declared(), fed);
        CountVerdict(Declared(), fed);
      case OriginValue(remaining, LeafHash(fed, _)) => VerdictAfterCount(remaining, fed);
      case OriginValue(remaining, Fingerprint(fed)) => VerdictAfterCount(remaining, fed);
      case OriginValue(remaining, PathStep(fed)) => VerdictAfterCount(remaining, fed);
      case OriginDone => VerdictFinished();
    }

    lemma VerdictAfterCount(remaining: nat, fed: bytes)
      requires ParseSize(prefix).Ready? && ParseSize(prefix).used == |prefix| && CountRead(remaining, fed)
      ensures var count, rest := ParseSize(head).value, Rest(leafHashes, fingerprint, pathSteps, fed);
        && (|rest| < TailNeed(count, Declared() - |head|) ==> ParseValue(TapKeyOriginCodec, seen) == More)
        && (|rest| >= TailNeed(count, Declared() - |head|) && !TailFramed(count, Declared() - |head|)
            ==> ParseValue(TapKeyOriginCodec, seen) == Fail(Underflow))
      ensures |Rest(leafHashes, fingerprint, pathSteps, fed)|
           == 32 * |leafHashes| + |fingerprint| + 4 * |pathSteps| + |fed|
      ensures |leafHashes| < ParseSize(head).value && fingerprint == [] && pathSteps == [] && |fed| < 32
              ==> ParseValue(TapKeyOriginCodec, seen) == More
      ensures |leafHashes| == ParseSize(head).value && fingerprint == [] && pathSteps == [] && |fed| < 4
              ==> ParseValue(TapKeyOriginCodec, seen) == More
      ensures |leafHashes| == ParseSize(head).value && |fingerprint| == 4 && |fed| < 4 && remaining > 0
              ==> ParseValue(TapKeyOriginCodec, seen) == More
    {
      hide ParseValue, ParseBody, ParseSize, ParseTail, Rest;
      var n, rest := Declared(), Rest(leafHashes, fingerprint, pathSteps, fed);
      AfterPrefix(TapKeyOriginCodec, prefix, head + rest);
      AfterCount(n, head, rest);
      TailSettles(ParseSize(head).value, n - |head|, rest);
      RestLength(leafHashes, fingerprint, pathSteps, fed);
    }

    lemma VerdictFinished()
      requires Valid() && Done()
      ensures ParseValue(TapKeyOriginCodec, seen)
           == Ready(Origin(TapKeyOrigin(leafHashes, KeySource(fingerprint, pathSteps))), |seen|)
    {
      hide ParseValue, ParseBody, ParseSize, ParseTail, Join, Words;
      var o := TapKeyOrigin(leafHashes, KeySource(fingerprint, pathSteps));
      var rest := Rest(leafHashes, fingerprint, pathSteps, []);
      AfterPrefix(TapKeyOriginCodec, prefix, head + rest);
      AfterCount(Declared(), head, rest);
      RestLength(leafHashes, fingerprint, pathSteps, []);
      SizeCapped(head);
      TailWritten(o, []);
      Concat(Join(leafHashes), fingerprint, Words(pathSteps));
      assert rest == Join(leafHashes) + SourceBytes(o.source) + [];
    }

    lemma SizeCapped(b: bytes)
      ensures ParseSize(b).Ready? ==> ParseSize(b).value <= CAP
    {
    }

    /** One stage's turn: it takes what it can use, and moves on when it has all it needs. */
    method Step(b: bytes) returns (used: nat, failed: Option<Error>)
      requires Valid() && stage.OriginValue?
      modifies this
      ensures used <= |b| && seen == old(seen) + b[..used] && (b != [] ==> used >= 1)
      ensures failed.None? ==> Valid() && !stage.OriginPrefix?
      ensures failed.Some? ==> ParseValue(TapKeyOriginCodec, seen) == Fail(failed.value)
    {
      match stage.inner
      case Count(fed) => used, failed := StepCount(b);
      case LeafHash(fed, count) => used, failed := StepHash(b);
      case Fingerprint(fed) => used, failed := StepFingerprint(b);
      case PathStep(fed) => used, failed := StepPath(b);
    }

    method StepCount(b: bytes) returns (used: nat, failed: Option<Error>)
      requires Valid() && stage.OriginValue? && stage.inner.Count?
      modifies this
      ensures used <= |b| && seen == old(seen) + b[..used] && (b != [] ==> used >= 1)
      ensures failed.None? ==> Valid() && stage.OriginValue?
      ensures failed.Some? ==> ParseValue(TapKeyOriginCodec, seen) == Fail(failed.value)
    {
      hide ParseValue, ParseBody, ParseSize, ParseCount, Join, Words;
      var fed, before := stage.inner.fed, stage.remaining;
      used := SizeTake(fed, b);
      SizeTaken(fed, b);
      SizeTakenWithin(fed, b);
      Concat(prefix, fed, b[..used]);
      fed := fed + b[..used];
      seen := prefix + fed;
      AfterPrefix(TapKeyOriginCodec, prefix, fed);
      CountPending(Declared(), fed);
      CountVerdict(Declared(), fed);
      if used > before {
        stage := OriginErrored;
        return used, Some(Underflow);
      }
      match ParseSize(fed)
      case More =>
        stage := OriginValue(before - used, Count(fed));
        failed := None;
      case Fail(e) =>
        stage := OriginErrored;
        failed := Some(e);
      case Ready(count, _) =>
        head := fed;
        NoWords();
        assert Rest([], [], [], []) == [] by { NoRest(); }
        assert prefix + (head + []) == prefix + fed;
        stage := OriginValue(before - used, if count == 0 then Fingerprint([]) else LeafHash([], count));
        failed := None;
    }

    method StepHash(b: bytes) returns (used: nat, failed: Option<Error>)
      requires Valid() && stage.OriginValue? && stage.inner.LeafHash?
      modifies this
      ensures used <= |b| && seen == old(seen) + b[..used] && (b != [] ==> used >= 1)
      ensures failed.None? ==> Valid() && stage.OriginValue?
      ensures failed.Some? ==> ParseValue(TapKeyOriginCodec, seen) == Fail(failed.value)
    {
      hide ParseValue, ParseBody, ParseSize, Join, Words, Rest;
      var fed, count, before := stage.inner.fed, stage.inner.count, stage.remaining;
      used := Min(32 - |fed|, |b|);
      Feed(fed, b, used);
      fed := fed + b[..used];
      seen := seen + b[..used];
      if |fed| < 32 {
        stage := OriginValue(before, LeafHash(fed, count));
        return used, None;
      }
      if before < 32 {
        VerdictAfterCount(before, fed);
        stage := OriginErrored;
        return used, Some(Underflow);
      }
      HashPushed(leafHashes, fed);
      leafHashes := leafHashes + [fed];
      stage := OriginValue(before - 32, if |leafHashes| == count then Fingerprint([]) else LeafHash([], count));
      failed := None;
    }

    method StepFingerprint(b: bytes) returns (used: nat, failed: Option<Error>)
      requires Valid() && stage.OriginValue? && stage.inner.Fingerprint?
      modifies this
      ensures used <= |b| && seen == old(seen) + b[..used] && (b != [] ==> used >= 1)
      ensures failed.None? ==> Valid() && !stage.OriginPrefix?
      ensures failed.Some? ==> ParseValue(TapKeyOriginCodec, seen) == Fail(failed.value)
    {
      hide ParseValue, ParseBody, ParseSize, Join, Words, Rest;
      var fed, before := stage.inner.fed, stage.remaining;
      used := Min(4 - |fed|, |b|);
      Feed(fed, b, used);
      fed := fed + b[..used];
      seen := seen + b[..used];
      if |fed| < 4 {
        stage := OriginValue(before, Fingerprint(fed));
        return used, None;
      }
      if before < 4 {
        VerdictAfterCount(before, fed);
        stage := OriginErrored;
        return used, Some(Underflow);
      }
      FingerprintSet(leafHashes, fed);
      fingerprint := fed;
      stage := if before == 4 then OriginDone else OriginValue(before - 4, PathStep([]));
      failed := None;
    }

    method StepPath(b: bytes) returns (used: nat, failed: Option<Error>)
      requires Valid() && stage.OriginValue? && stage.inner.PathStep?
      modifies this
      ensures used <= |b| && seen == old(seen) + b[..used] && (b != [] ==> used >= 1)
      ensures failed.None? ==> Valid() && !stage.OriginPrefix?
      ensures failed.Some? ==> ParseValue(TapKeyOriginCodec, seen) == Fail(failed.value)
    {
      hide ParseValue, ParseBody, ParseSize, Join, Words, Rest, PathOk;
      var fed, before := stage.inner.fed, stage.remaining;
      used := Min(4 - |fed|, |b|);
      Feed(fed, b, used);
      fed := fed + b[..used];
      seen := seen + b[..used];
      if |fed| < 4 {
        stage := OriginValue(before, PathStep(fed));
        return used, None;
      }
      if before < 4 {
        VerdictAfterCount(before, fed);
        stage := OriginErrored;
        return used, Some(Underflow);
      }
      StepRest(leafHashes, fingerprint, pathSteps, fed);
      pathSteps := pathSteps + [FromLE(fed)];
      stage := if before == 4 then OriginDone else OriginValue(before - 4, PathStep([]));
      failed := None;
    }

    /** Bytes fed to the current array decoder are bytes seen. */
    lemma Feed(fed: bytes, b: bytes, used: nat)
      requires used <= |b| && seen == prefix + (head + Rest(leafHashes, fingerprint, pathSteps, fed))
      ensures seen + b[..used] == prefix + (head + Rest(leafHashes, fingerprint, pathSteps, fed + b[..used]))
    {
      Concat(Join(leafHashes) + fingerprint + Words(pathSteps), fed, b[..used]);
      Concat(head, Rest(leafHashes, fingerprint, pathSteps, fed), b[..used]);
      Concat(prefix, head + Rest(leafHashes, fingerprint, pathSteps, fed), b[..used]);
    }

    method PushBytes(b: bytes) returns (used: nat, status: Status)
      requires Valid() && !Done()
      modifies this
      ensures used <= |b| && seen == old(seen) + b[..used]
      ensures status.NeedsMore? ==> used == |b| && Valid() && !Done() && ParseValue(TapKeyOriginCodec, seen) == More
      ensures status.Finished? ==> Valid() && Done()
      ensures status.Failed? ==> ParseValue(TapKeyOriginCodec, seen) == Fail(status.error)
    {
      hide ParseValue, ParseBody, ParseSize, ParseTail, CountRead, Join, Words, Rest, PathOk, TailNeed;
      used := 0;
      if stage.OriginPrefix? {
        used, status := Prefix(b);
        if !status.Finished? { return; }
      }
      var k, failed := Step(b[used..]);
      Cut(b, used, used + k);
      used := used + k;
      while failed.None? && stage.OriginValue? && used < |b|
        invariant used <= |b| && seen == old(seen) + b[..used]
        invariant failed.None? ==> Valid() && !stage.OriginPrefix?
        invariant failed.Some? ==> ParseValue(TapKeyOriginCodec, seen) == Fail(failed.value)
        decreases |b| - used
      {
        k, failed := Step(b[used..]);
        Cut(b, used, used + k);
        used := used + k;
      }
      if failed.Some? { return used, Failed(failed.value); }
      Verdict();
      status := if stage.OriginDone? then Finished else NeedsMore;
    }

    /** The declared length; the countdown starts from it. */
    method Prefix(b: bytes) returns (used: nat, status: Status)
      requires Valid() && stage.OriginPrefix?
      modifies this
      ensures used <= |b| && seen == old(seen) + b[..used]
      ensures status.NeedsMore? ==> used == |b| && Valid() && !Done() && ParseValue(TapKeyOriginCodec, seen) == More
      ensures status.Finished? ==> Valid() && stage.OriginValue?
      ensures status.Failed? ==> ParseValue(TapKeyOriginCodec, seen) == Fail(status.error)
    {
      hide ParseValue, ParseBody, ParseSize, ParseTail, CountRead, Join, Words, Rest, PathOk, TailNeed;
      var fed := stage.fed;
      used := SizeTake(fed, b);
      SizeTaken(fed, b);
      fed := fed + b[..used];
      seen := fed;
      PrefixFails(TapKeyOriginCodec, fed);
      match ParseSize(fed)
      case More =>
        stage := OriginPrefix(fed);
        status := NeedsMore;
      case Fail(e) =>
        stage := OriginErrored;
        status := Failed(e);
      case Ready(n, _) =>
        prefix := fed;
        assert seen == prefix + [];
        NoSize();
        stage := OriginValue(n, Count([]));
        status := Finished;
    }

    lemma NoSize()
      ensures ParseSize([]) == More
    {
    }

    lemma NoRest()
      ensures Rest([], [], [], []) == []
    {
    }

    method End() returns (r: Result<Value, Error>)
      requires Valid() && Done()
      ensures r.Ok? ==> ParseValue(TapKeyOriginCodec, seen) == Ready(r.value, |seen|)
      ensures r.Err? ==> ParseValue(TapKeyOriginCodec, seen) == Fail(r.error)
    {
      hide ParseValue;
      Verdict();
      r := Ok(Origin(TapKeyOrigin(leafHashes, KeySource(fingerprint, pathSteps))));
    }
  }

  lemma HashPushed(hashes: seq<bytes>, fed: bytes)
    ensures Rest(hashes, [], [], fed) == Rest(hashes + [fed], [], [], [])
  {
    JoinAppend(hashes, [fed]);
    assert Join([fed]) == fed by { assert [fed][1..] == []; assert Join([]) == []; assert fed + [] == fed; }
  }

  lemma FingerprintSet(hashes: seq<bytes>, fed: bytes)
    ensures Rest(hashes, [], [], fed) == Rest(hashes, fed, [], [])
  {
  }

  lemma StepRest(hashes: seq<bytes>, fingerprint: bytes, steps: seq<nat>, fed: bytes)
    requires |fed| == 4 && PathOk(steps)
    ensures Rest(hashes, fingerprint, steps, fed) == Rest(hashes, fingerprint, steps + [FromLE(fed)], [])
    ensures PathOk(steps + [FromLE(fed)])
  {
    hide Words, Join;
    StepPushed(steps, fed);
    Concat(Join(hashes) + fingerprint, Words(steps), fed);
    Concat(Join(hashes) + fingerprint, Words(steps + [FromLE(fed)]), []);
  }
}
