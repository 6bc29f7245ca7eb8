/** The push decoder of the unsigned transaction in a version-0 global map. */
module UnsignedTxDecoder {
  import opened Bytes
  import opened CompactSize
  import opened Bitcoin
  import opened Formats
  import opened Values
  import opened ValueDecoders

  /* ----- decoders of the consensus-encoding crate ----- */

  /** A canonical value is read wherever its bytes stand first. */
  lemma ReadAgain<V(!new)>(f: Format<V>, b: bytes, c: bytes)
    requires Canonical(f) && f.parse(b).Ready?
    ensures f.parse(b).used <= |b| && f.parse(b[..f.parse(b).used] + c).Ready?
  {
    assert Reads(f, b) && Writes(f, f.parse(b).value, c);
  }

  /** One more byte completes a value exactly at its end. */
  lemma CompletesAtEnd<V(!new)>(f: Format<V>, fed: bytes, x: byte)
    requires Canonical(f) && f.parse(fed) == More
    ensures f.parse(fed + [x]).Ready? ==> f.parse(fed + [x]).used == |fed| + 1
  {
    var b := fed + [x];
    if f.parse(b).Ready? {
      var k := f.parse(b).used;
      ReadAgain(f, b, []);
      var rest := if k <= |fed| then fed[k..] else [];
      assert k <= |fed| ==> b[..k] + rest == fed;
      ReadAgain(f, b, rest);
    }
  }

  /** A decoder of a canonical value takes bytes until it has its verdict. */
  method PushPart<V(!new)>(f: Format<V>, fed0: bytes, b: bytes) returns (used: nat, fed: bytes)
    requires Canonical(f) && f.parse(fed0) == More
    ensures used <= |b| && fed == fed0 + b[..used]
    ensures f.parse(fed) == More ==> used == |b|
    ensures f.parse(fed).Ready? ==> f.parse(fed).used == |fed|
  {
    used, fed := 0, fed0;
    while used < |b| && f.parse(fed) == More
      invariant used <= |b| && fed == fed0 + b[..used]
      invariant f.parse(fed).Ready? ==> f.parse(fed).used == |fed|
    {
      CompletesAtEnd(f, fed, b[used]);
      assert b[..used] + [b[used]] == b[..used + 1];
      fed, used := fed + [b[used]], used + 1;
    }
  }

  /* ----- what each stage leaves ----- */

  function RawIns(): Format<seq<RawTxIn>> { Vec(RawTxInFormat()) }
  function Outs(): Format<seq<TxOut>> { Vec(TxOutFormat()) }

  function AfterOutputs(v: nat, ins: seq<UnsignedIn>, outs: seq<TxOut>, b: bytes): Outcome<UnsignedTx> {
    match U32Format().parse(b)
    case More => More
    case Fail(e) => Fail(e)
    case Ready(lock, k) => Ready(UnsignedTx(v, ins, outs, lock), k)
  }

  function AfterInputs(v: nat, ins: seq<UnsignedIn>, b: bytes): Outcome<UnsignedTx> {
    match Outs().parse(b)
    case More => More
    case Fail(e) => Fail(e)
    case Ready(outs, k) => if k > |b| then More else Shift(AfterOutputs(v, ins, outs, b[k..]), k)
  }

  function AfterVersion(v: nat, b: bytes): Outcome<UnsignedTx> {
    match RawIns().parse(b)
    case More => More
    case Fail(e) => Fail(e)
    case Ready(raw, k) =>
      if !NoScripts(raw) then Fail(NonEmptyScriptSig)
      else if k > |b| then More else Shift(AfterInputs(v, Bare(raw), b[k..]), k)
  }

  function Staged(b: bytes): Outcome<UnsignedTx> {
    match U32Format().parse(b)
    case More => More
    case Fail(e) => Fail(e)
    case Ready(v, k) => if k > |b| then More else Shift(AfterVersion(v, b[k..]), k)
  }

  lemma PartsCanonical()
    ensures Canonical(U32Format()) && Canonical(RawIns()) && Canonical(Outs())
    ensures U32Format().parse([]) == More && RawIns().parse([]) == More && Outs().parse([]) == More
  {
    U32Canonical();
    RawTxInCanonical();
    VecCanonical(RawTxInFormat());
    TxOutCanonical();
    VecCanonical(TxOutFormat());
  }

  function HeadFormat(): Format<(nat, seq<UnsignedIn>)> { Pair(U32Format(), UnsignedInsFormat()) }
  function TailFormat(): Format<(seq<TxOut>, nat)> { Pair(Outs(), U32Format()) }

  lemma TailStaged(v: nat, ins: seq<UnsignedIn>, b: bytes)
    ensures AfterInputs(v, ins, b) == match TailFormat().parse(b)
            case More => More
            case Fail(e) => Fail(e)
            case Ready(t, k) => Ready(UnsignedTx(v, ins, t.0, t.1), k)
  {
    PartsCanonical();
    hide Outs, U32Format;
    assert Streams(Outs(), b, []);
  }

  lemma InsStaged(b: bytes)
    ensures UnsignedInsFormat().parse(b) == match RawIns().parse(b)
            case More => More
            case Fail(e) => Fail(e)
            case Ready(raw, k) => if NoScripts(raw) then Ready(Bare(raw), k) else Fail(NonEmptyScriptSig)
  {
    hide RawTxInFormat;
  }

  lemma HeadStaged(b: bytes)
    ensures HeadFormat().parse(b) == match U32Format().parse(b)
            case More => More
            case Fail(e) => Fail(e)
            case Ready(v, k) =>
              if k > |b| then More
              else match UnsignedInsFormat().parse(b[k..])
                case More => More
                case Fail(e) => Fail(e)
                case Ready(ins, m) => Ready((v, ins), k + m)
  {
    hide UnsignedInsFormat, U32Format;
  }

  lemma WholeStaged(b: bytes)
    ensures UnsignedTxFormat().parse(b) == match HeadFormat().parse(b)
            case More => More
            case Fail(e) => Fail(e)
            case Ready(h, k) =>
              if k > |b| then More
              else match TailFormat().parse(b[k..])
                case More => More
                case Fail(e) => Fail(e)
                case Ready(t, m) => Ready(UnsignedTx(h.0, h.1, t.0, t.1), k + m)
  {
    hide UnsignedInsFormat, U32Format, TxOutFormat;
  }

  /** The stages in turn are the format of the whole. */
  lemma StagesAreWhole(b: bytes)
    ensures Staged(b) == UnsignedTxFormat().parse(b)
  {
    PartsCanonical();
    hide UnsignedTxFormat, HeadFormat, TailFormat, UnsignedInsFormat, U32Format, RawIns, Outs, AfterInputs, NoScripts;
    WholeStaged(b);
    HeadStaged(b);
    assert Streams(U32Format(), b, []);
    if U32Format().parse(b).Ready? {
      var Ready(v, k) := U32Format().parse(b);
      var b1 := b[k..];
      InsStaged(b1);
      assert Streams(RawIns(), b1, []);
      if RawIns().parse(b1).Ready? {
        var Ready(raw, m) := RawIns().parse(b1);
        assert b1[m..] == b[k + m..];
        TailStaged(v, Bare(raw), b1[m..]);
      }
    }
  }

  /* ----- the decoder ----- */

  datatype TxState =
    | VersionState(fed: bytes)
    | InputsState(version: nat, fed: bytes)
    | OutputsState(version: nat, inputs: seq<UnsignedIn>, fed: bytes)
    | LockTimeState(version: nat, inputs: seq<UnsignedIn>, outputs: seq<TxOut>, fed: bytes)
    | TxDone(tx: UnsignedTx)
    | TxFailed

  function StateRank(s: TxState): nat {
    match s
    case VersionState(_) => 4
    case InputsState(_, _) => 3
    case OutputsState(_, _, _) => 2
    case LockTimeState(_, _, _, _) => 1
    case _ => 0
  }

  /** What is left to read after `base`, if any of it is. */
  ghost predicate InputsNext(base: bytes, v: nat) {
    forall x {:trigger AfterVersion(v, x)} :: Staged(base + x) == Shift(AfterVersion(v, x), |base|)
  }

  ghost predicate OutputsNext(base: bytes, v: nat, ins: seq<UnsignedIn>) {
    forall x {:trigger AfterInputs(v, ins, x)} :: Staged(base + x) == Shift(AfterInputs(v, ins, x), |base|)
  }

  ghost predicate LockTimeNext(base: bytes, v: nat, ins: seq<UnsignedIn>, outs: seq<TxOut>) {
    forall x {:trigger AfterOutputs(v, ins, outs, x)} ::
      Staged(base + x) == Shift(AfterOutputs(v, ins, outs, x), |base|)
  }

  lemma VersionRead(q: bytes, v: nat)
    requires U32Format().parse(q) == Ready(v, |q|)
    ensures InputsNext(q, v)
  {
    PartsCanonical();
    hide U32Format, AfterVersion;
    forall x: bytes ensures Staged(q + x) == Shift(AfterVersion(v, x), |q|) {
      assert Streams(U32Format(), q, x);
      assert (q + x)[|q|..] == x;
    }
  }

  lemma ShiftTwice<V>(o: Outcome<V>, j: nat, k: nat)
    ensures Shift(Shift(o, j), k) == Shift(o, k + j)
  {
  }

  lemma InputsRead(base: bytes, v: nat, q: bytes, raw: seq<RawTxIn>)
    requires InputsNext(base, v) && RawIns().parse(q) == Ready(raw, |q|) && NoScripts(raw)
    ensures OutputsNext(base + q, v, Bare(raw))
  {
    PartsCanonical();
    hide RawIns, AfterInputs, Staged, NoScripts, Bare, Shift;
    forall x: bytes ensures Staged(base + q + x) == Shift(AfterInputs(v, Bare(raw), x), |base + q|) {
      Concat(base, q, x);
      assert Streams(RawIns(), q, x);
      assert (q + x)[|q|..] == x;
      assert Staged(base + (q + x)) == Shift(AfterVersion(v, q + x), |base|);
      ShiftTwice(AfterInputs(v, Bare(raw), x), |q|, |base|);
    }
  }

  lemma OutputsRead(base: bytes, v: nat, ins: seq<UnsignedIn>, q: bytes, outs: seq<TxOut>)
    requires OutputsNext(base, v, ins) && Outs().parse(q) == Ready(outs, |q|)
    ensures LockTimeNext(base + q, v, ins, outs)
  {
    PartsCanonical();
    hide Outs, AfterOutputs, Staged, Shift;
    forall x: bytes ensures Staged(base + q + x) == Shift(AfterOutputs(v, ins, outs, x), |base + q|) {
      Concat(base, q, x);
      assert Streams(Outs(), q, x);
      assert (q + x)[|q|..] == x;
      assert Staged(base + (q + x)) == Shift(AfterInputs(v, ins, q + x), |base|);
      ShiftTwice(AfterOutputs(v, ins, outs, x), |q|, |base|);
    }
  }

  class UnsignedTxDecoder {
    var state: TxState
    ghost var base: bytes
    ghost var seen: bytes

    ghost predicate Valid()
      reads this
    {
      match state
      case VersionState(fed) => base == [] && seen == fed && U32Format().parse(fed) == More
      case InputsState(v, fed) => InputsNext(base, v) && seen == base + fed && RawIns().parse(fed) == More
      case OutputsState(v, ins, fed) => OutputsNext(base, v, ins) && seen == base + fed && Outs().parse(fed) == More
      case LockTimeState(v, ins, outs, fed) =>
        LockTimeNext(base, v, ins, outs) && seen == base + fed && U32Format().parse(fed) == More
      case TxDone(tx) => Staged(seen) == Ready(tx, |seen|)
      case TxFailed => false
    }

    constructor ()
      ensures Valid() && !state.TxDone? && seen == []
    {
      state, base, seen := VersionState([]), [], [];
      new;
      PartsCanonical();
    }

    /** Between pushes an unfinished decoder has seen an unfinished transaction. */
    lemma Verdict()
      requires Valid() && !state.TxDone?
      ensures Staged(seen) == More
    {
      hide U32Format, RawIns, Outs, Staged;
      match state {
        case VersionState(fed) => StagedPending(fed);
        case InputsState(v, fed) => assert Staged(base + fed) == Shift(AfterVersion(v, fed), |base|);
        case OutputsState(v, ins, fed) => assert Staged(base + fed) == Shift(AfterInputs(v, ins, fed), |base|);
        case LockTimeState(v, ins, outs, fed) =>
          assert Staged(base + fed) == Shift(AfterOutputs(v, ins, outs, fed), |base|);
      }
    }

    lemma StagedPending(fed: bytes)
      requires U32Format().parse(fed) == More
      ensures Staged(fed) == More
    {
    }

    method TurnVersion(b: bytes) returns (used: nat, status: Status)
      requires Valid() && state.VersionState?
      modifies this
      ensures used <= |b| && seen == old(seen) + b[..used]
      ensures status.NeedsMore? ==> used == |b| && Valid() && !state.TxDone?
      ensures status.Finished? ==> Valid() && StateRank(state) == 3
      ensures !status.Failed?
    {
      PartsCanonical();
      VersionNeverFails();
      hide U32Format, RawIns, Outs, Staged, InputsNext;
      var fed;
      used, fed := PushPart(U32Format(), state.fed, b);
      seen := seen + b[..used];
      if U32Format().parse(fed) == More {
        state := VersionState(fed);
        return used, NeedsMore;
      }
      var v := U32Format().parse(fed).value;
      VersionRead(fed, v);
      base := fed;
      state := InputsState(v, []);
      assert base + [] == seen;
      status := Finished;
    }

    /** Scripts are looked at once all inputs are there. */
    method TurnInputs(b: bytes) returns (used: nat, status: Status)
      requires Valid() && state.InputsState?
      modifies this
      ensures used <= |b| && seen == old(seen) + b[..used]
      ensures status.NeedsMore? ==> used == |b| && Valid() && !state.TxDone?
      ensures status.Finished? ==> Valid() && StateRank(state) == 2
      ensures status.Failed? ==> Staged(seen) == Fail(status.error)
    {
      PartsCanonical();
      hide U32Format, RawIns, Outs, Staged, InputsNext, OutputsNext, NoScripts, Bare;
      var v, fed := state.version, state.fed;
      ghost var before := fed;
      used, fed := PushPart(RawIns(), fed, b);
      Concat(base, before, b[..used]);
      seen := seen + b[..used];
      InputsVerdict(base, v, fed);
      match RawIns().parse(fed)
      case More =>
        state := InputsState(v, fed);
        status := NeedsMore;
      case Fail(e) =>
        state := TxFailed;
        status := Failed(e);
      case Ready(raw, _) =>
        var clean := CheckScripts(raw);
        if !clean {
          state := TxFailed;
          return used, Failed(NonEmptyScriptSig);
        }
        InputsRead(base, v, fed, raw);
        base := base + fed;
        state := OutputsState(v, Bare(raw), []);
        assert base + [] == seen;
        status := Finished;
    }

    method TurnOutputs(b: bytes) returns (used: nat, status: Status)
      requires Valid() && state.OutputsState?
      modifies this
      ensures used <= |b| && seen == old(seen) + b[..used]
      ensures status.NeedsMore? ==> used == |b| && Valid() && !state.TxDone?
      ensures status.Finished? ==> Valid() && StateRank(state) == 1
      ensures status.Failed? ==> Staged(seen) == Fail(status.error)
    {
      PartsCanonical();
      hide U32Format, RawIns, Outs, Staged, OutputsNext, LockTimeNext;
      var v, ins, fed := state.version, state.inputs, state.fed;
      ghost var before := fed;
      used, fed := PushPart(Outs(), fed, b);
      Concat(base, before, b[..used]);
      seen := seen + b[..used];
      OutputsVerdict(base, v, ins, fed);
      match Outs().parse(fed)
      case More =>
        state := OutputsState(v, ins, fed);
        status := NeedsMore;
      case Fail(e) =>
        state := TxFailed;
        status := Failed(e);
      case Ready(outs, _) =>
        OutputsRead(base, v, ins, fed, outs);
        base := base + fed;
        state := LockTimeState(v, ins, outs, []);
        assert base + [] == seen;
        status := Finished;
    }

    method TurnLockTime(b: bytes) returns (used: nat, status: Status)
      requires Valid() && state.LockTimeState?
      modifies this
      ensures used <= |b| && seen == old(seen) + b[..used]
      ensures status.NeedsMore? ==> used == |b| && Valid() && !state.TxDone?
      ensures status.Finished? ==> Valid() && state.TxDone?
      ensures !status.Failed?
    {
      PartsCanonical();
      VersionNeverFails();
      hide U32Format, RawIns, Outs, Staged;
      var v, ins, outs, fed := state.version, state.inputs, state.outputs, state.fed;
      ghost var before := fed;
      used, fed := PushPart(U32Format(), fed, b);
      Concat(base, before, b[..used]);
      seen := seen + b[..used];
      assert Staged(base + fed) == Shift(AfterOutputs(v, ins, outs, fed), |base|);
      if U32Format().parse(fed) == More {
        state := LockTimeState(v, ins, outs, fed);
        return used, NeedsMore;
      }
      state := TxDone(UnsignedTx(v, ins, outs, U32Format().parse(fed).value));
      status := Finished;
    }

    method Turn(b: bytes) returns (used: nat, status: Status)
      requires Valid() && !state.TxDone?
      modifies this
      ensures used <= |b| && seen == old(seen) + b[..used]
      ensures status.NeedsMore? ==> used == |b| && Valid() && !state.TxDone?
      ensures status.Finished? ==> Valid() && StateRank(state) < old(StateRank(state))
      ensures status.Failed? ==> Staged(seen) == Fail(status.error)
    {
      hide Staged, U32Format, RawIns, Outs, InputsNext, OutputsNext, LockTimeNext;
      match state
      case VersionState(_) => used, status := TurnVersion(b);
      case InputsState(_, _) => used, status := TurnInputs(b);
      case OutputsState(_, _, _) => used, status := TurnOutputs(b);
      case LockTimeState(_, _, _, _) => used, status := TurnLockTime(b);
    }

    /** After any push the decoder reports what the format says of all the bytes fed so far. */
    method PushBytes(b: bytes) returns (used: nat, status: Status)
      requires Valid() && !state.TxDone?
      modifies this
      ensures used <= |b| && seen == old(seen) + b[..used]
      ensures status.NeedsMore? ==>
        used == |b| && Valid() && !state.TxDone? && UnsignedTxFormat().parse(seen) == More
      ensures status.Finished? ==> state.TxDone? && UnsignedTxFormat().parse(seen) == Ready(state.tx, |seen|)
      ensures status.Failed? ==> UnsignedTxFormat().parse(seen) == Fail(status.error)
    {
      hide Staged, UnsignedTxFormat, Valid;
      used, status := 0, Finished;
      assert b[..0] == [];
      while status.Finished? && !state.TxDone?
        invariant used <= |b| && seen == old(seen) + b[..used]
        invariant status.NeedsMore? ==> used == |b| && Valid() && !state.TxDone?
        invariant status.Finished? ==> Valid()
        invariant status.Failed? ==> Staged(seen) == Fail(status.error)
        decreases status.Finished?, StateRank(state)
      {
        var k;
        k, status := Turn(b[used..]);
        Concat(old(seen), b[..used], b[used..][..k]);
        assert b[..used] + b[used..][..k] == b[..used + k];
        used := used + k;
      }
      StagesAreWhole(seen);
      if status.NeedsMore? { Verdict(); }
      if status.Finished? { DoneVerdict(); }
    }

    lemma DoneVerdict()
      requires Valid() && state.TxDone?
      ensures Staged(seen) == Ready(state.tx, |seen|)
    {
    }
  }

  lemma VersionNeverFails()
    ensures forall b :: !U32Format().parse(b).Fail?
  {
  }

  method CheckScripts(raw: seq<RawTxIn>) returns (clean: bool)
    ensures clean <==> NoScripts(raw)
  {
    for n := 0 to |raw|
      invariant forall k | 0 <= k < n :: raw[k].script == []
    {
      if raw[n].script != [] { return false; }
    }
    clean := true;
  }

  lemma InputsVerdict(base: bytes, v: nat, q: bytes)
    requires InputsNext(base, v)
    ensures RawIns().parse(q) == More ==> Staged(base + q) == More
    ensures RawIns().parse(q).Fail? ==> Staged(base + q) == Fail(RawIns().parse(q).error)
    ensures RawIns().parse(q).Ready? && !NoScripts(RawIns().parse(q).value) ==>
      Staged(base + q) == Fail(NonEmptyScriptSig)
  {
    hide RawIns, Staged, AfterInputs;
    assert Staged(base + q) == Shift(AfterVersion(v, q), |base|);
  }

  lemma OutputsVerdict(base: bytes, v: nat, ins: seq<UnsignedIn>, q: bytes)
    requires OutputsNext(base, v, ins)
    ensures Outs().parse(q) == More ==> Staged(base + q) == More
    ensures Outs().parse(q).Fail? ==> Staged(base + q) == Fail(Outs().parse(q).error)
  {
    hide Outs, Staged, AfterOutputs;
    assert Staged(base + q) == Shift(AfterInputs(v, ins, q), |base|);
  }
}
