/** Well-formed PSBTs on which combining is not what its documentation and its fuzz target claim. */
module CombinerLimits {
  import opened Bytes
  import opened CompactSize
  import opened Bitcoin
  import opened KeyOrigins
  import opened Values
  import opened ValueCodecs
  import opened Tables
  import opened Maps
  import opened MapEncoding
  import opened LockTime
  import opened Psbt
  import opened Combiner
  import opened Promotion
  import opened V0
  import G = Global
  import I = Input
  import O = Output

  /* ----- the smallest well-formed PSBTs ----- */

  function NoGlobalFields(): G.GlobalFields { G.GlobalFields(map[], map[], map[], map[], map[]) }

  function NoFields(): I.InputFields {
    I.InputFields(None, None, map[], None, None, None, map[], None, None, map[], map[], map[], map[], None, map[], map[],
                  map[], None, None, map[], map[], map[], map[])
  }

  function ShellWith(ins: seq<UnsignedIn>, fallback: nat, f: G.GlobalFields): G.Global {
    IntoGlobal(GlobalInfo(UnsignedTx(2, ins, [], fallback), f))
  }

  function Shell(ins: seq<UnsignedIn>, fallback: nat): G.Global { ShellWith(ins, fallback, NoGlobalFields()) }

  function SomeIn(): UnsignedIn { UnsignedIn(LE(0, 32), 0, 0) }

  function Spending(f: I.InputFields): I.Input { I.Input(LE(0, 32), 0, None, None, None, f) }

  function Requiring(minTime: Option<nat>, minHeight: Option<nat>): I.Input {
    I.Input(LE(0, 32), 0, None, minTime, minHeight, NoFields())
  }

  lemma ShellWithOk(ins: seq<UnsignedIn>, fallback: nat, f: G.GlobalFields)
    requires UnsignedInsOk(ins) && fallback < U32 && GlobalFieldsOk(f) && G.UnknownsOk(f, false)
    ensures G.GlobalOk(ShellWith(ins, fallback, f))
    ensures ShellWith(ins, fallback, f).inputCount == |ins| && ShellWith(ins, fallback, f).outputCount == 0
  {
    hide G.GlobalOk, GlobalFieldsOk, G.UnknownsOk;
    GlobalPromoted(GlobalInfo(UnsignedTx(2, ins, [], fallback), f));
  }

  lemma ShellOk(ins: seq<UnsignedIn>, fallback: nat)
    requires UnsignedInsOk(ins) && fallback < U32
    ensures G.GlobalOk(Shell(ins, fallback))
    ensures Shell(ins, fallback).inputCount == |ins| && Shell(ins, fallback).outputCount == 0
  {
    var f := NoGlobalFields();
    forall k: Key | k.keyType != UNSIGNED_TX ensures k !in G.GlobalRecordV0(NO_TX, f) { OnlyTheTx(k); }
    assert GlobalFieldsOk(f) by { hide EntryOk, G.GlobalRecordV0; }
    hide G.GlobalOk, GlobalFieldsOk;
    ShellWithOk(ins, fallback, f);
  }

  lemma OnlyTheTx(k: Key)
    requires k.keyType != UNSIGNED_TX
    ensures k !in G.GlobalRecordV0(NO_TX, NoGlobalFields())
  {
    hide G.GlobalRecordV0;
    G.GlobalRecordV0Slots(NO_TX, NoGlobalFields(), k);
  }

  /** What an input says of the output it spends is within every width. */
  predicate SpendOk(i: I.Input) {
    && |i.previousTxid| == 32 && i.spentOutputIndex < U32 && i.sequence.None?
    && (i.minTime.Some? ==> LOCK_TIME_THRESHOLD <= i.minTime.value < U32)
    && (i.minHeight.Some? ==> 0 < i.minHeight.value < LOCK_TIME_THRESHOLD)
  }

  lemma OutpointEntries(i: I.Input, k: Key)
    requires SpendOk(i) && PREVIOUS_TXID <= k.keyType <= SEQUENCE && I.InputSlot(i, k).Some?
    ensures EntryOk(InputV2, k, I.InputSlot(i, k).value)
  {
    hide EntryOk, I.FieldsSlot;
    assert k == Key(k.keyType, []);
    Pow256Values();
    TxidEntry(i.previousTxid);
    NumberEntry(InputV2, OUTPUT_INDEX, 4, 0, 0xFFFF_FFFF, i.spentOutputIndex);
  }

  lemma LockTimeEntries(i: I.Input, k: Key)
    requires SpendOk(i) && REQUIRED_TIME <= k.keyType <= REQUIRED_HEIGHT && I.InputSlot(i, k).Some?
    ensures EntryOk(InputV2, k, I.InputSlot(i, k).value)
  {
    hide EntryOk, I.FieldsSlot;
    assert k == Key(k.keyType, []);
    Pow256Values();
    if k.keyType == REQUIRED_TIME {
      NumberEntry(InputV2, REQUIRED_TIME, 4, LOCK_TIME_THRESHOLD, 0xFFFF_FFFF, i.minTime.value);
    } else {
      NumberEntry(InputV2, REQUIRED_HEIGHT, 4, 1, LOCK_TIME_THRESHOLD - 1, i.minHeight.value);
    }
  }

  /** Enough for an input to be well-formed. */
  lemma SpendingOk(i: I.Input)
    requires SpendOk(i) && I.UnknownsOk(i.fields, false) && i.fields.nonWitnessUtxo.None?
    requires i.fields.spEcdhShares == map[] && i.fields.spDleqProofs == map[]
    requires forall k: Key | I.FieldsSlot(i.fields, k).Some? :: EntryOk(InputV2, k, I.FieldsSlot(i.fields, k).value)
    ensures I.InputOk(i)
  {
    InputCompleteMeans(i);
    hide I.InputRecord, I.InputSlot, I.FieldsSlot, EntryOk, Complete, I.UnknownsOk, SpendOk;
    forall k | k in I.InputRecord(i) ensures EntryOk(InputV2, k, I.InputRecord(i)[k]) {
      I.InputRecordSlots(i, k);
      if PREVIOUS_TXID <= k.keyType <= SEQUENCE {
        OutpointEntries(i, k);
      } else if REQUIRED_TIME <= k.keyType <= REQUIRED_HEIGHT {
        LockTimeEntries(i, k);
      } else {
        OtherSlot(i, k);
      }
    }
  }

  lemma NothingInFields(k: Key)
    ensures I.FieldsSlot(NoFields(), k).None?
  {
  }

  lemma RequiringOk(minTime: Option<nat>, minHeight: Option<nat>)
    requires minTime.Some? ==> LOCK_TIME_THRESHOLD <= minTime.value < U32
    requires minHeight.Some? ==> 0 < minHeight.value < LOCK_TIME_THRESHOLD
    ensures I.InputOk(Requiring(minTime, minHeight))
  {
    var i := Requiring(minTime, minHeight);
    assert I.UnknownsOk(i.fields, false);
    hide I.InputOk, I.FieldsSlot, EntryOk, I.UnknownsOk;
    forall k: Key ensures I.FieldsSlot(i.fields, k).None? { NothingInFields(k); }
    SpendingOk(i);
  }

  /* ----- what fails ----- */

  predicate CombineDifferently(a: Psbt, b: Psbt) {
    Combined(a, b).Some? && Combined(b, a).Some? && Combined(a, b) != Combined(b, a)
  }

  /** Two well-formed PSBTs that combine both ways, with different results: the fallback is kept from the left. */
  lemma NotCommutative()
    ensures exists a, b :: PsbtOk(a) && PsbtOk(b) && SameShape(a, b) && CombineDifferently(a, b)
  {
    var a, b := Fallback(1), Fallback(2);
    FallbackOk(1);
    FallbackOk(2);
    FallbacksDiffer();
    hide *;
    assert PsbtOk(a) && PsbtOk(b) && SameShape(a, b) && CombineDifferently(a, b);
  }

  function Fallback(lock: nat): Psbt { Psbt(Shell([], lock), [], []) }

  lemma FallbackOk(lock: nat)
    requires lock < U32
    ensures PsbtOk(Fallback(lock))
  {
    ShellOk([], lock);
    hide G.GlobalOk, Shell, I.InputOk, O.OutputOk;
  }

  lemma FallbacksDiffer()
    ensures SameShape(Fallback(1), Fallback(2)) && CombineDifferently(Fallback(1), Fallback(2))
  {
    var a, b := Fallback(1), Fallback(2);
    assert Mergeable(a, b) && Mergeable(b, a);
    Unconstrained(Some(1), []);
    Unconstrained(Some(2), []);
    assert Merged(a, b).global.fallbackLockTime == Some(1) && Merged(b, a).global.fallbackLockTime == Some(2);
  }

  /** Well-formed PSBTs with lists of unequal length whose combination succeeds one way only. */
  lemma UnequalLengths()
    ensures exists a, b :: PsbtOk(a) && PsbtOk(b) && Combined(a, b).Some? && Combined(b, a).None?
  {
    ShortOk();
    LongOk();
    OneWayOnly();
    hide *;
    assert PsbtOk(Short()) && PsbtOk(Long()) && Combined(Short(), Long()).Some? && Combined(Long(), Short()).None?;
  }

  function NeedsTime(): I.Input { Requiring(Some(LOCK_TIME_THRESHOLD), None) }
  function NeedsHeight(): I.Input { Requiring(None, Some(1)) }

  function Short(): Psbt { Psbt(Shell([SomeIn()], 0), [NeedsTime()], []) }
  function Long(): Psbt { Psbt(Shell([SomeIn(), SomeIn()], 0), [NeedsTime(), NeedsHeight()], []) }

  lemma NeedsOk()
    ensures I.InputOk(NeedsTime()) && I.InputOk(NeedsHeight())
  {
    hide I.InputOk;
    RequiringOk(Some(LOCK_TIME_THRESHOLD), None);
    RequiringOk(None, Some(1));
  }

  lemma SomeInsOk()
    ensures UnsignedInsOk([SomeIn()]) && UnsignedInsOk([SomeIn(), SomeIn()])
  {
  }

  lemma ShortOk()
    ensures PsbtOk(Short())
  {
    hide PsbtOk, I.InputOk, Shell, NeedsTime, NeedsHeight, SomeIn, UnsignedInsOk;
    NeedsOk();
    SomeInsOk();
    ListedOk([SomeIn()], [NeedsTime()]);
  }

  lemma LongOk()
    ensures PsbtOk(Long())
  {
    hide PsbtOk, I.InputOk, Shell, NeedsTime, NeedsHeight, SomeIn, UnsignedInsOk;
    NeedsOk();
    SomeInsOk();
    ListedOk([SomeIn(), SomeIn()], [NeedsTime(), NeedsHeight()]);
  }

  lemma ListedOk(us: seq<UnsignedIn>, ins: seq<I.Input>)
    requires UnsignedInsOk(us) && |us| == |ins| && forall k | 0 <= k < |ins| :: I.InputOk(ins[k])
    ensures PsbtOk(Psbt(Shell(us, 0), ins, []))
  {
    ShellOk(us, 0);
    hide G.GlobalOk, I.InputOk, O.OutputOk, Shell;
  }

  lemma BothMerge()
    ensures Mergeable(Short(), Long()) && Mergeable(Long(), Short())
  {
    hide NoFields;
  }

  lemma OneWayOnly()
    ensures Combined(Short(), Long()).Some? && Combined(Long(), Short()).None?
  {
    var a, b, time, height := Short(), Long(), NeedsTime(), NeedsHeight();
    BothMerge();
    hide MergeInputFields, MergeGlobal, Mergeable, Shell, NoFields;
    var ab, ba := Merged(a, b), Merged(b, a);
    assert ab.inputs == [MergeInput(time, time)] && ba.inputs == [MergeInput(time, time), height];
    FailsIffNothingFits(ab.global.fallbackLockTime, ab.inputs);
    FailsIffNothingFits(ba.global.fallbackLockTime, ba.inputs);
    assert Fits(ab.inputs[0], Time) && LockTime.AllFit(ab.inputs, Time);
    assert !Fits(ba.inputs[0], Height) && !Fits(ba.inputs[1], Time);
  }

  predicate RightGroupingOnly(a: Psbt, b: Psbt, c: Psbt) {
    SameShape(a, b) && SameShape(b, c) && LeftGrouping(a, b, c).None? && RightGrouping(a, b, c).Some?
  }

  /** Three well-formed PSBTs of one shape that combine in one grouping only. */
  lemma GroupingMatters()
    ensures exists a, b, c :: PsbtOk(a) && PsbtOk(b) && PsbtOk(c) && RightGroupingOnly(a, b, c)
  {
    TwosOk();
    RightOnly();
    hide *;
    var a, b, c := First(), Second(), Third();
    assert PsbtOk(a) && PsbtOk(b) && PsbtOk(c) && RightGroupingOnly(a, b, c);
  }

  function NeedsNothing(): I.Input { Requiring(None, None) }

  function Two(i: I.Input, j: I.Input): Psbt { Psbt(Shell([SomeIn(), SomeIn()], 0), [i, j], []) }

  /** With the second one a time at one input meets a height at the other; with the third one, heights fit both. */
  function First(): Psbt { Two(NeedsTime(), NeedsNothing()) }
  function Second(): Psbt { Two(NeedsNothing(), NeedsHeight()) }
  function Third(): Psbt { Two(NeedsHeight(), NeedsNothing()) }

  lemma TwoOk(i: I.Input, j: I.Input)
    requires I.InputOk(i) && I.InputOk(j)
    ensures PsbtOk(Two(i, j))
  {
    hide PsbtOk, I.InputOk, Shell, SomeIn, UnsignedInsOk;
    SomeInsOk();
    ListedOk([SomeIn(), SomeIn()], [i, j]);
  }

  lemma NothingOk()
    ensures I.InputOk(NeedsNothing())
  {
    hide I.InputOk;
    RequiringOk(None, None);
  }

  lemma TwosOk()
    ensures PsbtOk(First()) && PsbtOk(Second()) && PsbtOk(Third())
  {
    hide PsbtOk, I.InputOk, Two, NeedsTime, NeedsHeight, NeedsNothing;
    NeedsOk();
    NothingOk();
    TwoOk(NeedsTime(), NeedsNothing());
    TwoOk(NeedsNothing(), NeedsHeight());
    TwoOk(NeedsHeight(), NeedsNothing());
  }

  lemma TwosMerge(i: I.Input, j: I.Input, k: I.Input, l: I.Input)
    requires InputsMatch(i, k) && InputsMatch(j, l)
    ensures Mergeable(Two(i, j), Two(k, l)) && SameShape(Two(i, j), Two(k, l))
    ensures Merged(Two(i, j), Two(k, l)).inputs == [MergeInput(i, k), MergeInput(j, l)]
    ensures Merged(Two(i, j), Two(k, l)).outputs == []
    ensures Merged(Two(i, j), Two(k, l)).global.fields.xpubs == map[]
  {
    hide NoFields, MergeInputFields;
  }

  lemma TwoMergesOn(p: Psbt, q: Psbt)
    requires |p.inputs| == 2 && |q.inputs| == 2 && InputsMatch(p.inputs[0], q.inputs[0])
    requires InputsMatch(p.inputs[1], q.inputs[1])
    requires p.global.version == q.global.version && p.global.txVersion == q.global.txVersion
    requires p.global.fields.xpubs == map[] && p.outputs == []
    ensures Mergeable(p, q)
  {
  }

  lemma Needs()
    ensures var time, height, nothing := NeedsTime(), NeedsHeight(), NeedsNothing();
      && InputsMatch(time, height) && InputsMatch(height, nothing) && InputsMatch(nothing, height) && InputsMatch(time, nothing)
      && !BothFit(time, nothing, Height) && !BothFit(nothing, height, Time)
      && BothFit(nothing, height, Height) && BothFit(height, nothing, Height)
      && BothFit(MergeInput(time, nothing), height, Height) && BothFit(MergeInput(nothing, height), nothing, Height)
  {
    hide NoFields, MergeInputFields;
  }

  lemma TwoResolve(p: Psbt, q: Psbt)
    requires |p.inputs| == 2 && |q.inputs| == 2
    ensures Resolves(p, q) <==>
      || (BothFit(p.inputs[0], q.inputs[0], Height) && BothFit(p.inputs[1], q.inputs[1], Height))
      || (BothFit(p.inputs[0], q.inputs[0], Time) && BothFit(p.inputs[1], q.inputs[1], Time))
  {
    hide BothFit;
  }

  lemma TwosMergeAll(a: Psbt, b: Psbt, c: Psbt)
    requires a == First() && b == Second() && c == Third()
    ensures Mergeable(a, b) && Mergeable(Merged(a, b), c) && SameShape(a, b) && SameShape(b, c)
    ensures Merged(a, b).inputs == [MergeInput(NeedsTime(), NeedsNothing()), MergeInput(NeedsNothing(), NeedsHeight())]
  {
    Needs();
    var ab := Merged(a, b);
    assert ab.global.version == c.global.version && ab.global.txVersion == c.global.txVersion by {
      hide Zip, MergeInput, MergeGlobalFields;
    }
    hide NeedsTime, NeedsHeight, NeedsNothing, BothFit, Shell, Mergeable;
    TwosMerge(NeedsTime(), NeedsNothing(), NeedsNothing(), NeedsHeight());
    TwosMerge(NeedsNothing(), NeedsHeight(), NeedsHeight(), NeedsNothing());
    TwoMergesOn(ab, c);
  }

  lemma RightOnly()
    ensures RightGroupingOnly(First(), Second(), Third())
  {
    var a, b, c := First(), Second(), Third();
    Needs();
    TwosMergeAll(a, b, c);
    assert a.inputs == [NeedsTime(), NeedsNothing()] && b.inputs == [NeedsNothing(), NeedsHeight()];
    assert c.inputs == [NeedsHeight(), NeedsNothing()];
    hide First, Second, Third, Merged, Mergeable, BothFit, NeedsTime, NeedsHeight, NeedsNothing, Resolves, LeftGrouping,
         RightGrouping, MergeInput, Suits, InputsMatch;
    TwoResolve(a, b);
    TwoResolve(b, c);
    TwoResolve(Merged(a, b), c);
    Associative(a, b, c);
  }

  /* ----- a shared xpub whose merge underflows ----- */

  function OriginAt(path: seq<nat>): KeySource { KeySource(LE(0, 4), path) }

  function XpubFields(x: bytes, path: seq<nat>): G.GlobalFields {
    G.GlobalFields(map[x := OriginAt(path)], map[], map[], map[], map[])
  }

  function WithXpub(x: bytes, path: seq<nat>): Psbt { Psbt(ShellWith([], 0, XpubFields(x, path)), [], []) }

  lemma XpubEntry(x: bytes, path: seq<nat>)
    requires CRYPTO.xpub(x) && KeyFits(Key(XPUB, x)) && PathOk(path) && |path| <= 2
    ensures EntryOk(GlobalV0, Key(XPUB, x), Source(OriginAt(path)))
  {
    XpubRule(x);
    OriginFits(path);
    hide RuleOf, ValueOk, KeyFits;
  }

  lemma XpubRule(x: bytes)
    ensures RuleOf(GlobalV0, Key(XPUB, x)) == Accept(KeySourceCodec, XpubData)
  {
  }

  lemma OriginFits(path: seq<nat>)
    requires PathOk(path) && |path| <= 2
    ensures ValueOk(KeySourceCodec, Source(OriginAt(path)))
  {
    hide SourceBytes, Enc, KindOk, SourceOk, LE;
    OriginAtOk(path);
    SourceRoundTrip(OriginAt(path), []);
    SourceValue(OriginAt(path));
  }

  lemma OriginAtOk(path: seq<nat>)
    requires PathOk(path)
    ensures SourceOk(OriginAt(path))
  {
  }

  lemma SourceValue(s: KeySource)
    ensures KindOk(KeySourceCodec, Source(s)) == SourceOk(s) && Enc(KeySourceCodec, Source(s)) == SourceBytes(s)
  {
    hide SourceOk, SourceBytes;
  }

  lemma XpubOf(x: bytes, path: seq<nat>)
    ensures x in WithXpub(x, path).global.fields.xpubs && WithXpub(x, path).global.fields.xpubs[x] == OriginAt(path)
  {
    hide OriginAt;
  }

  lemma OnlyTheXpub(x: bytes, path: seq<nat>, k: Key)
    requires k.keyType != UNSIGNED_TX && k in G.GlobalRecordV0(NO_TX, XpubFields(x, path))
    ensures k == Key(XPUB, x) && G.GlobalRecordV0(NO_TX, XpubFields(x, path))[k] == Source(OriginAt(path))
  {
    hide G.GlobalRecordV0;
    G.GlobalRecordV0Slots(NO_TX, XpubFields(x, path), k);
    assert k == Key(k.keyType, k.data);
  }

  lemma WithXpubOk(x: bytes, path: seq<nat>)
    requires CRYPTO.xpub(x) && KeyFits(Key(XPUB, x)) && PathOk(path) && |path| <= 2
    ensures PsbtOk(WithXpub(x, path))
  {
    var f := XpubFields(x, path);
    XpubEntry(x, path);
    assert GlobalFieldsOk(f) by {
      hide EntryOk, G.GlobalRecordV0;
      forall k | k in G.GlobalRecordV0(NO_TX, f) && k.keyType != UNSIGNED_TX
        ensures EntryOk(GlobalV0, k, G.GlobalRecordV0(NO_TX, f)[k])
      {
        OnlyTheXpub(x, path, k);
      }
    }
    assert G.UnknownsOk(f, false);
    hide G.GlobalOk, GlobalFieldsOk, ShellWith, G.UnknownsOk;
    ShellWithOk([], 0, f);
  }

  lemma ShortAndLong(x: bytes)
    ensures MergeSource(OriginAt([1, 2]), OriginAt([1])) == Err(SliceUnderflow)
    ensures MergeSource(OriginAt([1]), OriginAt([1, 2])) == Err(InconsistentKeySources)
    ensures Combined(WithXpub(x, [1, 2]), WithXpub(x, [1])).None?
    ensures Combined(WithXpub(x, [1]), WithXpub(x, [1, 2])).None?
  {
    MergeIsLastLongest(OriginAt([1, 2]), OriginAt([1]));
    MergeIsLastLongest(OriginAt([1]), OriginAt([1, 2]));
    assert [1, 2][1..] == [2];
    NotComparable(XpubFields(x, [1, 2]).xpubs, XpubFields(x, [1]).xpubs, x);
    NotComparable(XpubFields(x, [1]).xpubs, XpubFields(x, [1, 2]).xpubs, x);
  }

  /**
   * Two well-formed PSBTs that name the same extended key, one with a shorter path that is no end of
   * the other. Combined in one order the merge panics, in the other it returns an error.
   */
  lemma SharedXpub(x: bytes)
    requires CRYPTO.xpub(x) && KeyFits(Key(XPUB, x))
    ensures PsbtOk(WithXpub(x, [1, 2])) && PsbtOk(WithXpub(x, [1]))
    ensures Combined(WithXpub(x, [1, 2]), WithXpub(x, [1])).None?
    ensures Combined(WithXpub(x, [1]), WithXpub(x, [1, 2])).None?
    ensures MergeSource(WithXpub(x, [1, 2]).global.fields.xpubs[x], WithXpub(x, [1]).global.fields.xpubs[x])
         == Err(SliceUnderflow)
    ensures MergeSource(WithXpub(x, [1]).global.fields.xpubs[x], WithXpub(x, [1, 2]).global.fields.xpubs[x])
         == Err(InconsistentKeySources)
  {
    assert PathOk([1, 2]) && PathOk([1]);
    hide *;
    XpubOf(x, [1, 2]);
    XpubOf(x, [1]);
    WithXpubOk(x, [1, 2]);
    WithXpubOk(x, [1]);
    ShortAndLong(x);
  }
}
