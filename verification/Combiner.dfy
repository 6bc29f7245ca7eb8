/** The Combiner role (BIP-174) and its algebra. */
module Combiner {
  import opened Bytes
  import opened Bitcoin
  import opened LockTime
  import opened Psbt
  import opened Transactions
  import opened Tables
  import opened Values
  import opened Fields
  import G = Global
  import I = Input
  import O = Output

  datatype CombineError =
    | VersionMismatch | TxVersionMismatch | InconsistentKeySources | SliceUnderflow
    | PreviousTxidMismatch | SpentOutputIndexMismatch
    | AmountMismatch | ScriptPubkeyMismatch
    | LockTimeConflict

  /** `v2_combine_option!`: what is set stays. */
  function Left<T>(a: Option<T>, b: Option<T>): Option<T> { if a.Some? then a else b }

  /* ----- extended public keys ----- */

  predicate Suffix(s: seq<nat>, t: seq<nat>) { |s| <= |t| && s == t[|t| - |s|..] }

  /**
   * The merge of an incoming key source into an existing one. The branch that looks for the existing
   * path at the end of the incoming one subtracts the lengths before it compares: an incoming path
   * that is shorter without being a suffix makes that subtraction underflow.
   */
  function MergeSource(existing: KeySource, incoming: KeySource): Result<KeySource, CombineError> {
    if (incoming.path == existing.path && incoming.fingerprint == existing.fingerprint)
       || (|incoming.path| < |existing.path| && Suffix(incoming.path, existing.path)) then Ok(existing)
    else if |incoming.path| < |existing.path| then Err(SliceUnderflow)
    else if Suffix(existing.path, incoming.path) then Ok(incoming)
    else Err(InconsistentKeySources)
  }

  /** One path is the end of the other. */
  predicate Comparable(a: KeySource, b: KeySource) { Suffix(a.path, b.path) || Suffix(b.path, a.path) }

  /** The longer origin, and of two equally long ones the later. */
  function LastLongest(a: KeySource, b: KeySource): KeySource { if |a.path| > |b.path| then a else b }

  /**
   * Merging succeeds exactly on comparable paths, whatever the fingerprints, and keeps the last
   * longest origin. It panics exactly when a shorter path comes in that is no suffix.
   */
  lemma MergeIsLastLongest(a: KeySource, b: KeySource)
    ensures MergeSource(a, b).Ok? <==> Comparable(a, b)
    ensures Comparable(a, b) <==> exists head: seq<nat> :: b.path == head + a.path || a.path == head + b.path
    ensures Comparable(a, b) ==> MergeSource(a, b) == Ok(LastLongest(a, b))
    ensures MergeSource(a, b).Err? ==>
      MergeSource(a, b).error.InconsistentKeySources? || MergeSource(a, b).error.SliceUnderflow?
    ensures MergeSource(a, b) == Err(SliceUnderflow) <==> |b.path| < |a.path| && !Suffix(b.path, a.path)
  {
    SuffixMeans(a.path, b.path);
    SuffixMeans(b.path, a.path);
    if |a.path| == |b.path| {
      assert a.path[|a.path| - |b.path|..] == a.path && b.path[|b.path| - |a.path|..] == b.path;
    }
  }

  lemma SuffixMeans(s: seq<nat>, t: seq<nat>)
    ensures Suffix(s, t) <==> exists head: seq<nat> :: t == head + s
  {
    if Suffix(s, t) { assert t == t[..|t| - |s|] + s; }
    forall head: seq<nat> | t == head + s ensures Suffix(s, t) { assert t[|t| - |s|..] == s; }
  }

  lemma EndsOfLongest(a: KeySource, b: KeySource)
    requires Comparable(a, b)
    ensures Suffix(a.path, LastLongest(a, b).path) && Suffix(b.path, LastLongest(a, b).path)
  {
    SuffixSelf(a.path);
    SuffixSelf(b.path);
    SuffixSame(a.path, b.path);
    SuffixSame(b.path, a.path);
  }

  lemma LongestGroups(a: KeySource, b: KeySource, c: KeySource)
    ensures LastLongest(LastLongest(a, b), c) == LastLongest(a, LastLongest(b, c))
  {
  }

  /** Two ends of one path are comparable. */
  lemma EndsOfThree(a: KeySource, b: KeySource, c: KeySource, longest: seq<nat>)
    requires Suffix(a.path, longest) && Suffix(b.path, longest) && Suffix(c.path, longest)
    ensures Comparable(a, b) && Comparable(b, c) && Comparable(a, LastLongest(b, c)) && Comparable(LastLongest(a, b), c)
  {
    hide Suffix;
    EndsCompare(a.path, b.path, longest);
    EndsCompare(b.path, c.path, longest);
    EndsCompare(a.path, LastLongest(b, c).path, longest);
    EndsCompare(LastLongest(a, b).path, c.path, longest);
  }

  /** Success does not depend on the grouping: either way, all three are ends of the longest. */
  lemma ComparableGroups(a: KeySource, b: KeySource, c: KeySource)
    ensures Comparable(a, b) && Comparable(LastLongest(a, b), c) <==>
      Comparable(b, c) && Comparable(a, LastLongest(b, c))
    ensures LastLongest(LastLongest(a, b), c) == LastLongest(a, LastLongest(b, c))
  {
    hide Suffix, Comparable, LastLongest;
    LongestGroups(a, b, c);
    var longest := LastLongest(LastLongest(a, b), c).path;
    if Comparable(a, b) && Comparable(LastLongest(a, b), c) {
      EndsOfLongest(a, b);
      EndsOfLongest(LastLongest(a, b), c);
      SuffixOf(a.path, LastLongest(a, b).path, longest);
      SuffixOf(b.path, LastLongest(a, b).path, longest);
      EndsOfThree(a, b, c, longest);
    }
    if Comparable(b, c) && Comparable(a, LastLongest(b, c)) {
      EndsOfLongest(b, c);
      EndsOfLongest(a, LastLongest(b, c));
      SuffixOf(b.path, LastLongest(b, c).path, longest);
      SuffixOf(c.path, LastLongest(b, c).path, longest);
      EndsOfThree(a, b, c, longest);
    }
  }

  lemma SuffixSelf(s: seq<nat>)
    ensures Suffix(s, s)
  {
    assert s[0..] == s;
  }

  lemma SuffixSame(s: seq<nat>, t: seq<nat>)
    requires Suffix(s, t) || Suffix(t, s)
    ensures |s| <= |t| ==> Suffix(s, t)
  {
    if |s| == |t| { assert s[0..] == s && t[0..] == t; }
  }

  lemma SuffixOf(s: seq<nat>, t: seq<nat>, u: seq<nat>)
    requires Suffix(s, t) && Suffix(t, u)
    ensures Suffix(s, u)
  {
  }

  lemma EndsCompare(s: seq<nat>, t: seq<nat>, u: seq<nat>)
    requires Suffix(s, u) && Suffix(t, u)
    ensures Suffix(s, t) || Suffix(t, s)
  {
    if |s| <= |t| {
      assert t[|t| - |s|..] == u[|u| - |s|..];
    } else {
      assert s[|s| - |t|..] == u[|u| - |t|..];
    }
  }

  type Xpubs = map<bytes, KeySource>

  predicate XpubsComparable(a: Xpubs, b: Xpubs) {
    forall k | k in a && k in b :: Comparable(a[k], b[k])
  }

  function MergedXpub(a: Xpubs, b: Xpubs, k: bytes): KeySource
    requires k in a || k in b
  {
    if k in a && k in b then LastLongest(a[k], b[k]) else if k in a then a[k] else b[k]
  }

  function MergedXpubs(a: Xpubs, b: Xpubs): Xpubs {
    map k | k in a.Keys + b.Keys :: MergedXpub(a, b, k)
  }

  /** With only the xpubs in `todo` still to come. */
  ghost predicate Partly(a: Xpubs, b: Xpubs, todo: set<bytes>, merged: Xpubs) {
    && todo <= b.Keys && merged.Keys == a.Keys + (b.Keys - todo)
    && (forall k | k in merged :: merged[k] == if k in todo then a[k] else MergedXpub(a, b, k))
    && (forall k | k in a && k in b && k !in todo :: Comparable(a[k], b[k]))
  }

  lemma PartlyStep(a: Xpubs, b: Xpubs, todo: set<bytes>, merged: Xpubs, k: bytes)
    requires Partly(a, b, todo, merged) && k in todo && (k in a ==> Comparable(a[k], b[k]))
    ensures Partly(a, b, todo - {k}, merged[k := MergedXpub(a, b, k)])
  {
    hide Comparable, LastLongest;
  }

  /** The loop over the incoming xpubs, in whatever order they come. */
  method CombineXpubs(a: Xpubs, b: Xpubs) returns (r: Result<Xpubs, CombineError>)
    ensures r.Ok? <==> XpubsComparable(a, b)
    ensures r.Ok? ==> r.value == MergedXpubs(a, b)
    ensures r.Err? ==> XpubError(a, b, r.error)
    ensures r.Err? ==> r.error.InconsistentKeySources? || r.error.SliceUnderflow?
  {
    hide Comparable, MergeSource, LastLongest, Partly, XpubsComparable, MergedXpubs;
    var merged, todo := a, b.Keys;
    PartlyEnds(a, b, merged);
    while todo != {}
      invariant Partly(a, b, todo, merged)
      decreases |todo|
    {
      var k :| k in todo;
      PartlyAt(a, b, todo, merged, k);
      var incoming := b[k];
      if k in merged {
        MergeIsLastLongest(a[k], incoming);
        match MergeSource(merged[k], incoming) {
          case Err(e) =>
            NotComparable(a, b, k);
            return Err(e);
          case Ok(source) => incoming := source;
        }
      }
      PartlyStep(a, b, todo, merged, k);
      merged := merged[k := incoming];
      todo := todo - {k};
    }
    PartlyEnds(a, b, merged);
    r := Ok(merged);
  }

  lemma PartlyEnds(a: Xpubs, b: Xpubs, merged: Xpubs)
    ensures Partly(a, b, b.Keys, a)
    ensures Partly(a, b, {}, merged) ==> XpubsComparable(a, b) && merged == MergedXpubs(a, b)
  {
    hide Comparable, LastLongest;
  }

  lemma PartlyAt(a: Xpubs, b: Xpubs, todo: set<bytes>, merged: Xpubs, k: bytes)
    requires Partly(a, b, todo, merged) && k in todo
    ensures k in b && (k in merged <==> k in a) && (k in a ==> merged[k] == a[k])
    ensures MergedXpub(a, b, k) == if k in a then LastLongest(a[k], b[k]) else b[k]
  {
  }

  lemma NotComparable(a: Xpubs, b: Xpubs, k: bytes)
    requires k in a && k in b && !Comparable(a[k], b[k])
    ensures !XpubsComparable(a, b)
  {
  }

  lemma MergedXpubsAt(a: Xpubs, b: Xpubs, k: bytes)
    ensures k in MergedXpubs(a, b) <==> k in a || k in b
    ensures k in MergedXpubs(a, b) ==> MergedXpubs(a, b)[k] == MergedXpub(a, b, k)
  {
    hide LastLongest;
  }

  /** One key's share of `XpubsComparable`. */
  predicate ComparableAt(a: Xpubs, b: Xpubs, k: bytes) { k in a && k in b ==> Comparable(a[k], b[k]) }

  lemma XpubGroups(a: Xpubs, b: Xpubs, c: Xpubs, k: bytes)
    ensures ComparableAt(a, b, k) && ComparableAt(MergedXpubs(a, b), c, k)
       <==> ComparableAt(b, c, k) && ComparableAt(a, MergedXpubs(b, c), k)
    ensures k in a.Keys + b.Keys + c.Keys ==> MergedXpub(MergedXpubs(a, b), c, k) == MergedXpub(a, MergedXpubs(b, c), k)
  {
    hide Comparable, LastLongest, MergedXpubs;
    MergedXpubsAt(a, b, k);
    MergedXpubsAt(b, c, k);
    if k in a && k in b && k in c { ComparableGroups(a[k], b[k], c[k]); }
  }

  lemma ComparableByKey(a: Xpubs, b: Xpubs)
    ensures XpubsComparable(a, b) <==> forall k :: ComparableAt(a, b, k)
  {
    hide Comparable;
    if forall k :: ComparableAt(a, b, k) {
      forall k | k in a && k in b ensures Comparable(a[k], b[k]) { assert ComparableAt(a, b, k); }
    }
  }

  lemma XpubsGroup(a: Xpubs, b: Xpubs, c: Xpubs)
    ensures XpubsComparable(a, b) && XpubsComparable(MergedXpubs(a, b), c)
       <==> XpubsComparable(b, c) && XpubsComparable(a, MergedXpubs(b, c))
    ensures MergedXpubs(MergedXpubs(a, b), c) == MergedXpubs(a, MergedXpubs(b, c))
  {
    ComparableByKey(a, b);
    ComparableByKey(MergedXpubs(a, b), c);
    ComparableByKey(b, c);
    ComparableByKey(a, MergedXpubs(b, c));
    hide Comparable, MergedXpub, XpubsComparable, ComparableAt;
    forall k: bytes
      ensures ComparableAt(a, b, k) && ComparableAt(MergedXpubs(a, b), c, k)
         <==> ComparableAt(b, c, k) && ComparableAt(a, MergedXpubs(b, c), k)
      ensures k in a.Keys + b.Keys + c.Keys ==>
        MergedXpub(MergedXpubs(a, b), c, k) == MergedXpub(a, MergedXpubs(b, c), k)
    {
      XpubGroups(a, b, c, k);
    }
  }

  /* ----- the maps ----- */

  function MergeGlobalFields(a: G.GlobalFields, b: G.GlobalFields): G.GlobalFields {
    G.GlobalFields(MergedXpubs(a.xpubs, b.xpubs), a.spEcdhShares + b.spEcdhShares, a.spDleqProofs + b.spDleqProofs,
                   a.proprietaries + b.proprietaries, a.unknowns + b.unknowns)
  }

  /** Everything else of the global map stays as it is on the left. */
  function MergeGlobal(a: G.Global, b: G.Global): G.Global { a.(fields := MergeGlobalFields(a.fields, b.fields)) }

  predicate GlobalsMatch(a: G.Global, b: G.Global) {
    a.version == b.version && a.txVersion == b.txVersion && XpubsComparable(a.fields.xpubs, b.fields.xpubs)
  }

  /** What the global map can complain of. */
  predicate GlobalError(e: CombineError) {
    e.VersionMismatch? || e.TxVersionMismatch? || e.InconsistentKeySources? || e.SliceUnderflow?
  }

  /** Some shared xpub's sources fail to merge in this way. */
  predicate XpubError(a: Xpubs, b: Xpubs, e: CombineError) {
    exists k | k in a && k in b :: MergeSource(a[k], b[k]) == Err(e)
  }

  method CombineGlobal(a: G.Global, b: G.Global) returns (r: Result<G.Global, CombineError>)
    ensures r.Ok? <==> GlobalsMatch(a, b)
    ensures r.Ok? ==> r.value == MergeGlobal(a, b)
    ensures r == Err(VersionMismatch) <==> a.version != b.version
    ensures r == Err(TxVersionMismatch) <==> a.version == b.version && a.txVersion != b.txVersion
    ensures r.Err? && a.version == b.version && a.txVersion == b.txVersion ==>
      XpubError(a.fields.xpubs, b.fields.xpubs, r.error)
    ensures r.Err? ==> GlobalError(r.error)
  {
    if a.version != b.version { return Err(VersionMismatch); }
    if a.txVersion != b.txVersion { return Err(TxVersionMismatch); }
    var xpubs := CombineXpubs(a.fields.xpubs, b.fields.xpubs);
    match xpubs
    case Err(e) => r := Err(e);
    case Ok(merged) =>
      r := Ok(a.(fields := G.GlobalFields(merged, a.fields.spEcdhShares + b.fields.spEcdhShares,
                                          a.fields.spDleqProofs + b.fields.spDleqProofs,
                                          a.fields.proprietaries + b.fields.proprietaries,
                                          a.fields.unknowns + b.fields.unknowns)));
  }

  function MergeInputFields(a: I.InputFields, b: I.InputFields): I.InputFields {
    I.InputFields(
      Left(a.nonWitnessUtxo, b.nonWitnessUtxo), Left(a.witnessUtxo, b.witnessUtxo), a.partialSigs + b.partialSigs,
      Left(a.sighashType, b.sighashType), Left(a.redeemScript, b.redeemScript), Left(a.witnessScript, b.witnessScript),
      a.bip32Derivations + b.bip32Derivations, Left(a.finalScriptSig, b.finalScriptSig),
      Left(a.finalScriptWitness, b.finalScriptWitness), a.ripemd160Preimages + b.ripemd160Preimages,
      a.sha256Preimages + b.sha256Preimages, a.hash160Preimages + b.hash160Preimages,
      a.hash256Preimages + b.hash256Preimages, Left(a.tapKeySig, b.tapKeySig), a.tapScriptSigs + b.tapScriptSigs,
      a.tapScripts + b.tapScripts, a.tapKeyOrigins + b.tapKeyOrigins, Left(a.tapInternalKey, b.tapInternalKey),
      Left(a.tapMerkleRoot, b.tapMerkleRoot), a.spEcdhShares + b.spEcdhShares, a.spDleqProofs + b.spDleqProofs,
      a.proprietaries + b.proprietaries, a.unknowns + b.unknowns)
  }

  function MergeInput(a: I.Input, b: I.Input): I.Input {
    I.Input(a.previousTxid, a.spentOutputIndex, Left(a.sequence, b.sequence), Left(a.minTime, b.minTime),
            Left(a.minHeight, b.minHeight), MergeInputFields(a.fields, b.fields))
  }

  predicate InputsMatch(a: I.Input, b: I.Input) {
    a.previousTxid == b.previousTxid && a.spentOutputIndex == b.spentOutputIndex
  }

  function MergeOutputFields(a: O.OutputFields, b: O.OutputFields): O.OutputFields {
    O.OutputFields(
      Left(a.redeemScript, b.redeemScript), Left(a.witnessScript, b.witnessScript),
      a.bip32Derivations + b.bip32Derivations, Left(a.tapInternalKey, b.tapInternalKey), Left(a.tapTree, b.tapTree),
      a.tapKeyOrigins + b.tapKeyOrigins, Left(a.spV0Info, b.spV0Info), Left(a.spV0Label, b.spV0Label),
      a.proprietaries + b.proprietaries, a.unknowns + b.unknowns)
  }

  function MergeOutput(a: O.Output, b: O.Output): O.Output {
    O.Output(a.amount, a.scriptPubkey, MergeOutputFields(a.fields, b.fields))
  }

  predicate OutputsMatch(a: O.Output, b: O.Output) { a.amount == b.amount && a.scriptPubkey == b.scriptPubkey }

  /* ----- the whole ----- */

  /** `zip`: as far as both lists go; what the left has beyond that stays. */
  function Zip<T>(merge: (T, T) -> T, a: seq<T>, b: seq<T>): (c: seq<T>)
    ensures |c| == |a|
  {
    seq(|a|, i requires 0 <= i < |a| => if i < |b| then merge(a[i], b[i]) else a[i])
  }

  predicate ZipMatches<T>(matches: (T, T) -> bool, a: seq<T>, b: seq<T>) {
    forall i | 0 <= i < |a| && i < |b| :: matches(a[i], b[i])
  }

  function Merged(a: Psbt, b: Psbt): Psbt {
    Psbt(MergeGlobal(a.global, b.global), Zip(MergeInput, a.inputs, b.inputs), Zip(MergeOutput, a.outputs, b.outputs))
  }

  predicate Mergeable(a: Psbt, b: Psbt) {
    && GlobalsMatch(a.global, b.global)
    && ZipMatches(InputsMatch, a.inputs, b.inputs) && ZipMatches(OutputsMatch, a.outputs, b.outputs)
  }

  predicate Determinable(p: Psbt) { LockTimeOf(p).Ok? }

  /** What combining yields, and when it yields anything: a panic counts as failing. */
  function Combined(a: Psbt, b: Psbt): Option<Psbt> {
    if Mergeable(a, b) && Determinable(Merged(a, b)) then Some(Merged(a, b)) else None
  }

  /** The first pair that does not match. */
  predicate FirstAt<T>(matches: (T, T) -> bool, a: seq<T>, b: seq<T>, i: int) {
    0 <= i < |a| && i < |b| && !matches(a[i], b[i]) && forall j | 0 <= j < i :: matches(a[j], b[j])
  }

  function InputError(a: I.Input, b: I.Input): CombineError {
    if a.previousTxid != b.previousTxid then PreviousTxidMismatch else SpentOutputIndexMismatch
  }

  function OutputError(a: O.Output, b: O.Output): CombineError {
    if a.amount != b.amount then AmountMismatch else ScriptPubkeyMismatch
  }

  ghost predicate FirstInputFault(a: seq<I.Input>, b: seq<I.Input>, e: CombineError) {
    exists i :: FirstAt(InputsMatch, a, b, i) && e == InputError(a[i], b[i])
  }

  ghost predicate FirstOutputFault(a: seq<O.Output>, b: seq<O.Output>, e: CombineError) {
    exists i :: FirstAt(OutputsMatch, a, b, i) && e == OutputError(a[i], b[i])
  }

  method CombineInputs(a: seq<I.Input>, b: seq<I.Input>) returns (r: Result<seq<I.Input>, CombineError>)
    ensures r.Ok? <==> ZipMatches(InputsMatch, a, b)
    ensures r.Ok? ==> r.value == Zip(MergeInput, a, b)
    ensures r.Err? ==> FirstInputFault(a, b, r.error)
  {
    hide MergeInputFields;
    var inputs, i := a, 0;
    while i < |a| && i < |b|
      invariant 0 <= i <= |a| && i <= |b| && |inputs| == |a|
      invariant forall j | 0 <= j < |inputs| :: inputs[j] == if j < i then MergeInput(a[j], b[j]) else a[j]
      invariant forall j | 0 <= j < i :: InputsMatch(a[j], b[j])
    {
      if inputs[i].previousTxid != b[i].previousTxid {
        assert FirstAt(InputsMatch, a, b, i);
        return Err(PreviousTxidMismatch);
      }
      if inputs[i].spentOutputIndex != b[i].spentOutputIndex {
        assert FirstAt(InputsMatch, a, b, i);
        return Err(SpentOutputIndexMismatch);
      }
      inputs := inputs[i := MergeInput(inputs[i], b[i])];
      i := i + 1;
    }
    assert inputs == Zip(MergeInput, a, b);
    r := Ok(inputs);
  }

  method CombineOutputs(a: seq<O.Output>, b: seq<O.Output>) returns (r: Result<seq<O.Output>, CombineError>)
    ensures r.Ok? <==> ZipMatches(OutputsMatch, a, b)
    ensures r.Ok? ==> r.value == Zip(MergeOutput, a, b)
    ensures r.Err? ==> FirstOutputFault(a, b, r.error)
  {
    hide MergeOutputFields;
    var outputs, i := a, 0;
    while i < |a| && i < |b|
      invariant 0 <= i <= |a| && i <= |b| && |outputs| == |a|
      invariant forall j | 0 <= j < |outputs| :: outputs[j] == if j < i then MergeOutput(a[j], b[j]) else a[j]
      invariant forall j | 0 <= j < i :: OutputsMatch(a[j], b[j])
    {
      if outputs[i].amount != b[i].amount {
        assert FirstAt(OutputsMatch, a, b, i);
        return Err(AmountMismatch);
      }
      if outputs[i].scriptPubkey != b[i].scriptPubkey {
        assert FirstAt(OutputsMatch, a, b, i);
        return Err(ScriptPubkeyMismatch);
      }
      outputs := outputs[i := MergeOutput(outputs[i], b[i])];
      i := i + 1;
    }
    assert outputs == Zip(MergeOutput, a, b);
    r := Ok(outputs);
  }

  /**
   * `combine_with`: the global map, then the inputs and outputs in pairs, then the lock time check;
   * the first complaint is the one returned.
   */
  method CombineWith(a: Psbt, b: Psbt) returns (r: Result<Psbt, CombineError>)
    ensures r.Ok? <==> Combined(a, b).Some?
    ensures r.Ok? ==> r.value == Combined(a, b).value
    ensures r == Err(VersionMismatch) <==> a.global.version != b.global.version
    ensures r == Err(TxVersionMismatch) <==>
      a.global.version == b.global.version && a.global.txVersion != b.global.txVersion
    ensures r == Err(InconsistentKeySources) || r == Err(SliceUnderflow)
       ==> XpubError(a.global.fields.xpubs, b.global.fields.xpubs, r.error)
    ensures !GlobalsMatch(a.global, b.global) ==> r.Err? && GlobalError(r.error)
    ensures GlobalsMatch(a.global, b.global) && !ZipMatches(InputsMatch, a.inputs, b.inputs)
       ==> r.Err? && FirstInputFault(a.inputs, b.inputs, r.error)
    ensures GlobalsMatch(a.global, b.global) && ZipMatches(InputsMatch, a.inputs, b.inputs)
         && !ZipMatches(OutputsMatch, a.outputs, b.outputs)
       ==> r.Err? && FirstOutputFault(a.outputs, b.outputs, r.error)
    ensures r == Err(LockTimeConflict) <==> Mergeable(a, b) && !Determinable(Merged(a, b))
  {
    hide XpubsComparable, XpubError, ZipMatches, Zip, FirstAt, Determinable;
    var global := CombineGlobal(a.global, b.global);
    if global.Err? { return Err(global.error); }
    var inputs := CombineInputs(a.inputs, b.inputs);
    if inputs.Err? { return Err(inputs.error); }
    var outputs := CombineOutputs(a.outputs, b.outputs);
    if outputs.Err? { return Err(outputs.error); }
    var merged := Psbt(global.value, inputs.value, outputs.value);
    assert merged == Merged(a, b);
    if LockTimeOf(merged).Err? {
      assert !Determinable(merged) by { NotDeterminable(merged); }
      return Err(LockTimeConflict);
    }
    assert Determinable(merged) by { NotDeterminable(merged); }
    r := Ok(merged);
  }

  lemma NotDeterminable(p: Psbt)
    ensures Determinable(p) <==> LockTimeOf(p).Ok?
  {
  }

  /* ----- the algebra of the parts ----- */

  lemma MapsGroup<K, V>(a: map<K, V>, b: map<K, V>, c: map<K, V>)
    ensures a + b + c == a + (b + c)
  {
  }

  predicate AgreeOn<K, V(==)>(a: map<K, V>, b: map<K, V>) { forall k | k in a && k in b :: a[k] == b[k] }

  predicate AgreeOpt<T(==)>(a: Option<T>, b: Option<T>) { a.Some? && b.Some? ==> a == b }

  /** Extending commutes exactly on maps that agree where both have an entry. */
  lemma MapsCommute<K, V>(a: map<K, V>, b: map<K, V>)
    ensures a + b == b + a <==> AgreeOn(a, b)
    ensures a + a == a
  {
    if a + b == b + a {
      forall k | k in a && k in b ensures a[k] == b[k] { assert (a + b)[k] == (b + a)[k]; }
    }
  }

  lemma InputFieldsGroup(a: I.InputFields, b: I.InputFields, c: I.InputFields)
    ensures MergeInputFields(MergeInputFields(a, b), c) == MergeInputFields(a, MergeInputFields(b, c))
  {
    MapsGroup(a.partialSigs, b.partialSigs, c.partialSigs);
    MapsGroup(a.bip32Derivations, b.bip32Derivations, c.bip32Derivations);
    MapsGroup(a.ripemd160Preimages, b.ripemd160Preimages, c.ripemd160Preimages);
    MapsGroup(a.sha256Preimages, b.sha256Preimages, c.sha256Preimages);
    MapsGroup(a.hash160Preimages, b.hash160Preimages, c.hash160Preimages);
    MapsGroup(a.hash256Preimages, b.hash256Preimages, c.hash256Preimages);
    MapsGroup(a.tapScriptSigs, b.tapScriptSigs, c.tapScriptSigs);
    MapsGroup(a.tapScripts, b.tapScripts, c.tapScripts);
    MapsGroup(a.tapKeyOrigins, b.tapKeyOrigins, c.tapKeyOrigins);
    MapsGroup(a.spEcdhShares, b.spEcdhShares, c.spEcdhShares);
    MapsGroup(a.spDleqProofs, b.spDleqProofs, c.spDleqProofs);
    MapsGroup(a.proprietaries, b.proprietaries, c.proprietaries);
    MapsGroup(a.unknowns, b.unknowns, c.unknowns);
  }

  lemma OutputFieldsGroup(a: O.OutputFields, b: O.OutputFields, c: O.OutputFields)
    ensures MergeOutputFields(MergeOutputFields(a, b), c) == MergeOutputFields(a, MergeOutputFields(b, c))
  {
    MapsGroup(a.bip32Derivations, b.bip32Derivations, c.bip32Derivations);
    MapsGroup(a.tapKeyOrigins, b.tapKeyOrigins, c.tapKeyOrigins);
    MapsGroup(a.proprietaries, b.proprietaries, c.proprietaries);
    MapsGroup(a.unknowns, b.unknowns, c.unknowns);
  }

  lemma GlobalsGroup(a: G.Global, b: G.Global, c: G.Global)
    ensures GlobalsMatch(a, b) && GlobalsMatch(MergeGlobal(a, b), c) <==>
      GlobalsMatch(b, c) && GlobalsMatch(a, MergeGlobal(b, c))
    ensures MergeGlobal(MergeGlobal(a, b), c) == MergeGlobal(a, MergeGlobal(b, c))
  {
    hide XpubsComparable, MergedXpubs;
    XpubsGroup(a.fields.xpubs, b.fields.xpubs, c.fields.xpubs);
    MapsGroup(a.fields.spEcdhShares, b.fields.spEcdhShares, c.fields.spEcdhShares);
    MapsGroup(a.fields.spDleqProofs, b.fields.spDleqProofs, c.fields.spDleqProofs);
    MapsGroup(a.fields.proprietaries, b.fields.proprietaries, c.fields.proprietaries);
    MapsGroup(a.fields.unknowns, b.fields.unknowns, c.fields.unknowns);
  }

  predicate SameShape(a: Psbt, b: Psbt) { |a.inputs| == |b.inputs| && |a.outputs| == |b.outputs| }

  lemma ListsGroup<T>(merge: (T, T) -> T, a: seq<T>, b: seq<T>, c: seq<T>)
    requires |a| == |b| == |c|
    requires forall x, y, z :: merge(merge(x, y), z) == merge(x, merge(y, z))
    ensures Zip(merge, Zip(merge, a, b), c) == Zip(merge, a, Zip(merge, b, c))
  {
  }

  lemma ListsMatch<T>(merge: (T, T) -> T, matches: (T, T) -> bool, a: seq<T>, b: seq<T>, c: seq<T>)
    requires |a| == |b| == |c|
    requires forall x, y, z :: matches(x, y) && matches(merge(x, y), z) <==> matches(y, z) && matches(x, merge(y, z))
    ensures ZipMatches(matches, a, b) && ZipMatches(matches, Zip(merge, a, b), c)
       <==> ZipMatches(matches, b, c) && ZipMatches(matches, a, Zip(merge, b, c))
  {
    assert forall i | 0 <= i < |a| :: Zip(merge, a, b)[i] == merge(a[i], b[i]);
    assert forall i | 0 <= i < |a| :: Zip(merge, b, c)[i] == merge(b[i], c[i]);
  }

  /** For lists of equal length, three PSBTs merge alike whichever two are merged first, or neither way. */
  lemma MergedGroups(a: Psbt, b: Psbt, c: Psbt)
    requires SameShape(a, b) && SameShape(b, c)
    ensures Mergeable(a, b) && Mergeable(Merged(a, b), c) <==> Mergeable(b, c) && Mergeable(a, Merged(b, c))
    ensures Merged(Merged(a, b), c) == Merged(a, Merged(b, c))
  {
    hide GlobalsMatch, MergeGlobal, MergeInputFields, MergeOutputFields, ZipMatches, Zip;
    GlobalsGroup(a.global, b.global, c.global);
    forall x, y, z ensures MergeInput(MergeInput(x, y), z) == MergeInput(x, MergeInput(y, z)) {
      InputFieldsGroup(x.fields, y.fields, z.fields);
    }
    ListsGroup(MergeInput, a.inputs, b.inputs, c.inputs);
    ListsMatch(MergeInput, InputsMatch, a.inputs, b.inputs, c.inputs);
    forall x, y, z ensures MergeOutput(MergeOutput(x, y), z) == MergeOutput(x, MergeOutput(y, z)) {
      OutputFieldsGroup(x.fields, y.fields, z.fields);
    }
    ListsGroup(MergeOutput, a.outputs, b.outputs, c.outputs);
    ListsMatch(MergeOutput, OutputsMatch, a.outputs, b.outputs, c.outputs);
  }

  /* ----- when the lock time of a result can be resolved ----- */

  /** What two inputs say together leaves room for a kind of lock time: one names it, or neither names any. */
  predicate BothFit(x: I.Input, y: I.Input, kind: Kind) {
    Requirement(x, kind).Some? || Requirement(y, kind).Some? || (!HasLockTime(x) && !HasLockTime(y))
  }

  /** One kind suits every common input and every input the left list has beyond the right one. */
  predicate Suits(a: seq<I.Input>, b: seq<I.Input>, kind: Kind) {
    forall i | 0 <= i < |a| :: if i < |b| then BothFit(a[i], b[i], kind) else Fits(a[i], kind)
  }

  /** Readable off the two before combining: it only asks which requirements are set. */
  predicate Resolves(a: Psbt, b: Psbt) { Suits(a.inputs, b.inputs, Height) || Suits(a.inputs, b.inputs, Time) }

  lemma SuitsMerged(a: seq<I.Input>, b: seq<I.Input>, kind: Kind)
    ensures Suits(a, b, kind) <==> AllFit(Zip(MergeInput, a, b), kind)
  {
    hide MergeInputFields;
    var merged := Zip(MergeInput, a, b);
    forall i | 0 <= i < |a|
      ensures Fits(merged[i], kind) <==> if i < |b| then BothFit(a[i], b[i], kind) else Fits(a[i], kind)
    {
      if i < |b| { assert merged[i] == MergeInput(a[i], b[i]); }
    }
  }

  /** When combining succeeds, for PSBTs of any shape. */
  lemma CombinedIff(a: Psbt, b: Psbt)
    ensures Combined(a, b).Some? <==> Mergeable(a, b) && Resolves(a, b)
    ensures Determinable(Merged(a, b)) <==> Resolves(a, b)
  {
    hide Mergeable, MergeGlobal, Suits, LockTime.AllFit;
    FailsIffNothingFits(Merged(a, b).global.fallbackLockTime, Merged(a, b).inputs);
    SuitsMerged(a.inputs, b.inputs, Height);
    SuitsMerged(a.inputs, b.inputs, Time);
  }

  /** First the left two, then the third. */
  function LeftGrouping(a: Psbt, b: Psbt, c: Psbt): Option<Psbt> {
    if Combined(a, b).Some? then Combined(Combined(a, b).value, c) else None
  }

  /** First the right two, and their result into the first. */
  function RightGrouping(a: Psbt, b: Psbt, c: Psbt): Option<Psbt> {
    if Combined(b, c).Some? then Combined(a, Combined(b, c).value) else None
  }

  /** All three can be merged, and what they say together resolves to a lock time. */
  predicate AllResolve(a: Psbt, b: Psbt, c: Psbt) {
    Mergeable(a, b) && Mergeable(Merged(a, b), c) && Resolves(Merged(a, b), c)
  }

  /**
   * Associativity, exactly. A grouping succeeds if and only if all three together resolve and so do
   * the two it combines first; two groupings that succeed give the same PSBT. The groupings differ
   * only where all three resolve but of the two first pairs just one does:
   * `CombinerLimits.GroupingMatters` is an example.
   */
  lemma Associative(a: Psbt, b: Psbt, c: Psbt)
    requires SameShape(a, b) && SameShape(b, c)
    ensures LeftGrouping(a, b, c).Some? <==> AllResolve(a, b, c) && Resolves(a, b)
    ensures RightGrouping(a, b, c).Some? <==> AllResolve(a, b, c) && Resolves(b, c)
    ensures LeftGrouping(a, b, c).Some? && RightGrouping(a, b, c).Some? ==>
      LeftGrouping(a, b, c) == RightGrouping(a, b, c)
    ensures LeftGrouping(a, b, c) == RightGrouping(a, b, c) <==>
      (AllResolve(a, b, c) ==> (Resolves(a, b) <==> Resolves(b, c)))
  {
    MergedGroups(a, b, c);
    CombinedIff(a, b);
    CombinedIff(b, c);
    CombinedIff(Merged(a, b), c);
    CombinedIff(a, Merged(b, c));
    hide Mergeable, Merged, Determinable, Resolves;
  }

  /* ----- symmetry ----- */

  /** Whether a lock time can be resolved depends on which requirements are set, not on their values. */
  lemma DeterminableBySet(p: Psbt, q: Psbt)
    requires |p.inputs| == |q.inputs|
    requires forall i | 0 <= i < |p.inputs| ::
      p.inputs[i].minTime.Some? == q.inputs[i].minTime.Some? && p.inputs[i].minHeight.Some? == q.inputs[i].minHeight.Some?
    ensures Determinable(p) == Determinable(q)
  {
    FailsIffNothingFits(p.global.fallbackLockTime, p.inputs);
    FailsIffNothingFits(q.global.fallbackLockTime, q.inputs);
    forall i, k: Kind | 0 <= i < |p.inputs| ensures Fits(p.inputs[i], k) == Fits(q.inputs[i], k) { }
    assert forall k: Kind :: AllFit(p.inputs, k) == AllFit(q.inputs, k);
  }

  lemma MergeableSymmetric(a: Psbt, b: Psbt)
    ensures Mergeable(a, b) <==> Mergeable(b, a)
  {
    hide Comparable;
    forall x: KeySource, y: KeySource ensures Comparable(x, y) == Comparable(y, x) { ComparableSymmetric(x, y); }
  }

  /** For equal-shaped PSBTs, A with B succeeds if and only if B with A does. */
  lemma SuccessIsSymmetric(a: Psbt, b: Psbt)
    requires SameShape(a, b)
    ensures Combined(a, b).Some? <==> Combined(b, a).Some?
    ensures Resolves(a, b) <==> Resolves(b, a)
  {
    MergeableSymmetric(a, b);
    CombinedIff(a, b);
    CombinedIff(b, a);
    hide Mergeable, Combined;
  }

  /**
   * For PSBTs of any shape: whether A with B succeeds if and only if B with A does. It is so unless
   * they can be merged and the lock time resolves one way only, which takes an input without a
   * partner; then the longer list on the left is the order that fails.
   */
  lemma SymmetricIff(a: Psbt, b: Psbt)
    ensures (Combined(a, b).Some? <==> Combined(b, a).Some?) <==>
      (Mergeable(a, b) ==> (Resolves(a, b) <==> Resolves(b, a)))
    ensures |a.inputs| <= |b.inputs| && Combined(b, a).Some? ==> Combined(a, b).Some?
  {
    MergeableSymmetric(a, b);
    CombinedIff(a, b);
    CombinedIff(b, a);
    hide Mergeable, Combined;
  }

  lemma ComparableSymmetric(x: KeySource, y: KeySource)
    ensures Comparable(x, y) == Comparable(y, x)
  {
  }

  /** Options keep what the left one has, map entries take what the right one has. */
  function Kept(entry: bool, x: Option<Value>, y: Option<Value>): Option<Value> {
    if entry then Left(y, x) else Left(x, y)
  }

  /** The input key types that name entries of a map; all others name a field. */
  predicate InputEntryType(t: nat) { FieldEntryType(t) && !(PREVIOUS_TXID <= t <= REQUIRED_HEIGHT) }

  predicate FieldEntryType(t: nat) {
    || t == PARTIAL_SIG || t == BIP32_DERIVATION || RIPEMD160 <= t <= HASH256
    || TAP_SCRIPT_SIG <= t <= TAP_BIP32_DERIVATION || t == INPUT_SP_ECDH || t == INPUT_SP_DLEQ || t == PROPRIETARY
    || !I.Named(t, true)
  }

  /** A slot is filled exactly if one of two is, and as one of them is. */
  predicate United(m: Option<Value>, x: Option<Value>, y: Option<Value>) {
    (m.Some? <==> x.Some? || y.Some?) && (m == x || m == y)
  }

  lemma FirstKeysAreUnited(a: I.InputFields, b: I.InputFields, k: Key)
    requires k.keyType <= FINAL_SCRIPTWITNESS
    ensures I.FieldsSlot(MergeInputFields(a, b), k)
         == Kept(FieldEntryType(k.keyType), I.FieldsSlot(a, k), I.FieldsSlot(b, k))
  {
    hide Look;
    LookUnited(k.data, a.partialSigs, b.partialSigs, MakeEcdsa);
    LookUnited(k.data, a.bip32Derivations, b.bip32Derivations, MakeSource);
  }

  lemma TapKeysAreUnited(a: I.InputFields, b: I.InputFields, k: Key)
    requires TAP_KEY_SIG <= k.keyType <= TAP_MERKLE_ROOT
    ensures I.FieldsSlot(MergeInputFields(a, b), k)
         == Kept(FieldEntryType(k.keyType), I.FieldsSlot(a, k), I.FieldsSlot(b, k))
  {
    hide Look;
    LookUnited(k.data, a.tapScriptSigs, b.tapScriptSigs, MakeTaproot);
    LookUnited(k.data, a.tapScripts, b.tapScripts, MakeLeaf);
    LookUnited(k.data, a.tapKeyOrigins, b.tapKeyOrigins, MakeOrigin);
  }

  lemma LookUnited<T>(d: bytes, m: map<bytes, T>, n: map<bytes, T>, make: T -> Value)
    ensures Look(d, m + n, make) == Left(Look(d, n, make), Look(d, m, make))
  {
  }

  /** The maps of raw bytes, field by field. */
  predicate BlobFieldsUnited(m: I.InputFields, a: I.InputFields, b: I.InputFields) {
    && m.ripemd160Preimages == a.ripemd160Preimages + b.ripemd160Preimages
    && m.sha256Preimages == a.sha256Preimages + b.sha256Preimages
    && m.hash160Preimages == a.hash160Preimages + b.hash160Preimages
    && m.hash256Preimages == a.hash256Preimages + b.hash256Preimages
    && m.spEcdhShares == a.spEcdhShares + b.spEcdhShares && m.spDleqProofs == a.spDleqProofs + b.spDleqProofs
    && m.proprietaries == a.proprietaries + b.proprietaries
  }

  lemma BlobFieldsMerged(a: I.InputFields, b: I.InputFields)
    ensures BlobFieldsUnited(MergeInputFields(a, b), a, b)
  {
    hide Left;
  }

  lemma BlobMapsUnited(a: I.InputFields, b: I.InputFields, t: nat)
    requires I.BlobMapType(t)
    ensures I.BlobMap(MergeInputFields(a, b), t) == I.BlobMap(a, t) + I.BlobMap(b, t)
  {
    hide MergeInputFields, BlobFieldsUnited, I.BlobMap;
    BlobFieldsMerged(a, b);
    UnitedBlobMap(MergeInputFields(a, b), a, b, t);
  }

  lemma UnitedBlobMap(m: I.InputFields, a: I.InputFields, b: I.InputFields, t: nat)
    requires I.BlobMapType(t) && BlobFieldsUnited(m, a, b)
    ensures I.BlobMap(m, t) == I.BlobMap(a, t) + I.BlobMap(b, t)
  {
  }

  lemma BlobKeysAreUnited(a: I.InputFields, b: I.InputFields, k: Key)
    requires I.BlobMapType(k.keyType)
    ensures I.FieldsSlot(MergeInputFields(a, b), k)
         == Kept(FieldEntryType(k.keyType), I.FieldsSlot(a, k), I.FieldsSlot(b, k))
  {
    hide Look, I.FieldsSlot, I.BlobMap, MergeInputFields, Left;
    I.BlobMapSlots(MergeInputFields(a, b), k);
    I.BlobMapSlots(a, k);
    I.BlobMapSlots(b, k);
    BlobMapsUnited(a, b, k.keyType);
    LookUnited(k.data, I.BlobMap(a, k.keyType), I.BlobMap(b, k.keyType), MakeBlob);
  }

  lemma UnknownKeysAreUnited(a: I.InputFields, b: I.InputFields, k: Key)
    requires !I.Named(k.keyType, true)
    ensures I.FieldsSlot(MergeInputFields(a, b), k)
         == Kept(FieldEntryType(k.keyType), I.FieldsSlot(a, k), I.FieldsSlot(b, k))
  {
    assert MergeInputFields(a, b).unknowns == a.unknowns + b.unknowns;
    hide I.FieldsSlot, MergeInputFields;
    I.UnnamedSlot(MergeInputFields(a, b), k, true);
    I.UnnamedSlot(a, k, true);
    I.UnnamedSlot(b, k, true);
  }

  lemma FieldKeysAreUnited(a: I.InputFields, b: I.InputFields, k: Key)
    ensures I.FieldsSlot(MergeInputFields(a, b), k)
         == Kept(FieldEntryType(k.keyType), I.FieldsSlot(a, k), I.FieldsSlot(b, k))
  {
    hide I.FieldsSlot, MergeInputFields;
    if k.keyType <= FINAL_SCRIPTWITNESS {
      FirstKeysAreUnited(a, b, k);
    } else if TAP_KEY_SIG <= k.keyType <= TAP_MERKLE_ROOT {
      TapKeysAreUnited(a, b, k);
    } else if I.BlobMapType(k.keyType) {
      BlobKeysAreUnited(a, b, k);
    } else {
      UnknownKeysAreUnited(a, b, k);
    }
  }

  /**
   * The result writes a key of an input map exactly if one of the two does, the field of the left one
   * and the map entry of the right one winning: nothing present is lost, nothing is invented.
   */
  lemma KeysAreUnited(a: I.Input, b: I.Input, k: Key)
    requires InputsMatch(a, b)
    ensures I.InputSlot(MergeInput(a, b), k) == Kept(InputEntryType(k.keyType), I.InputSlot(a, k), I.InputSlot(b, k))
    ensures United(I.InputSlot(MergeInput(a, b), k), I.InputSlot(a, k), I.InputSlot(b, k))
  {
    hide I.FieldsSlot, MergeInputFields;
    FieldKeysAreUnited(a.fields, b.fields, k);
  }

  predicate OutputEntryType(t: nat) { OutputMapType(t) || !O.Named(t, true) }

  predicate OutputMapType(t: nat) { t == OUT_BIP32_DERIVATION || t == OUT_TAP_BIP32_DERIVATION || t == PROPRIETARY }

  lemma OutputSinglesAreUnited(a: O.OutputFields, b: O.OutputFields, k: Key)
    requires O.Named(k.keyType, true) && !OutputMapType(k.keyType)
    ensures O.FieldsSlot(MergeOutputFields(a, b), k, false)
         == Kept(OutputEntryType(k.keyType), O.FieldsSlot(a, k, false), O.FieldsSlot(b, k, false))
  {
    hide Look;
  }

  lemma OutputMapsAreUnited(a: O.OutputFields, b: O.OutputFields, k: Key)
    requires OutputMapType(k.keyType)
    ensures O.FieldsSlot(MergeOutputFields(a, b), k, false)
         == Kept(OutputEntryType(k.keyType), O.FieldsSlot(a, k, false), O.FieldsSlot(b, k, false))
  {
    hide Look;
    LookUnited(k.data, a.bip32Derivations, b.bip32Derivations, MakeSource);
    LookUnited(k.data, a.tapKeyOrigins, b.tapKeyOrigins, MakeOrigin);
    LookUnited(k.data, a.proprietaries, b.proprietaries, MakeBlob);
  }

  lemma OutputUnknownsAreUnited(a: O.OutputFields, b: O.OutputFields, k: Key)
    requires !O.Named(k.keyType, true)
    ensures O.FieldsSlot(MergeOutputFields(a, b), k, false)
         == Kept(OutputEntryType(k.keyType), O.FieldsSlot(a, k, false), O.FieldsSlot(b, k, false))
  {
    hide Look, Put;
    assert MergeOutputFields(a, b).unknowns == a.unknowns + b.unknowns;
  }

  lemma OutputKeysAreUnited(a: O.OutputFields, b: O.OutputFields, k: Key)
    ensures O.FieldsSlot(MergeOutputFields(a, b), k, false)
         == Kept(OutputEntryType(k.keyType), O.FieldsSlot(a, k, false), O.FieldsSlot(b, k, false))
  {
    hide O.FieldsSlot, MergeOutputFields, O.Named, OutputMapType;
    if OutputMapType(k.keyType) { OutputMapsAreUnited(a, b, k); }
    else if O.Named(k.keyType, true) { OutputSinglesAreUnited(a, b, k); }
    else { OutputUnknownsAreUnited(a, b, k); }
  }

  predicate GlobalEntryType(t: nat) { t != VERSION && !(TX_VERSION <= t <= TX_MODIFIABLE) }

  lemma GlobalKeysAreUnited(a: G.Global, b: G.Global, k: Key)
    requires k.keyType != FALLBACK_LOCKTIME
    ensures United(G.GlobalSlot(MergeGlobal(a, b), k), G.GlobalSlot(a, k), G.GlobalSlot(b, k))
    ensures k.keyType != XPUB ==>
      G.GlobalSlot(MergeGlobal(a, b), k) == Kept(GlobalEntryType(k.keyType), G.GlobalSlot(a, k), G.GlobalSlot(b, k))
  {
  }

  /* ----- commutativity and idempotence ----- */

  predicate AgreeSource(a: KeySource, b: KeySource) { |a.path| == |b.path| ==> a == b }

  predicate XpubsAgree(a: Xpubs, b: Xpubs) { forall k | k in a && k in b :: AgreeSource(a[k], b[k]) }

  /** Shared entries are equal; of the fields only kept from the left, both have the same. */
  predicate GlobalsAgree(a: G.Global, b: G.Global) {
    && a.fallbackLockTime == b.fallbackLockTime && a.txModifiableFlags == b.txModifiableFlags
    && a.inputCount == b.inputCount && a.outputCount == b.outputCount
    && XpubsAgree(a.fields.xpubs, b.fields.xpubs)
    && AgreeOn(a.fields.spEcdhShares, b.fields.spEcdhShares) && AgreeOn(a.fields.spDleqProofs, b.fields.spDleqProofs)
    && AgreeOn(a.fields.proprietaries, b.fields.proprietaries) && AgreeOn(a.fields.unknowns, b.fields.unknowns)
  }

  predicate InputFieldsAgree(a: I.InputFields, b: I.InputFields) {
    && AgreeOpt(a.nonWitnessUtxo, b.nonWitnessUtxo) && AgreeOpt(a.witnessUtxo, b.witnessUtxo)
    && AgreeOn(a.partialSigs, b.partialSigs) && AgreeOpt(a.sighashType, b.sighashType)
    && AgreeOpt(a.redeemScript, b.redeemScript) && AgreeOpt(a.witnessScript, b.witnessScript)
    && AgreeOn(a.bip32Derivations, b.bip32Derivations) && AgreeOpt(a.finalScriptSig, b.finalScriptSig)
    && AgreeOpt(a.finalScriptWitness, b.finalScriptWitness) && AgreeOn(a.ripemd160Preimages, b.ripemd160Preimages)
    && AgreeOn(a.sha256Preimages, b.sha256Preimages) && AgreeOn(a.hash160Preimages, b.hash160Preimages)
    && AgreeOn(a.hash256Preimages, b.hash256Preimages) && AgreeOpt(a.tapKeySig, b.tapKeySig)
    && AgreeOn(a.tapScriptSigs, b.tapScriptSigs) && AgreeOn(a.tapScripts, b.tapScripts)
    && AgreeOn(a.tapKeyOrigins, b.tapKeyOrigins) && AgreeOpt(a.tapInternalKey, b.tapInternalKey)
    && AgreeOpt(a.tapMerkleRoot, b.tapMerkleRoot) && AgreeOn(a.spEcdhShares, b.spEcdhShares)
    && AgreeOn(a.spDleqProofs, b.spDleqProofs) && AgreeOn(a.proprietaries, b.proprietaries)
    && AgreeOn(a.unknowns, b.unknowns)
  }

  predicate InputsAgree(a: I.Input, b: I.Input) {
    && AgreeOpt(a.sequence, b.sequence) && AgreeOpt(a.minTime, b.minTime) && AgreeOpt(a.minHeight, b.minHeight)
    && InputFieldsAgree(a.fields, b.fields)
  }

  predicate OutputsAgree(a: O.Output, b: O.Output) {
    && AgreeOpt(a.fields.redeemScript, b.fields.redeemScript) && AgreeOpt(a.fields.witnessScript, b.fields.witnessScript)
    && AgreeOn(a.fields.bip32Derivations, b.fields.bip32Derivations)
    && AgreeOpt(a.fields.tapInternalKey, b.fields.tapInternalKey) && AgreeOpt(a.fields.tapTree, b.fields.tapTree)
    && AgreeOn(a.fields.tapKeyOrigins, b.fields.tapKeyOrigins)
    && AgreeOpt(a.fields.spV0Info, b.fields.spV0Info) && AgreeOpt(a.fields.spV0Label, b.fields.spV0Label)
    && AgreeOn(a.fields.proprietaries, b.fields.proprietaries) && AgreeOn(a.fields.unknowns, b.fields.unknowns)
  }

  /** Nothing the two say in common is said differently. */
  predicate Agree(a: Psbt, b: Psbt) {
    && GlobalsAgree(a.global, b.global)
    && ZipMatches(InputsAgree, a.inputs, b.inputs) && ZipMatches(OutputsAgree, a.outputs, b.outputs)
  }

  lemma XpubsCommute(a: Xpubs, b: Xpubs)
    requires XpubsComparable(a, b)
    ensures MergedXpubs(a, b) == MergedXpubs(b, a) <==> XpubsAgree(a, b)
  {
    forall k | k in a && k in b
      ensures MergedXpubs(a, b)[k] == MergedXpubs(b, a)[k] <==> AgreeSource(a[k], b[k])
    {
    }
    if XpubsAgree(a, b) {
      forall k | k in a.Keys + b.Keys ensures MergedXpub(a, b, k) == MergedXpub(b, a, k) { }
    }
  }

  lemma XpubsIdem(a: Xpubs)
    ensures XpubsComparable(a, a) && MergedXpubs(a, a) == a
  {
    forall k | k in a ensures Comparable(a[k], a[k]) { SuffixSelf(a[k].path); }
  }

  lemma GlobalsCommute(a: G.Global, b: G.Global)
    requires GlobalsMatch(a, b)
    ensures MergeGlobal(a, b) == MergeGlobal(b, a) <==> GlobalsAgree(a, b)
  {
    hide XpubsComparable, MergedXpubs, XpubsAgree, AgreeOn;
    XpubsCommute(a.fields.xpubs, b.fields.xpubs);
    MapsCommute(a.fields.spEcdhShares, b.fields.spEcdhShares);
    MapsCommute(a.fields.spDleqProofs, b.fields.spDleqProofs);
    MapsCommute(a.fields.proprietaries, b.fields.proprietaries);
    MapsCommute(a.fields.unknowns, b.fields.unknowns);
  }

  lemma InputFieldsCommute(a: I.InputFields, b: I.InputFields)
    ensures MergeInputFields(a, b) == MergeInputFields(b, a) <==> InputFieldsAgree(a, b)
    ensures MergeInputFields(a, a) == a
  {
    hide AgreeOn;
    MapsCommute(a.partialSigs, b.partialSigs);
    MapsCommute(a.bip32Derivations, b.bip32Derivations);
    MapsCommute(a.ripemd160Preimages, b.ripemd160Preimages);
    MapsCommute(a.sha256Preimages, b.sha256Preimages);
    MapsCommute(a.hash160Preimages, b.hash160Preimages);
    MapsCommute(a.hash256Preimages, b.hash256Preimages);
    MapsCommute(a.tapScriptSigs, b.tapScriptSigs);
    MapsCommute(a.tapScripts, b.tapScripts);
    MapsCommute(a.tapKeyOrigins, b.tapKeyOrigins);
    MapsCommute(a.spEcdhShares, b.spEcdhShares);
    MapsCommute(a.spDleqProofs, b.spDleqProofs);
    MapsCommute(a.proprietaries, b.proprietaries);
    MapsCommute(a.unknowns, b.unknowns);
  }

  lemma InputsCommute(a: I.Input, b: I.Input)
    requires InputsMatch(a, b)
    ensures MergeInput(a, b) == MergeInput(b, a) <==> InputsAgree(a, b)
    ensures MergeInput(a, a) == a
  {
    hide MergeInputFields, InputFieldsAgree;
    InputFieldsCommute(a.fields, b.fields);
  }

  lemma OutputsCommute(a: O.Output, b: O.Output)
    requires OutputsMatch(a, b)
    ensures MergeOutput(a, b) == MergeOutput(b, a) <==> OutputsAgree(a, b)
    ensures MergeOutput(a, a) == a
  {
    hide AgreeOn;
    MapsCommute(a.fields.bip32Derivations, b.fields.bip32Derivations);
    MapsCommute(a.fields.tapKeyOrigins, b.fields.tapKeyOrigins);
    MapsCommute(a.fields.proprietaries, b.fields.proprietaries);
    MapsCommute(a.fields.unknowns, b.fields.unknowns);
  }

  lemma ListsCommute<T>(merge: (T, T) -> T, agree: (T, T) -> bool, a: seq<T>, b: seq<T>)
    requires |a| == |b|
    requires forall i | 0 <= i < |a| :: merge(a[i], b[i]) == merge(b[i], a[i]) <==> agree(a[i], b[i])
    ensures Zip(merge, a, b) == Zip(merge, b, a) <==> ZipMatches(agree, a, b)
  {
    if Zip(merge, a, b) == Zip(merge, b, a) {
      forall i | 0 <= i < |a| ensures agree(a[i], b[i]) { assert Zip(merge, a, b)[i] == Zip(merge, b, a)[i]; }
    }
    if ZipMatches(agree, a, b) {
      forall i | 0 <= i < |a| ensures Zip(merge, a, b)[i] == Zip(merge, b, a)[i] { assert agree(a[i], b[i]); }
    }
  }

  lemma AllInputsCommute(a: seq<I.Input>, b: seq<I.Input>)
    requires |a| == |b| && ZipMatches(InputsMatch, a, b)
    ensures Zip(MergeInput, a, b) == Zip(MergeInput, b, a) <==> ZipMatches(InputsAgree, a, b)
  {
    hide MergeInput, InputsAgree, Zip;
    forall i | 0 <= i < |a| ensures MergeInput(a[i], b[i]) == MergeInput(b[i], a[i]) <==> InputsAgree(a[i], b[i]) {
      assert InputsMatch(a[i], b[i]);
      InputsCommute(a[i], b[i]);
    }
    ListsCommute(MergeInput, InputsAgree, a, b);
  }

  lemma AllOutputsCommute(a: seq<O.Output>, b: seq<O.Output>)
    requires |a| == |b| && ZipMatches(OutputsMatch, a, b)
    ensures Zip(MergeOutput, a, b) == Zip(MergeOutput, b, a) <==> ZipMatches(OutputsAgree, a, b)
  {
    hide MergeOutput, OutputsAgree, Zip;
    forall i | 0 <= i < |a| ensures MergeOutput(a[i], b[i]) == MergeOutput(b[i], a[i]) <==> OutputsAgree(a[i], b[i]) {
      assert OutputsMatch(a[i], b[i]);
      OutputsCommute(a[i], b[i]);
    }
    ListsCommute(MergeOutput, OutputsAgree, a, b);
  }

  /**
   * When combining is commutative: for equal-shaped PSBTs that can be combined, the order does not
   * matter if and only if the two agree on everything both say. The documentation claims it never
   * matters; `CombinerLimits.NotCommutative` shows that it can.
   */
  lemma CommutesIffAgree(a: Psbt, b: Psbt)
    requires SameShape(a, b) && Combined(a, b).Some?
    ensures Combined(a, b) == Combined(b, a) <==> Agree(a, b)
  {
    SuccessIsSymmetric(a, b);
    hide MergeGlobal, MergeInput, MergeOutput, GlobalsMatch, GlobalsAgree, InputsAgree, OutputsAgree, Zip, ZipMatches,
         Determinable;
    GlobalsCommute(a.global, b.global);
    AllInputsCommute(a.inputs, b.inputs);
    AllOutputsCommute(a.outputs, b.outputs);
  }

  /**
   * For PSBTs of any shape: both orders give the same, success or failure, if and only if neither
   * succeeds or the two have the same shape and agree.
   */
  lemma CommutesExactly(a: Psbt, b: Psbt)
    ensures Combined(a, b) == Combined(b, a)
       <==> (Mergeable(a, b) && (Resolves(a, b) || Resolves(b, a)) ==> SameShape(a, b) && Agree(a, b))
  {
    MergeableSymmetric(a, b);
    CombinedIff(a, b);
    CombinedIff(b, a);
    if SameShape(a, b) {
      SuccessIsSymmetric(a, b);
      if Combined(a, b).Some? { CommutesIffAgree(a, b); }
    } else {
      assert |Merged(a, b).inputs| == |a.inputs| && |Merged(b, a).inputs| == |b.inputs|;
      assert |Merged(a, b).outputs| == |a.outputs| && |Merged(b, a).outputs| == |b.outputs|;
    }
    hide Mergeable, Resolves, Merged, Determinable, Agree;
  }

  /** A PSBT combined with itself is itself, exactly when its lock time can be resolved. */
  lemma Idempotent(p: Psbt)
    ensures Combined(p, p) == if Determinable(p) then Some(p) else None
  {
    hide MergeInput, MergeOutput;
    XpubsIdem(p.global.fields.xpubs);
    MapsCommute(p.global.fields.spEcdhShares, p.global.fields.spEcdhShares);
    MapsCommute(p.global.fields.spDleqProofs, p.global.fields.spDleqProofs);
    MapsCommute(p.global.fields.proprietaries, p.global.fields.proprietaries);
    MapsCommute(p.global.fields.unknowns, p.global.fields.unknowns);
    forall i | 0 <= i < |p.inputs| ensures MergeInput(p.inputs[i], p.inputs[i]) == p.inputs[i] {
      InputsCommute(p.inputs[i], p.inputs[i]);
    }
    forall i | 0 <= i < |p.outputs| ensures MergeOutput(p.outputs[i], p.outputs[i]) == p.outputs[i] {
      OutputsCommute(p.outputs[i], p.outputs[i]);
    }
    assert Zip(MergeInput, p.inputs, p.inputs) == p.inputs && Zip(MergeOutput, p.outputs, p.outputs) == p.outputs;
  }
}
