/** The Finalizer's and the Extractor's part in the transaction (BIP-174). */
module Extractor {
  import opened Bytes
  import opened CompactSize
  import opened Bitcoin
  import opened LockTime
  import opened Funding
  import opened Psbt
  import opened Transactions
  import opened Scripts
  import opened Signable
  import opened Session
  import opened Fees
  import Signer
  import I = Input
  import O = Output

  /* ----- finalizing an input ----- */

  datatype FinalScripts =
    | Segwit(witnessStack: seq<bytes>)
    | Wrapped(scriptSig: bytes, witnessStack: seq<bytes>)
    | Legacy(scriptSig: bytes)

  /** All fields the finalizer clears, cleared. */
  function Finalize(i: I.Input, scripts: FinalScripts): I.Input {
    var sig := match scripts case Segwit(_) => None case Wrapped(s, _) => Some(s) case Legacy(s) => Some(s);
    var wit := match scripts case Segwit(w) => Some(w) case Wrapped(_, w) => Some(w) case Legacy(_) => None;
    var f := i.fields;
    I.Input(i.previousTxid, i.spentOutputIndex, i.sequence, i.minTime, i.minHeight,
      I.InputFields(f.nonWitnessUtxo, f.witnessUtxo, map[], None, None, None, map[], sig, wit,
        map[], map[], map[], map[], None, map[], map[], map[], None, None,
        f.spEcdhShares, f.spDleqProofs, f.proprietaries, f.unknowns))
  }

  predicate IsFinalized(i: I.Input) { i.fields.finalScriptSig.Some? || i.fields.finalScriptWitness.Some? }

  predicate AllFinalized(p: Psbt) { forall k | 0 <= k < |p.inputs| :: IsFinalized(p.inputs[k]) }

  datatype FinalizeError = NoSatisfaction(input: nat) | InterpreterCheck

  /** What the satisfier finds for an input, if anything: its witness and script signature. */
  type Satisfier = nat -> Option<(seq<bytes>, bytes)>

  /** The output type says which of the two records a finalized input gets. */
  function FinalScriptsFor(i: I.Input, found: (seq<bytes>, bytes)): Option<FinalScripts> {
    match FundingUtxo(i)
    case Err(_) => None
    case Ok(o) =>
      match OutputTypeOf(i, o.scriptPubkey)
      case Err(_) => None
      case Ok(t) =>
        if t == Wpkh || t == Wsh || t == Tr then Some(Segwit(found.0))
        else if t == ShWpkh || t == ShWsh then Some(Wrapped(found.1, found.0))
        else Some(Legacy(found.1))
  }

  predicate FinalizedWith(before: I.Input, found: (seq<bytes>, bytes), after: I.Input) {
    FinalScriptsFor(before, found).Some? && after == Finalize(before, FinalScriptsFor(before, found).value)
  }

  /** The output an input spends is known, and is no witness program of an unknown kind. */
  predicate Placeable(i: I.Input) {
    && FundingUtxo(i).Ok?
    && var spk := FundingUtxo(i).value.scriptPubkey;
      IsWitnessProgram(spk) ==> IsP2wpkh(spk) || IsP2wsh(spk) || IsP2tr(spk)
  }

  /** A redeem script that is itself a witness program of version zero. */
  predicate WrapsWitness(i: I.Input) {
    && i.fields.redeemScript.Some?
    && (IsP2wpkh(i.fields.redeemScript.value) || IsP2wsh(i.fields.redeemScript.value))
  }

  /** Where what was found stands in the finalized input, by the template of the output it spends. */
  predicate FoundStands(i: I.Input, found: (seq<bytes>, bytes), f: I.InputFields)
    requires FundingUtxo(i).Ok?
  {
    var spk := FundingUtxo(i).value.scriptPubkey;
    if IsP2wpkh(spk) || IsP2wsh(spk) || IsP2tr(spk) then
      f.finalScriptSig == None && f.finalScriptWitness == Some(found.0)
    else if IsP2sh(spk) && WrapsWitness(i) then
      f.finalScriptSig == Some(found.1) && f.finalScriptWitness == Some(found.0)
    else f.finalScriptSig == Some(found.1) && f.finalScriptWitness == None
  }

  /** Everything that served to make the final scripts is gone. */
  predicate Cleared(f: I.InputFields) {
    && f.partialSigs == map[] && f.sighashType == None && f.redeemScript == None && f.witnessScript == None
    && f.bip32Derivations == map[]
    && f.ripemd160Preimages == map[] && f.sha256Preimages == map[]
    && f.hash160Preimages == map[] && f.hash256Preimages == map[]
    && f.tapKeySig == None && f.tapScriptSigs == map[] && f.tapScripts == map[] && f.tapKeyOrigins == map[]
    && f.tapInternalKey == None && f.tapMerkleRoot == None
  }

  /** Everything else an input carries is as it was. */
  predicate KeptByFinalizer(i: I.Input, j: I.Input) {
    && j.previousTxid == i.previousTxid && j.spentOutputIndex == i.spentOutputIndex && j.sequence == i.sequence
    && j.minTime == i.minTime && j.minHeight == i.minHeight
    && j.fields.nonWitnessUtxo == i.fields.nonWitnessUtxo && j.fields.witnessUtxo == i.fields.witnessUtxo
    && j.fields.spEcdhShares == i.fields.spEcdhShares && j.fields.spDleqProofs == i.fields.spDleqProofs
    && j.fields.proprietaries == i.fields.proprietaries && j.fields.unknowns == i.fields.unknowns
  }

  /** The finalized input: what was found in its place, what it was made from cleared, the rest kept. */
  predicate Placed(i: I.Input, found: (seq<bytes>, bytes), j: I.Input) {
    Placeable(i) && FoundStands(i, found, j.fields) && Cleared(j.fields) && KeptByFinalizer(i, j)
  }

  /**
   * Finalizing succeeds exactly for the outputs that have a place for what was found, and puts it
   * there: a witness for native witness outputs, both for wrapped ones, a script for all others.
   */
  lemma FinalizedIsPlaced(i: I.Input, found: (seq<bytes>, bytes), j: I.Input)
    ensures FinalScriptsFor(i, found).Some? <==> Placeable(i)
    ensures FinalizedWith(i, found, j) <==> Placed(i, found, j)
  {
    hide FundingUtxo, IsP2wpkh, IsP2wsh, IsP2tr, IsP2sh, IsWitnessProgram;
    if FundingUtxo(i).Ok? {
      var spk := FundingUtxo(i).value.scriptPubkey;
      TypesExact(i, spk);
      Templates(spk, None);
    }
  }

  /** An input as the finalizer leaves it: already final, or cleared and given its scripts. */
  ghost predicate FinalForm(before: I.Input, after: I.Input) {
    if IsFinalized(before) then after == before else exists found :: FinalizedWith(before, found, after)
  }

  /** `Finalizer::new`: funding outputs, lock time and partial signatures are all in order. */
  method NewFinalizer(p: Psbt) returns (ok: bool)
    ensures ok <==>
      AllFunded(p.inputs) && LockTimeOf(p).Ok? && forall k | 0 <= k < |p.inputs| :: Signer.PartialSigsAgree(p.inputs[k])
  {
    hide FundingUtxo, DetermineLockTime, Signer.PartialSigsAgree;
    for n := 0 to |p.inputs|
      invariant forall k | 0 <= k < n :: FundingUtxo(p.inputs[k]).Ok?
    {
      if FundingUtxo(p.inputs[n]).Err? { return false; }
    }
    if LockTimeOf(p).Err? { return false; }
    var check := Signer.CheckPartialSigsSighashType(p);
    ok := check.Ok?;
  }

  /** Finalizes every input that is not final yet, for any satisfier and any interpreter check. */
  method FinalizeAll(p: Psbt, satisfy: Satisfier, interpreterCheck: Psbt -> bool)
    returns (r: Result<Psbt, FinalizeError>)
    ensures r.Ok? ==> r.value.global == p.global && r.value.outputs == p.outputs && |r.value.inputs| == |p.inputs|
    ensures r.Ok? ==> forall k | 0 <= k < |p.inputs| :: FinalForm(p.inputs[k], r.value.inputs[k])
    ensures r.Ok? ==> forall k | 0 <= k < |p.inputs| && !IsFinalized(p.inputs[k]) ::
      satisfy(k).Some? && Placed(p.inputs[k], satisfy(k).value, r.value.inputs[k])
    ensures r.Ok? ==> forall k | 0 <= k < |p.inputs| && IsFinalized(p.inputs[k]) :: r.value.inputs[k] == p.inputs[k]
    ensures r.Ok? ==> AllFinalized(r.value) && interpreterCheck(r.value)
    ensures AllFinalized(p) && interpreterCheck(p) ==> r == Ok(p)
    ensures r.Err? && r.error.NoSatisfaction? ==>
      && r.error.input < |p.inputs| && Stuck(p.inputs[r.error.input], satisfy(r.error.input))
      && forall k | 0 <= k < r.error.input :: !Stuck(p.inputs[k], satisfy(k))
    ensures r == Err(InterpreterCheck) ==> forall k | 0 <= k < |p.inputs| :: !Stuck(p.inputs[k], satisfy(k))
  {
    hide FinalScriptsFor, FinalForm, IsFinalized, Finalize, FinalizedWith, Placed, Placeable;
    var inputs: seq<I.Input> := [];
    for n := 0 to |p.inputs|
      invariant |inputs| == n
      invariant forall k | 0 <= k < n :: FinalForm(p.inputs[k], inputs[k]) && IsFinalized(inputs[k])
      invariant forall k | 0 <= k < n :: IsFinalized(p.inputs[k]) ==> inputs[k] == p.inputs[k]
      invariant forall k | 0 <= k < n && !IsFinalized(p.inputs[k]) ::
        satisfy(k).Some? && Placed(p.inputs[k], satisfy(k).value, inputs[k])
      invariant forall k | 0 <= k < n :: !Stuck(p.inputs[k], satisfy(k))
    {
      FinalFormOf(p.inputs[n]);
      if IsFinalized(p.inputs[n]) {
        inputs := inputs + [p.inputs[n]];
      } else {
        var found := satisfy(n);
        if found.None? { return Err(NoSatisfaction(n)); }
        var scripts := FinalScriptsFor(p.inputs[n], found.value);
        var final := Finalize(p.inputs[n], if scripts.Some? then scripts.value else Legacy([]));
        FinalizedIsPlaced(p.inputs[n], found.value, final);
        if scripts.None? { return Err(NoSatisfaction(n)); }
        FinalizeIsFinal(p.inputs[n], scripts.value);
        FinalFormFound(p.inputs[n], found.value);
        FinalizedAs(p.inputs[n], found.value);
        inputs := inputs + [final];
      }
    }
    var finalized := p.(inputs := inputs);
    assert AllFinalized(p) ==> inputs == p.inputs;
    if !interpreterCheck(finalized) { return Err(InterpreterCheck); }
    r := Ok(finalized);
  }

  /** An input the finalizer cannot finish: not final, and nothing was found for it or it has no place. */
  predicate Stuck(i: I.Input, found: Option<(seq<bytes>, bytes)>) {
    !IsFinalized(i) && (found.None? || !Placeable(i))
  }

  lemma FinalizedAs(i: I.Input, found: (seq<bytes>, bytes))
    requires FinalScriptsFor(i, found).Some?
    ensures FinalizedWith(i, found, Finalize(i, FinalScriptsFor(i, found).value))
  {
    hide FinalScriptsFor, Finalize;
  }

  lemma FinalFormOf(i: I.Input)
    ensures IsFinalized(i) ==> FinalForm(i, i)
  {
  }

  lemma FinalizeIsFinal(i: I.Input, scripts: FinalScripts)
    ensures IsFinalized(Finalize(i, scripts))
  {
  }

  lemma FinalFormFound(i: I.Input, found: (seq<bytes>, bytes))
    requires !IsFinalized(i) && FinalScriptsFor(i, found).Some?
    ensures FinalForm(i, Finalize(i, FinalScriptsFor(i, found).value))
  {
    hide FinalScriptsFor, Finalize;
    assert FinalizedWith(i, found, Finalize(i, FinalScriptsFor(i, found).value));
  }

  /** What finalizing keeps: the place in the transaction, the funding output, and what it does not understand. */
  lemma FinalFormKeeps(i: I.Input, j: I.Input)
    requires FinalForm(i, j)
    ensures UnsignedTxIn(j) == UnsignedTxIn(i) && j.minTime == i.minTime && j.minHeight == i.minHeight
    ensures SameFunding(i, j)
    ensures j.fields.spEcdhShares == i.fields.spEcdhShares && j.fields.spDleqProofs == i.fields.spDleqProofs
    ensures j.fields.proprietaries == i.fields.proprietaries && j.fields.unknowns == i.fields.unknowns
  {
    hide FinalScriptsFor, IsFinalized;
  }

  /** PSBTs a finalizer's output may be made from. */
  ghost predicate FinalizedFrom(p: Psbt, q: Psbt) {
    && q.global == p.global && q.outputs == p.outputs && |q.inputs| == |p.inputs|
    && forall k | 0 <= k < |p.inputs| :: FinalForm(p.inputs[k], q.inputs[k])
  }

  /** Finalizing changes neither the transaction, nor the id, nor the fee. */
  lemma FinalizeKeeps(p: Psbt, q: Psbt)
    requires FinalizedFrom(p, q)
    ensures UnsignedTransaction(q) == UnsignedTransaction(p) && Id(q) == Id(p) && FeeOf(q) == FeeOf(p)
  {
    hide DetermineLockTime, IdTxOut, FinalForm, SameFunding, UnsignedTxIn, AddFunding, AddAmounts;
    forall k | 0 <= k < |p.inputs|
      ensures UnsignedTxIn(p.inputs[k]) == UnsignedTxIn(q.inputs[k]) && SameFunding(p.inputs[k], q.inputs[k])
      ensures p.inputs[k].minTime == q.inputs[k].minTime && p.inputs[k].minHeight == q.inputs[k].minHeight
    {
      FinalFormKeeps(p.inputs[k], q.inputs[k]);
    }
    OnlyRequirementsMatter(p.global.fallbackLockTime, p.inputs, q.inputs);
    assert UnsignedTxIns(p.inputs) == UnsignedTxIns(q.inputs);
    FeeUnmoved(0, p.inputs, q.inputs);
  }

  /* ----- extracting ----- */

  datatype ExtractError = Unfinalized | LockTimeUndetermined | SilentPaymentOutputScriptNotComputed(output: nat)

  /** Scripts and witness as they stand, absent ones empty. */
  function SignedTxIn(i: I.Input): TxIn {
    TxIn(OutPointOf(i), if i.fields.finalScriptSig.Some? then i.fields.finalScriptSig.value else [], SequenceOf(i),
         if i.fields.finalScriptWitness.Some? then i.fields.finalScriptWitness.value else [])
  }

  /** The first silent payment output without a script. */
  function FirstUncomputed(outs: seq<O.Output>, n: nat): Option<nat>
    requires n <= |outs|
    decreases |outs| - n
  {
    if n == |outs| then None else if O.Uncomputed(outs[n]) then Some(n) else FirstUncomputed(outs, n + 1)
  }

  lemma {:induction false} FirstUncomputedExact(outs: seq<O.Output>, n: nat)
    requires n <= |outs|
    ensures FirstUncomputed(outs, n).None? <==> forall k | n <= k < |outs| :: !O.Uncomputed(outs[k])
    ensures var f := FirstUncomputed(outs, n); f.Some? ==>
      n <= f.value < |outs| && O.Uncomputed(outs[f.value]) && forall k | n <= k < f.value :: !O.Uncomputed(outs[k])
    decreases |outs| - n
  {
    if n < |outs| && !O.Uncomputed(outs[n]) { FirstUncomputedExact(outs, n + 1); }
  }

  /** `Extractor::new`. */
  function CheckExtractable(p: Psbt): Result<(), ExtractError> {
    if !AllFinalized(p) then Err(Unfinalized)
    else if LockTimeOf(p).Err? then Err(LockTimeUndetermined)
    else
      match FirstUncomputed(p.outputs, 0)
      case Some(n) => Err(SilentPaymentOutputScriptNotComputed(n))
      case None => Ok(())
  }

  function SignedTxIns(ins: seq<I.Input>): seq<TxIn> {
    seq(|ins|, i requires 0 <= i < |ins| => SignedTxIn(ins[i]))
  }

  function Extract(p: Psbt): Result<Transaction, ExtractError> {
    if !AllFinalized(p) then Err(Unfinalized)
    else
      match LockTimeOf(p)
      case Err(_) => Err(LockTimeUndetermined)
      case Ok(lock) =>
        match FirstUncomputed(p.outputs, 0)
        case Some(n) => Err(SilentPaymentOutputScriptNotComputed(n))
        case None => Ok(Transaction(p.global.txVersion, lock, SignedTxIns(p.inputs), TxOuts(p.outputs)))
  }

  /** A transaction without what its inputs were signed with. */
  function Erased(t: Transaction): Transaction {
    t.(inputs := seq(|t.inputs|, i requires 0 <= i < |t.inputs| => t.inputs[i].(scriptSig := [], witnessStack := [])))
  }

  /** The extracted transaction is the unsigned one but for its input scripts; an accepted PSBT extracts. */
  lemma ExtractedIsUnsigned(p: Psbt)
    ensures Extract(p).Ok? <==> CheckExtractable(p).Ok?
    ensures Extract(p).Ok? ==> UnsignedTransaction(p) == Ok(Erased(Extract(p).value))
    ensures Extract(p).Ok? ==> forall k | 0 <= k < |p.outputs| ::
      p.outputs[k].fields.spV0Info.Some? ==> Extract(p).value.outputs[k].scriptPubkey != []
  {
    hide DetermineLockTime, AllFinalized, FirstUncomputed;
    FirstUncomputedExact(p.outputs, 0);
    if Extract(p).Ok? { assert Erased(Extract(p).value).inputs == UnsignedTxIns(p.inputs); }
  }

  /**
   * The network transaction, field by field: the PSBT extracts exactly if every input has a final
   * record, the lock time resolves and no silent payment output lacks its script; and then each input
   * spends its outpoint under its sequence with its own final scripts, absent ones empty.
   */
  lemma ExtractedTransaction(p: Psbt)
    ensures Extract(p).Ok? <==>
      && LockTimeOf(p).Ok?
      && (forall k | 0 <= k < |p.inputs| ::
            p.inputs[k].fields.finalScriptSig.Some? || p.inputs[k].fields.finalScriptWitness.Some?)
      && (forall k | 0 <= k < |p.outputs| :: p.outputs[k].fields.spV0Info.Some? ==> p.outputs[k].scriptPubkey != [])
    ensures Extract(p).Ok? ==>
      var tx := Extract(p).value;
      && tx.version == p.global.txVersion && LockTimeOf(p) == Ok(tx.lockTime)
      && |tx.inputs| == |p.inputs| && |tx.outputs| == |p.outputs|
      && (forall k | 0 <= k < |p.outputs| :: tx.outputs[k] == TxOut(p.outputs[k].amount, p.outputs[k].scriptPubkey))
      && (forall k | 0 <= k < |p.inputs| :: ExtractedInput(p.inputs[k], tx.inputs[k]))
  {
    hide DetermineLockTime;
    FirstUncomputedExact(p.outputs, 0);
    hide FirstUncomputed;
  }

  /** Why a PSBT does not extract: an unfinished input first, then the lock time, then the first bare output. */
  lemma ExtractComplaint(p: Psbt, n: nat)
    ensures Extract(p) == Err(Unfinalized) <==> exists k | 0 <= k < |p.inputs| ::
      p.inputs[k].fields.finalScriptSig == None && p.inputs[k].fields.finalScriptWitness == None
    ensures Extract(p) == Err(LockTimeUndetermined) <==> Extract(p) != Err(Unfinalized) && LockTimeOf(p).Err?
    ensures Extract(p) == Err(SilentPaymentOutputScriptNotComputed(n)) <==>
      && Extract(p) != Err(Unfinalized) && LockTimeOf(p).Ok?
      && n < |p.outputs| && p.outputs[n].fields.spV0Info.Some? && p.outputs[n].scriptPubkey == []
      && forall k | 0 <= k < n :: p.outputs[k].fields.spV0Info.Some? ==> p.outputs[k].scriptPubkey != []
    ensures Extract(p).Err? ==> CheckExtractable(p) == Err(Extract(p).error)
  {
    hide DetermineLockTime;
    FirstUncomputedExact(p.outputs, 0);
    hide FirstUncomputed;
  }

  predicate ExtractedInput(i: I.Input, t: TxIn) {
    && t.previousOutput == OutPoint(i.previousTxid, i.spentOutputIndex)
    && t.sequence == (match i.sequence case Some(n) => n case None => 0xFFFF_FFFF)
    && t.scriptSig == (match i.fields.finalScriptSig case Some(b) => b case None => [])
    && t.witnessStack == (match i.fields.finalScriptWitness case Some(w) => w case None => [])
  }

  /**
   * From the satisfier to the network: what was found for an input stands in that input of the
   * extracted transaction, as the template of the output it spends demands, and nothing else does.
   */
  lemma FoundIsExtracted(p: Psbt, satisfy: Satisfier, q: Psbt, k: nat)
    requires |q.inputs| == |p.inputs| && k < |p.inputs| && !IsFinalized(p.inputs[k])
    requires satisfy(k).Some? && Placed(p.inputs[k], satisfy(k).value, q.inputs[k])
    requires Extract(q).Ok?
    ensures FundingUtxo(p.inputs[k]).Ok? && |Extract(q).value.inputs| == |p.inputs|
    ensures var spk, t := FundingUtxo(p.inputs[k]).value.scriptPubkey, Extract(q).value.inputs[k];
      var found := satisfy(k).value;
      && t.previousOutput == OutPoint(p.inputs[k].previousTxid, p.inputs[k].spentOutputIndex)
      && if IsP2wpkh(spk) || IsP2wsh(spk) || IsP2tr(spk) then t.witnessStack == found.0 && t.scriptSig == []
         else if IsP2sh(spk) && WrapsWitness(p.inputs[k]) then t.witnessStack == found.0 && t.scriptSig == found.1
         else t.witnessStack == [] && t.scriptSig == found.1
  {
    hide Extract, FundingUtxo, IsP2wpkh, IsP2wsh, IsP2tr, IsP2sh, IsWitnessProgram, WrapsWitness;
    ExtractedTransaction(q);
    assert ExtractedInput(q.inputs[k], Extract(q).value.inputs[k]);
  }

  /**
   * Finalize and extract keep the transaction: extraction from what a finalizer made fails only for
   * an uncomputed silent payment output, and erasing the scripts gives the transaction before.
   */
  lemma FinalizedExtracts(p: Psbt, q: Psbt)
    requires FinalizedFrom(p, q) && AllFinalized(q) && UnsignedTransaction(p).Ok?
    ensures Extract(q).Ok? <==> forall k | 0 <= k < |p.outputs| :: !O.Uncomputed(p.outputs[k])
    ensures Extract(q).Ok? ==> Erased(Extract(q).value) == UnsignedTransaction(p).value
  {
    hide FinalizedFrom, AllFinalized, DetermineLockTime, FirstUncomputed, O.Uncomputed, Erased, Id, FeeOf;
    FinalizeKeeps(p, q);
    SameOutputs(p, q);
    ExtractedIsUnsigned(q);
    FirstUncomputedExact(p.outputs, 0);
  }

  lemma SameOutputs(p: Psbt, q: Psbt)
    requires FinalizedFrom(p, q)
    ensures p.outputs == q.outputs
  {
  }

  /* ----- from verified signing to the network transaction ----- */

  /** What verified signing hands on, `Finalizer::new` accepts. */
  lemma SignedIsAccepted(p: Psbt, sigs: seq<InputSigs>, q: Psbt)
    requires Signer.AppliedSigs(p, sigs) == Ok(q) && UnsignedTransaction(p).Ok?
    requires forall k | 0 <= k < |sigs| :: Signer.MadeFor(p, sigs[k])
    requires forall n | 0 <= n < |p.inputs| :: Verify(p, n).Ok? && Signer.DeclaresEcdsa(p.inputs[n])
    requires Signer.EcdsaTyped(q)
    ensures AllFunded(q.inputs) && LockTimeOf(q).Ok?
    ensures forall k | 0 <= k < |q.inputs| :: Signer.PartialSigsAgree(q.inputs[k])
  {
    hide Verify, Signer.AppliedSigs, Signer.MadeFor, Signer.EcdsaTyped, Signer.PartialSigsAgree, Signer.OnlySigned,
         DetermineLockTime, Signer.DeclaresEcdsa, CheckData, FundingUtxo;
    Signer.SignedPassesCheck(p, sigs, q);
    Signer.ApplyFrame(p, sigs, q);
    Signer.SignedTransaction(p, q);
    SameInputCount(p, q);
    forall n | 0 <= n < |q.inputs| ensures FundingUtxo(q.inputs[n]).Ok? {
      Signer.VerifiedStays(p, sigs, q, n);
      StrictIsChecked(q, n);
      EvidenceMeans(q, Verify(q, n).value);
    }
  }

  lemma SameInputCount(p: Psbt, q: Psbt)
    requires Signer.OnlySigned(p, q)
    ensures |p.inputs| == |q.inputs|
  {
  }

  /** From signing through finalizing to extracting, the transaction stays what it was. */
  lemma SignedFinalizedExtracted(p: Psbt, sigs: seq<InputSigs>, q: Psbt, f: Psbt)
    requires Signer.AppliedSigs(p, sigs) == Ok(q) && FinalizedFrom(q, f) && Extract(f).Ok?
    ensures UnsignedTransaction(p) == Ok(Erased(Extract(f).value)) && Id(p) == Id(f)
  {
    hide Signer.AppliedSigs, FinalizedFrom, Extract, UnsignedTransaction, Id, FeeOf, Erased, Signer.OnlySigned;
    Signer.ApplyFrame(p, sigs, q);
    Signer.SignedTransaction(p, q);
    FinalizeKeeps(q, f);
    ExtractedIsUnsigned(f);
  }

  /* ----- the fee rate limit ----- */

  /** Satoshis per 1000 weight units; 25000 satoshis per virtual byte. */
  const DEFAULT_MAX_FEE_RATE: nat := 6_250_000

  type Weigher = w: Transaction -> nat | forall t :: w(t) > 0 witness (t: Transaction) => 1

  const WEIGHT: Weigher

  datatype ExtractTxFeeRateError =
    | FeeUnknown(fee: FeeError) | NotExtracted(extract: ExtractError) | FeeTooHigh(rate: nat)

  /** `saturating_mul(1000)` in 64 bits. */
  function Thousandfold(fee: nat): nat { if fee * 1000 < U64 then fee * 1000 else U64 - 1 }

  function ExtractWithFeeRateLimit(p: Psbt, max: nat): Result<Transaction, ExtractTxFeeRateError> {
    match FeeOf(p)
    case Err(e) => Err(FeeUnknown(e))
    case Ok(fee) =>
      match Extract(p)
      case Err(e) => Err(NotExtracted(e))
      case Ok(tx) =>
        var rate := Thousandfold(fee) / WEIGHT(tx);
        if rate > max then Err(FeeTooHigh(rate)) else Ok(tx)
  }

  lemma FloorWithin(a: nat, w: nat, max: nat)
    requires w > 0
    ensures a / w <= max <==> a < (max + 1) * w
  {
    assert a == w * (a / w) + a % w;
    if a / w <= max { assert w * (a / w) <= w * max; } else { assert w * (a / w) >= w * (max + 1); }
  }

  /**
   * Limited extraction succeeds exactly when the fee is known, the transaction extracts and a
   * thousand times the fee, cut off at 64 bits, stays below the next rate up for its weight.
   */
  lemma LimitedExtraction(p: Psbt, max: nat)
    ensures ExtractWithFeeRateLimit(p, max).Ok? <==>
      FeeOf(p).Ok? && Extract(p).Ok? && Thousandfold(FeeOf(p).value) < (max + 1) * WEIGHT(Extract(p).value)
    ensures ExtractWithFeeRateLimit(p, max).Ok? ==> Extract(p) == Ok(ExtractWithFeeRateLimit(p, max).value)
    ensures FeeOf(p).Err? ==> ExtractWithFeeRateLimit(p, max) == Err(FeeUnknown(FeeOf(p).error))
    ensures FeeOf(p).Ok? && Extract(p).Err? ==> ExtractWithFeeRateLimit(p, max) == Err(NotExtracted(Extract(p).error))
    ensures FeeOf(p).Ok? && Extract(p).Ok? && ExtractWithFeeRateLimit(p, max).Err? ==>
      exists rate | rate > max :: ExtractWithFeeRateLimit(p, max) == Err(FeeTooHigh(rate))
  {
    hide FeeOf, Extract, Thousandfold;
    if FeeOf(p).Ok? && Extract(p).Ok? { FloorWithin(Thousandfold(FeeOf(p).value), WEIGHT(Extract(p).value), max); }
  }

  /** A limit that lets a whole 64-bit amount through for this weight lets every fee through. */
  lemma SaturationLetsThrough(p: Psbt, max: nat)
    requires FeeOf(p).Ok? && Extract(p).Ok? && (max + 1) * WEIGHT(Extract(p).value) >= U64
    ensures ExtractWithFeeRateLimit(p, max).Ok?
  {
    hide FeeOf, Extract;
    LimitedExtraction(p, max);
  }

  /**
   * Otherwise the limit bounds the true rate: where the product does not saturate, and wherever the
   * limit's own amount for this weight fits 64 bits, saturated or not.
   */
  lemma TrueRate(p: Psbt, max: nat)
    requires FeeOf(p).Ok? && Extract(p).Ok?
    ensures var fee, w := FeeOf(p).value, WEIGHT(Extract(p).value);
      fee * 1000 < U64 || (max + 1) * w < U64 ==> (ExtractWithFeeRateLimit(p, max).Ok? <==> fee * 1000 / w <= max)
  {
    hide FeeOf, Extract;
    LimitedExtraction(p, max);
    FloorWithin(FeeOf(p).value * 1000, WEIGHT(Extract(p).value), max);
  }

  /** `extract_tx`. */
  function ExtractTx(p: Psbt): Result<Transaction, ExtractTxFeeRateError> {
    ExtractWithFeeRateLimit(p, DEFAULT_MAX_FEE_RATE)
  }

  /** The weight limit of a block (BIP-141). */
  const MAX_BLOCK_WEIGHT: nat := 4_000_000

  /**
   * At the default limit no transaction that fits a block escapes by saturation: the bound is 25000
   * satoshis per four weight units.
   */
  lemma DefaultExtraction(p: Psbt)
    requires FeeOf(p).Ok? && Extract(p).Ok? && WEIGHT(Extract(p).value) <= MAX_BLOCK_WEIGHT
    ensures ExtractTx(p).Ok? <==> FeeOf(p).value * 1000 / WEIGHT(Extract(p).value) <= 25_000 * 1000 / 4
    ensures ExtractTx(p).Ok? ==> 4 * FeeOf(p).value <= 25_001 * WEIGHT(Extract(p).value)
  {
    hide FeeOf, Extract;
    var fee, w := FeeOf(p).value, WEIGHT(Extract(p).value);
    TrueRate(p, DEFAULT_MAX_FEE_RATE);
    FloorWithin(fee * 1000, w, DEFAULT_MAX_FEE_RATE);
  }
}
