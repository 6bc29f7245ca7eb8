/** Evidence that inputs can be signed, and why signing with that evidence cannot fail. */
module Signable {
  import opened Bytes
  import opened Bitcoin
  import opened Scripts
  import opened Funding
  import opened Psbt
  import opened Transactions
  import Sighash
  import I = Input

  datatype OutputType = Bare | Wpkh | Wsh | ShWpkh | ShWsh | Sh | Tr

  datatype SignError =
    | IndexOutOfBounds | FundingError(error: FundingUtxoError) | UnknownOutputType | NonWitnessSig
    | SighashSingleMissingOutput | MissingRedeemScript | MissingWitnessScript | InvalidSighashType
    | RedeemScriptMismatch | WitnessScriptMismatchWsh | WitnessScriptMismatchShWsh
    | TaprootInternalKeyMismatch | SighashMismatch | AllPrevoutsRequired

  /** A snapshot of what a signature over one input commits to. */
  datatype SignableInput = SignableInput(
    index: nat, outputType: OutputType, prevout: TxOut, scriptCode: bytes, sighash: nat)

  datatype AllSignableInputs = AllSignableInputs(inputs: seq<SignableInput>, prevouts: seq<TxOut>)

  predicate RedeemIs(i: I.Input, template: bytes -> bool) {
    i.fields.redeemScript.Some? && template(i.fields.redeemScript.value)
  }

  function OutputTypeOf(i: I.Input, spk: bytes): Result<OutputType, SignError> {
    if !(IsWitnessProgram(spk) || IsP2sh(spk)) then Ok(Bare)
    else if IsP2wpkh(spk) then Ok(Wpkh)
    else if IsP2wsh(spk) then Ok(Wsh)
    else if IsP2sh(spk) then
      if RedeemIs(i, IsP2wpkh) then Ok(ShWpkh)
      else if RedeemIs(i, IsP2wsh) then Ok(ShWsh)
      else Ok(Sh)
    else if IsP2tr(spk) then Ok(Tr)
    else Err(UnknownOutputType)
  }

  /** Within the list, and within the count the global map declares. */
  predicate InBounds(p: Psbt, index: nat) { index < |p.inputs| && index < p.global.inputCount }

  /** The declared type, or the default of the output type. */
  function SelectedSighash(i: I.Input, t: OutputType): nat {
    if i.fields.sighashType.Some? then i.fields.sighashType.value else if t == Tr then 0 else 1
  }

  function ScriptCode(i: I.Input, t: OutputType, prevout: TxOut): Result<bytes, SignError> {
    match t
    case Bare => Ok(prevout.scriptPubkey)
    case Wpkh => Ok(prevout.scriptPubkey)
    case Sh => if i.fields.redeemScript.Some? then Ok(i.fields.redeemScript.value) else Err(MissingRedeemScript)
    case ShWpkh => if i.fields.redeemScript.Some? then Ok(i.fields.redeemScript.value) else Err(MissingRedeemScript)
    case Wsh => if i.fields.witnessScript.Some? then Ok(i.fields.witnessScript.value) else Err(MissingWitnessScript)
    case ShWsh => if i.fields.witnessScript.Some? then Ok(i.fields.witnessScript.value) else Err(MissingWitnessScript)
    case Tr => Ok([])
  }

  predicate ValidFor(t: OutputType, sighash: nat) {
    if t == Tr then Sighash.TapValid(sighash) else Sighash.EcdsaStandard(sighash)
  }

  function CheckTyped(p: Psbt, index: nat, prevout: TxOut, t: OutputType): Result<SignableInput, SignError>
    requires InBounds(p, index)
  {
    var i := p.inputs[index];
    var sighash := SelectedSighash(i, t);
    if i.fields.witnessUtxo.Some? && t == Bare then Err(NonWitnessSig)
    else if Sighash.IsSingle(sighash) && index >= |p.outputs| then Err(SighashSingleMissingOutput)
    else
      match ScriptCode(i, t, prevout)
      case Err(e) => Err(e)
      case Ok(code) =>
        if !ValidFor(t, sighash) then Err(InvalidSighashType) else Ok(SignableInput(index, t, prevout, code, sighash))
  }

  /** Structural integrity (`check_data`): enough is there, and in range, to sign. */
  function CheckData(p: Psbt, index: nat): Result<SignableInput, SignError> {
    if !InBounds(p, index) then Err(IndexOutOfBounds)
    else
      match FundingUtxo(p.inputs[index])
      case Err(e) => Err(FundingError(e))
      case Ok(prevout) =>
        match OutputTypeOf(p.inputs[index], prevout.scriptPubkey)
        case Err(e) => Err(e)
        case Ok(t) => CheckTyped(p, index, prevout, t)
  }

  function ScriptMismatch(i: I.Input, s: SignableInput): Option<SignError> {
    var f, spk := i.fields, s.prevout.scriptPubkey;
    if f.redeemScript.Some? && P2sh(f.redeemScript.value) != spk then Some(RedeemScriptMismatch)
    else if f.witnessScript.Some? && s.outputType == Wsh && P2wsh(f.witnessScript.value) != spk
    then Some(WitnessScriptMismatchWsh)
    else if f.witnessScript.Some? && s.outputType == ShWsh && f.redeemScript.Some?
            && (P2wsh(f.witnessScript.value) != f.redeemScript.value || P2sh(f.redeemScript.value) != spk)
    then Some(WitnessScriptMismatchShWsh)
    else if s.outputType == Tr && f.tapInternalKey.Some? && P2tr(f.tapInternalKey.value, f.tapMerkleRoot) != spk
    then Some(TaprootInternalKeyMismatch)
    else None
  }

  /** All signatures an input already has are of one type. */
  predicate SighashesAre(f: I.InputFields, sighash: nat) {
    && (f.tapKeySig.Some? ==> f.tapKeySig.value.sighash == sighash)
    && (forall k | k in f.tapScriptSigs :: f.tapScriptSigs[k].sighash == sighash)
    && (forall k | k in f.partialSigs :: f.partialSigs[k].sighash == sighash)
  }

  /** The strict checks of BIP-174 (`verify`). */
  function Verify(p: Psbt, index: nat): Result<SignableInput, SignError> {
    match CheckData(p, index)
    case Err(e) => Err(e)
    case Ok(s) =>
      if !InBounds(p, index) then Err(IndexOutOfBounds)
      else
        match FundingUtxoUntrusted(p.inputs[index])
        case Err(e) => Err(FundingError(e))
        case Ok(_) =>
          match ScriptMismatch(p.inputs[index], s)
          case Some(e) => Err(e)
          case None => if SighashesAre(p.inputs[index].fields, s.sighash) then Ok(s) else Err(SighashMismatch)
  }

  function Check(p: Psbt, strict: bool, index: nat): Result<SignableInput, SignError> {
    if strict then Verify(p, index) else CheckData(p, index)
  }

  /** Evidence about a PSBT, however strictly it was obtained. */
  predicate Issued(p: Psbt, s: SignableInput) { CheckData(p, s.index) == Ok(s) }

  /** Evidence that may leave its session's complete set: it needs no other input's output. */
  predicate Standalone(p: Psbt, s: SignableInput) {
    Issued(p, s) && (s.outputType == Tr ==> Sighash.IsAnyoneCanPay(s.sighash))
  }

  /** `signable_input` and `assume_checked_input`. */
  function StandaloneInput(p: Psbt, strict: bool, index: nat): (r: Result<SignableInput, SignError>)
    ensures r.Ok? ==> Standalone(p, r.value) && r.value.index == index
    ensures r.Ok? && strict ==> Verify(p, index) == r
    ensures r.Ok? <==>
      Check(p, strict, index).Ok?
      && (Check(p, strict, index).value.outputType == Tr ==> Check(p, strict, index).value.sighash % 256 >= 128)
    ensures Check(p, strict, index).Err? ==> r == Err(Check(p, strict, index).error)
    ensures r.Err? && Check(p, strict, index).Ok? ==> r == Err(AllPrevoutsRequired)
  {
    StrictIsChecked(p, index);
    match Check(p, strict, index)
    case Err(e) => Err(e)
    case Ok(s) => if s.outputType == Tr && !Sighash.IsAnyoneCanPay(s.sighash) then Err(AllPrevoutsRequired) else Ok(s)
  }

  /** The strict path gives the evidence of the trusting path, or none. */
  lemma StrictIsChecked(p: Psbt, index: nat)
    ensures Verify(p, index).Ok? ==> Verify(p, index) == CheckData(p, index)
    ensures CheckData(p, index).Ok? ==> InBounds(p, index) && CheckData(p, index).value.index == index
  {
  }

  /** What evidence says of its input. */
  lemma EvidenceMeans(p: Psbt, s: SignableInput)
    requires Issued(p, s)
    ensures InBounds(p, s.index)
    ensures FundingUtxo(p.inputs[s.index]) == Ok(s.prevout)
    ensures OutputTypeOf(p.inputs[s.index], s.prevout.scriptPubkey) == Ok(s.outputType)
    ensures ScriptCode(p.inputs[s.index], s.outputType, s.prevout) == Ok(s.scriptCode)
    ensures s.sighash == SelectedSighash(p.inputs[s.index], s.outputType) && ValidFor(s.outputType, s.sighash)
    ensures match p.inputs[s.index].fields.sighashType
      case Some(declared) => s.sighash == declared
      case None => s.sighash == if s.outputType == Tr then 0 else 1
    ensures Sighash.IsSingle(s.sighash) ==> s.index < |p.outputs|
  {
    hide FundingUtxo, OutputTypeOf, ScriptCode, ValidFor, Sighash.IsSingle;
  }

  /**
   * After strict verification the signature commits to what the spent output commits to: the script
   * code is the locking script or its committed preimage, and the amount is that of the named
   * transaction's output, or the input is taproot, whose digest commits to the amount itself.
   */
  lemma VerifiedMeans(p: Psbt, s: SignableInput)
    requires Verify(p, s.index) == Ok(s)
    ensures InBounds(p, s.index)
    ensures Attested(p.inputs[s.index], s.prevout) || s.outputType == Tr
    ensures match s.outputType
      case Bare => s.scriptCode == s.prevout.scriptPubkey
      case Wpkh => s.scriptCode == s.prevout.scriptPubkey && IsP2wpkh(s.scriptCode)
      case Sh => s.prevout.scriptPubkey == P2sh(s.scriptCode)
      case ShWpkh => s.prevout.scriptPubkey == P2sh(s.scriptCode) && IsP2wpkh(s.scriptCode)
      case Wsh => s.prevout.scriptPubkey == P2wsh(s.scriptCode)
      case ShWsh => s.prevout.scriptPubkey == P2sh(P2wsh(s.scriptCode))
      case Tr =>
        var f := p.inputs[s.index].fields;
        f.tapInternalKey.Some? ==> s.prevout.scriptPubkey == P2tr(f.tapInternalKey.value, f.tapMerkleRoot)
  {
    hide P2sh, P2wsh, P2tr, CheckData, IsWitnessProgram, IsP2wpkh, IsP2wsh, IsP2sh, FundingUtxo, SighashesAre, Attested,
         FundingUtxoUntrusted;
    StrictIsChecked(p, s.index);
    EvidenceMeans(p, s);
    FundingIsAttested(p.inputs[s.index], s.prevout);
    TypeIsTaproot(p.inputs[s.index], s.prevout.scriptPubkey);
  }

  lemma TypeIsTaproot(i: I.Input, spk: bytes)
    ensures OutputTypeOf(i, spk) == Ok(Tr) <==> IsP2tr(spk)
  {
    Templates(spk, None);
  }

  /** The classification does not depend on the order of its tests, and fails for unknown witness programs only. */
  lemma TypesExact(i: I.Input, spk: bytes)
    ensures OutputTypeOf(i, spk) == Ok(Bare) <==> !IsWitnessProgram(spk) && !IsP2sh(spk)
    ensures OutputTypeOf(i, spk) == Ok(Wpkh) <==> IsP2wpkh(spk)
    ensures OutputTypeOf(i, spk) == Ok(Wsh) <==> IsP2wsh(spk)
    ensures OutputTypeOf(i, spk) == Ok(Tr) <==> IsP2tr(spk)
    ensures OutputTypeOf(i, spk) == Ok(ShWpkh) <==> IsP2sh(spk) && RedeemIs(i, IsP2wpkh)
    ensures OutputTypeOf(i, spk) == Ok(ShWsh) <==> IsP2sh(spk) && RedeemIs(i, IsP2wsh)
    ensures OutputTypeOf(i, spk) == Ok(Sh) <==> IsP2sh(spk) && !RedeemIs(i, IsP2wpkh) && !RedeemIs(i, IsP2wsh)
    ensures OutputTypeOf(i, spk).Err? <==> IsWitnessProgram(spk) && !IsP2wpkh(spk) && !IsP2wsh(spk) && !IsP2tr(spk)
  {
    Templates(spk, None);
    if RedeemIs(i, IsP2wpkh) { Templates(i.fields.redeemScript.value, None); }
  }

  /** The declared signature type, or the default. */
  function TypeOr(i: I.Input, default: nat): nat {
    match i.fields.sighashType case Some(declared) => declared case None => default
  }

  /** The type an input of this output type is signed with. */
  function TypeFor(i: I.Input, t: OutputType): nat { TypeOr(i, if t == Tr then 0 else 1) }

  /** Enough to sign an input of this type, whatever its scripts commit to. */
  predicate FitToSign(p: Psbt, index: nat, o: TxOut, t: OutputType)
    requires InBounds(p, index)
  {
    var i := p.inputs[index];
    && FundingUtxo(i) == Ok(o) && OutputTypeOf(i, o.scriptPubkey) == Ok(t)
    && (t == Bare ==> i.fields.witnessUtxo.None?)
    && (t == Sh || t == ShWpkh ==> i.fields.redeemScript.Some?)
    && (t == Wsh || t == ShWsh ==> i.fields.witnessScript.Some?)
    && (if t == Tr then Sighash.TapValid(TypeFor(i, t)) else Sighash.EcdsaStandard(TypeFor(i, t)))
    && (Sighash.IsSingle(TypeFor(i, t)) ==> index < |p.outputs|)
  }

  /** The evidence the structural check gives for such an input. */
  function EvidenceFor(p: Psbt, index: nat, o: TxOut, t: OutputType): SignableInput
    requires InBounds(p, index) && FitToSign(p, index, o, t)
  {
    var i := p.inputs[index];
    var code :=
      if t == Bare || t == Wpkh then o.scriptPubkey
      else if t == Sh || t == ShWpkh then i.fields.redeemScript.value
      else if t == Wsh || t == ShWsh then i.fields.witnessScript.value
      else [];
    SignableInput(index, t, o, code, TypeFor(i, t))
  }

  /** The structural check passes exactly on inputs fit to sign. */
  lemma CheckedIff(p: Psbt, index: nat)
    ensures CheckData(p, index).Ok? <==>
      index < |p.inputs| && index < p.global.inputCount && exists o, t :: FitToSign(p, index, o, t)
    ensures InBounds(p, index) ==>
      forall o, t | FitToSign(p, index, o, t) :: CheckData(p, index) == Ok(EvidenceFor(p, index, o, t))
  {
    hide FundingUtxo, OutputTypeOf, Sighash.EcdsaStandard, Sighash.TapValid, Sighash.IsSingle;
    if CheckData(p, index).Ok? {
      var s := CheckData(p, index).value;
      assert FitToSign(p, index, s.prevout, s.outputType);
    }
  }

  /** A failing structural check complains of the first of these that is wrong. */
  lemma CheckComplaint(p: Psbt, index: nat)
    requires CheckData(p, index).Err?
    ensures index >= |p.inputs| || index >= p.global.inputCount ==> CheckData(p, index) == Err(IndexOutOfBounds)
    ensures index < |p.inputs| && index < p.global.inputCount ==>
      CheckData(p, index) == Err(FirstComplaint(p.inputs[index], index, |p.outputs|))
  {
    hide FundingUtxo, IsP2wpkh, IsP2wsh, IsP2sh, IsP2tr, IsWitnessProgram, Sighash.EcdsaStandard, Sighash.TapValid;
    if InBounds(p, index) && FundingUtxo(p.inputs[index]).Ok? {
      TypesExact(p.inputs[index], FundingUtxo(p.inputs[index]).value.scriptPubkey);
      Templates(FundingUtxo(p.inputs[index]).value.scriptPubkey, None);
    }
  }

  function FirstComplaint(i: I.Input, index: nat, outputs: nat): SignError {
    var f := i.fields;
    match FundingUtxo(i)
    case Err(e) => FundingError(e)
    case Ok(o) =>
      var spk, n := o.scriptPubkey, TypeOr(i, if IsP2tr(o.scriptPubkey) then 0 else 1);
      if IsWitnessProgram(spk) && !IsP2wpkh(spk) && !IsP2wsh(spk) && !IsP2tr(spk) then UnknownOutputType
      else if f.witnessUtxo.Some? && !IsWitnessProgram(spk) && !IsP2sh(spk) then NonWitnessSig
      else if (n == 3 || n == 0x83) && index >= outputs then SighashSingleMissingOutput
      else if IsP2sh(spk) && f.redeemScript.None? then MissingRedeemScript
      else if f.witnessScript.None? && (IsP2wsh(spk) || (IsP2sh(spk) && IsP2wsh(f.redeemScript.value)
                                                          && !IsP2wpkh(f.redeemScript.value)))
      then MissingWitnessScript
      else InvalidSighashType
  }

  /** The scripts and keys an input declares are those its spent output commits to. */
  predicate Committed(i: I.Input, spk: bytes, t: OutputType) {
    var f := i.fields;
    && (f.redeemScript.Some? ==> spk == P2sh(f.redeemScript.value))
    && (t == Wsh && f.witnessScript.Some? ==> spk == P2wsh(f.witnessScript.value))
    && (t == ShWsh && f.witnessScript.Some? && f.redeemScript.Some? ==>
          f.redeemScript.value == P2wsh(f.witnessScript.value))
    && (t == Tr && f.tapInternalKey.Some? ==> spk == P2tr(f.tapInternalKey.value, f.tapMerkleRoot))
  }

  /** Beyond being fit: the output is attested or taproot, and scripts, keys and signatures are as they should be. */
  predicate StrictlyFit(i: I.Input, o: TxOut, t: OutputType) {
    && (i.fields.nonWitnessUtxo.Some? || IsP2tr(o.scriptPubkey))
    && Committed(i, o.scriptPubkey, t)
    && (i.fields.tapKeySig.Some? ==> i.fields.tapKeySig.value.sighash == TypeFor(i, t))
    && (forall k | k in i.fields.tapScriptSigs :: i.fields.tapScriptSigs[k].sighash == TypeFor(i, t))
    && (forall k | k in i.fields.partialSigs :: i.fields.partialSigs[k].sighash == TypeFor(i, t))
  }

  /** What the strict checks add to evidence. */
  lemma VerifiedBeyond(p: Psbt, s: SignableInput)
    requires Issued(p, s) && InBounds(p, s.index)
    ensures Verify(p, s.index).Ok? <==> StrictlyFit(p.inputs[s.index], s.prevout, s.outputType)
  {
    hide CheckData, P2sh, P2wsh, P2tr, IsP2tr, FundingUtxo, FundingUtxoUntrusted;
    EvidenceMeans(p, s);
    FundingIsAttested(p.inputs[s.index], s.prevout);
  }

  /**
   * Strict verification, by everything it asks of an input: it passes exactly if the input is fit to
   * sign under some output and type, that output is attested or taproot, scripts and keys are
   * committed to, and all signatures there are of the selected type; and then it gives the evidence
   * for that output and type.
   */
  lemma VerifiedIff(p: Psbt, index: nat)
    ensures Verify(p, index).Ok? <==>
      && index < |p.inputs| && index < p.global.inputCount
      && exists o, t :: FitToSign(p, index, o, t) && StrictlyFit(p.inputs[index], o, t)
    ensures InBounds(p, index) ==>
      forall o, t | FitToSign(p, index, o, t) && StrictlyFit(p.inputs[index], o, t) ::
        Verify(p, index) == Ok(EvidenceFor(p, index, o, t))
  {
    CheckedIff(p, index);
    StrictIsChecked(p, index);
    hide CheckData, Verify, FitToSign, StrictlyFit;
    if CheckData(p, index).Ok? {
      var s := CheckData(p, index).value;
      VerifiedBeyond(p, s);
      var o, t :| FitToSign(p, index, o, t);
      assert s == EvidenceFor(p, index, o, t);
    }
  }

  /** A failing strict check of an input with evidence complains of the first of these that is wrong. */
  lemma StrictComplaint(p: Psbt, s: SignableInput)
    requires Issued(p, s) && InBounds(p, s.index) && Verify(p, s.index).Err?
    ensures var i, spk := p.inputs[s.index], s.prevout.scriptPubkey;
      Verify(p, s.index) == Err(
        if i.fields.nonWitnessUtxo.None? && !IsP2tr(spk) then FundingError(UnverifiableUtxo)
        else if i.fields.redeemScript.Some? && spk != P2sh(i.fields.redeemScript.value) then RedeemScriptMismatch
        else if IsP2wsh(spk) && spk != P2wsh(i.fields.witnessScript.value) then WitnessScriptMismatchWsh
        else if s.outputType == ShWsh && i.fields.redeemScript.value != P2wsh(i.fields.witnessScript.value)
        then WitnessScriptMismatchShWsh
        else if IsP2tr(spk) && i.fields.tapInternalKey.Some?
                && spk != P2tr(i.fields.tapInternalKey.value, i.fields.tapMerkleRoot)
        then TaprootInternalKeyMismatch
        else SighashMismatch)
  {
    hide FundingUtxo, FundingUtxoUntrusted, CheckData, IsP2wpkh, IsP2wsh, IsP2sh, IsP2tr, IsWitnessProgram,
         P2sh, P2wsh, P2tr, OutputTypeOf, SighashesAre;
    var i, spk := p.inputs[s.index], s.prevout.scriptPubkey;
    EvidenceMeans(p, s);
    FundingIsAttested(i, s.prevout);
    FundingExact(i, s.prevout);
    if FundingUtxoUntrusted(i).Err? { StrictRefusal(i); }
    TypesExact(i, spk);
    Templates(spk, None);
  }

  lemma StrictRefusal(i: I.Input)
    requires FundingUtxo(i).Ok? && FundingUtxoUntrusted(i).Err?
    ensures FundingUtxoUntrusted(i) == Err(UnverifiableUtxo)
  {
    hide IsP2tr;
  }

  /* ----- digests, with the errors the sighash cache can return ----- */

  /** The branch that commits to the input's own previous output only. */
  predicate TakesOnePrevout(sighash: nat) { sighash == 0x81 || sighash == 0x82 || sighash == 0x83 }

  /** A taproot digest of the cached transaction; `None` where the cache returns an error. */
  function CacheTaproot(tx: Transaction, index: nat, prevouts: Prevouts, leaf: Option<bytes>, sighash: nat): Option<bytes> {
    if prevouts.AllPrevouts? && |prevouts.prevouts| != |tx.inputs| then None
    else if prevouts.OnePrevout? && !TakesOnePrevout(sighash) then None
    else if TakesOnePrevout(sighash) && index >= |tx.inputs| then None
    else if prevouts.OnePrevout? && prevouts.index != index then None
    else if Sighash.IsSingle(sighash) && index >= |tx.outputs| then None
    else Some(SIGNING.taprootDigest(tx, index, prevouts, leaf, sighash))
  }

  /** `taproot_sighash`; `None` where one of its `expect`s fails. */
  function TaprootDigest(tx: Transaction, s: SignableInput, all: seq<TxOut>, leaf: Option<bytes>): Option<bytes> {
    if !Sighash.TapValid(s.sighash) then None
    else
      var prevouts := if TakesOnePrevout(s.sighash) then OnePrevout(s.index, s.prevout) else AllPrevouts(all);
      CacheTaproot(tx, s.index, prevouts, leaf, s.sighash)
  }

  /** `ecdsa_sighash`; `None` where one of its `expect`s fails or its `unreachable` is reached. */
  function EcdsaDigest(tx: Transaction, s: SignableInput): Option<bytes> {
    if !Sighash.EcdsaStandard(s.sighash) || s.index >= |tx.inputs| then None
    else
      match s.outputType
      case Bare => Some(SIGNING.legacyDigest(tx, s.index, s.scriptCode, s.sighash))
      case Sh => Some(SIGNING.legacyDigest(tx, s.index, s.scriptCode, s.sighash))
      case Wpkh => KeyHashDigest(tx, s)
      case ShWpkh => KeyHashDigest(tx, s)
      case Wsh => Some(SIGNING.segwitDigest(tx, s.index, s.scriptCode, s.prevout.value, s.sighash))
      case ShWsh => Some(SIGNING.segwitDigest(tx, s.index, s.scriptCode, s.prevout.value, s.sighash))
      case Tr => None
  }

  /** A key hash digest is defined for key hash programs only. */
  function KeyHashDigest(tx: Transaction, s: SignableInput): Option<bytes> {
    if IsP2wpkh(s.scriptCode) then Some(SIGNING.segwitDigest(tx, s.index, s.scriptCode, s.prevout.value, s.sighash))
    else None
  }

  /** The bit test that admits standalone evidence and the match that picks the prevouts agree. */
  lemma AnyoneCanPayIsOnePrevout(sighash: nat)
    requires Sighash.TapValid(sighash)
    ensures Sighash.IsAnyoneCanPay(sighash) <==> TakesOnePrevout(sighash)
  {
  }

  /** No `expect` fails on the ECDSA path, whichever evidence is used. */
  lemma EcdsaIsTotal(p: Psbt, tx: Transaction, s: SignableInput)
    requires Issued(p, s) && UnsignedTransaction(p) == Ok(tx) && s.outputType != Tr
    ensures EcdsaDigest(tx, s).Some?
  {
    hide FundingUtxo, IsP2wpkh, IsP2sh, IsWitnessProgram, IsP2wsh, IsP2tr, CheckData, Sighash.EcdsaStandard;
    EvidenceMeans(p, s);
    assert |tx.inputs| == |p.inputs|;
    Templates(s.prevout.scriptPubkey, None);
  }

  /**
   * On the taproot path no `expect` fails exactly when the type takes one previous output or the
   * previous outputs are those of all inputs of the transaction.
   */
  lemma TaprootIsTotal(p: Psbt, tx: Transaction, s: SignableInput, all: seq<TxOut>, leaf: Option<bytes>)
    requires Issued(p, s) && UnsignedTransaction(p) == Ok(tx) && s.outputType == Tr
    ensures TaprootDigest(tx, s, all, leaf).Some? <==> TakesOnePrevout(s.sighash) || |all| == |p.inputs|
  {
    hide FundingUtxo, OutputTypeOf, ScriptCode, CheckData;
    EvidenceMeans(p, s);
    assert |tx.inputs| == |p.inputs| && |tx.outputs| == |p.outputs|;
  }

  /** Standalone evidence never needs the other inputs' outputs. */
  lemma StandaloneIsTotal(p: Psbt, tx: Transaction, s: SignableInput, leaf: Option<bytes>)
    requires Standalone(p, s) && UnsignedTransaction(p) == Ok(tx)
    ensures s.outputType == Tr ==> TakesOnePrevout(s.sighash) && TaprootDigest(tx, s, [], leaf).Some?
    ensures s.outputType != Tr ==> EcdsaDigest(tx, s).Some?
  {
    hide CheckData, TaprootDigest, EcdsaDigest, UnsignedTransaction, Sighash.IsAnyoneCanPay, Sighash.TapValid,
         TakesOnePrevout;
    if s.outputType == Tr {
      EvidenceMeans(p, s);
      AnyoneCanPayIsOnePrevout(s.sighash);
      TaprootIsTotal(p, tx, s, [], leaf);
    } else {
      EcdsaIsTotal(p, tx, s);
    }
  }

  /* ----- the complete set ----- */

  /** Evidence for every input up to the declared count, in order, with their outputs in order. */
  predicate Complete(p: Psbt, all: AllSignableInputs) {
    && |all.inputs| == p.global.inputCount && |all.prevouts| == p.global.inputCount
    && forall k | 0 <= k < |all.inputs| :: Holds(p, all, k)
  }

  predicate Holds(p: Psbt, all: AllSignableInputs, k: nat)
    requires k < |all.inputs| && k < |all.prevouts|
  {
    Issued(p, all.inputs[k]) && all.inputs[k].index == k && all.prevouts[k] == all.inputs[k].prevout
  }

  /** `AllSignableInputs::new`: all inputs or the errors of those that fail. */
  method CollectAll(p: Psbt, strict: bool) returns (r: Result<AllSignableInputs, map<nat, SignError>>)
    ensures r.Ok? <==> forall k | 0 <= k < p.global.inputCount :: Check(p, strict, k).Ok?
    ensures r.Ok? ==> Complete(p, r.value)
    ensures r.Ok? ==> forall k | 0 <= k < p.global.inputCount :: Check(p, strict, k) == Ok(r.value.inputs[k])
    ensures r.Err? ==> forall k :: k in r.error <==> 0 <= k < p.global.inputCount && Check(p, strict, k).Err?
    ensures r.Err? ==> forall k | k in r.error :: Check(p, strict, k) == Err(r.error[k])
  {
    hide Check, Verify, CheckData, FundingUtxo;
    var inputs: seq<SignableInput>, prevouts: seq<TxOut>, errors: map<nat, SignError> := [], [], map[];
    var index := 0;
    while index < p.global.inputCount
      invariant index <= p.global.inputCount
      invariant forall k :: k in errors <==> 0 <= k < index && Check(p, strict, k).Err?
      invariant forall k | k in errors :: Check(p, strict, k) == Err(errors[k])
      invariant |inputs| == |prevouts| <= index
      invariant errors == map[] ==> |inputs| == index
      invariant errors == map[] ==> forall k | 0 <= k < index ::
        Holds(p, AllSignableInputs(inputs, prevouts), k) && Check(p, strict, k) == Ok(inputs[k])
    {
      CheckIssues(p, strict, index);
      match Check(p, strict, index) {
        case Ok(input) =>
          EvidenceMeans(p, input);
          inputs := inputs + [input];
          prevouts := prevouts + [FundingUtxo(p.inputs[index]).value];
        case Err(e) => errors := errors[index := e];
      }
      index := index + 1;
    }
    if errors == map[] { r := Ok(AllSignableInputs(inputs, prevouts)); } else {
      assert exists k :: k in errors;
      r := Err(errors);
    }
  }

  lemma CheckIssues(p: Psbt, strict: bool, index: nat)
    ensures Check(p, strict, index).Ok? ==> Check(p, strict, index) == CheckData(p, index)
    ensures Check(p, strict, index).Ok? ==> Issued(p, Check(p, strict, index).value)
    ensures Check(p, strict, index).Ok? ==> Check(p, strict, index).value.index == index
  {
    hide Verify, CheckData;
    StrictIsChecked(p, index);
  }

  /**
   * Signing is total: when the declared count is the number of inputs, a complete set holds input
   * i's funding output at position i, and every digest any key could ask for is defined.
   */
  lemma SigningIsTotal(p: Psbt, tx: Transaction, all: AllSignableInputs, k: nat, leaf: Option<bytes>)
    requires Complete(p, all) && UnsignedTransaction(p) == Ok(tx)
    requires p.global.inputCount == |p.inputs| && k < |p.inputs|
    ensures |all.inputs| == |all.prevouts| == |p.inputs|
    ensures FundingUtxo(p.inputs[k]) == Ok(all.prevouts[k])
    ensures all.inputs[k].outputType == Tr ==> TaprootDigest(tx, all.inputs[k], all.prevouts, leaf).Some?
    ensures all.inputs[k].outputType != Tr ==> EcdsaDigest(tx, all.inputs[k]).Some?
  {
    hide CheckData, TaprootDigest, EcdsaDigest, UnsignedTransaction;
    assert Holds(p, all, k);
    EvidenceMeans(p, all.inputs[k]);
    if all.inputs[k].outputType == Tr { TaprootIsTotal(p, tx, all.inputs[k], all.prevouts, leaf); }
    else { EcdsaIsTotal(p, tx, all.inputs[k]); }
  }

  /**
   * Without that agreement a complete set need not be one: it exists only for counts up to the
   * length, and below it exactly the taproot inputs that are not ANYONECANPAY cannot be signed.
   */
  lemma CountBelowLength(p: Psbt, tx: Transaction, all: AllSignableInputs, k: nat, leaf: Option<bytes>)
    requires Complete(p, all) && UnsignedTransaction(p) == Ok(tx) && k < |all.inputs|
    ensures p.global.inputCount <= |p.inputs|
    ensures all.inputs[k].outputType == Tr && p.global.inputCount < |p.inputs| ==>
      (TaprootDigest(tx, all.inputs[k], all.prevouts, leaf).None? <==> !Sighash.IsAnyoneCanPay(all.inputs[k].sighash))
  {
    hide CheckData, TaprootDigest, EcdsaDigest, UnsignedTransaction, Sighash.IsAnyoneCanPay, Sighash.TapValid,
         TakesOnePrevout;
    var last := p.global.inputCount - 1;
    assert Holds(p, all, k) && Holds(p, all, last);
    EvidenceMeans(p, all.inputs[last]);
    EvidenceMeans(p, all.inputs[k]);
    if all.inputs[k].outputType == Tr {
      AnyoneCanPayIsOnePrevout(all.inputs[k].sighash);
      TaprootIsTotal(p, tx, all.inputs[k], all.prevouts, leaf);
    }
  }
}
