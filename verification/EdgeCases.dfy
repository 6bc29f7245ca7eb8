/** Concrete PSBTs on which the version-0 round trip fails and on which signing panics. */
module EdgeCases {
  import opened Bytes
  import opened CompactSize
  import opened Bitcoin
  import opened Formats
  import opened Values
  import opened ValueCodecs
  import opened Tables
  import opened MapEncoding
  import opened LockTime
  import opened Psbt
  import opened Transactions
  import opened CombinerLimits
  import opened V0
  import Scripts
  import Sighash
  import Signable
  import I = Input

  /* ----- a preimage does not survive version 0 ----- */

  function WithPreimage(): I.InputFields { NoFields().(ripemd160Preimages := map[LE(0, 20) := []]) }

  function Hashed(): Psbt { Psbt(Shell([SomeIn()], 0), [Spending(WithPreimage())], []) }

  lemma PreimageRule()
    ensures RuleOf(InputV2, Key(RIPEMD160, LE(0, 20))) == Accept(BytesCodec, HashData(20))
  {
  }

  lemma NoBytes()
    ensures ValueOk(BytesCodec, Blob([]))
  {
    assert Enc(BytesCodec, Blob([])) == [];
  }

  lemma PreimageEntry()
    ensures EntryOk(InputV2, Key(RIPEMD160, LE(0, 20)), Blob([]))
  {
    assert |KeyBody(Key(RIPEMD160, LE(0, 20)))| == 21;
    PreimageRule();
    NoBytes();
    hide RuleOf, ValueOk, KeyBody, LE;
  }

  lemma OnlyThePreimage(k: Key)
    requires I.FieldsSlot(WithPreimage(), k).Some?
    ensures k == Key(RIPEMD160, LE(0, 20)) && I.FieldsSlot(WithPreimage(), k) == Some(Blob([]))
  {
    assert k == Key(k.keyType, k.data);
  }

  lemma SpendingPreimageOk()
    ensures I.InputOk(Spending(WithPreimage()))
  {
    var i := Spending(WithPreimage());
    assert I.UnknownsOk(i.fields, false) && SpendOk(i);
    PreimageEntry();
    hide I.InputOk, I.FieldsSlot, EntryOk, I.UnknownsOk, WithPreimage;
    forall k: Key | I.FieldsSlot(i.fields, k).Some? ensures EntryOk(InputV2, k, I.FieldsSlot(i.fields, k).value) {
      OnlyThePreimage(k);
    }
    assert i.fields.spEcdhShares == map[] && i.fields.nonWitnessUtxo.None? by { PreimageRest(); }
    SpendingOk(i);
  }

  lemma PreimageRest()
    ensures var f := WithPreimage(); f.spEcdhShares == map[] && f.spDleqProofs == map[] && f.nonWitnessUtxo.None?
  {
  }

  lemma HashedOk()
    ensures PsbtOk(Hashed())
  {
    hide PsbtOk, I.InputOk, Shell, SomeIn, Spending, WithPreimage, UnsignedInsOk;
    SpendingPreimageOk();
    SomeInsOk();
    ListedOk([SomeIn()], [Spending(WithPreimage())]);
  }

  lemma HashedIsRefused()
    ensures FromPsbt(Hashed()).Ok? && !Demotable(Hashed())
  {
    var p := Hashed();
    FailsIffNothingFits(p.global.fallbackLockTime, p.inputs);
    assert p.inputs == [Spending(WithPreimage())];
    assert LE(0, 20) in WithPreimage().ripemd160Preimages;
    assert !InputSurvives(p.inputs[0]);
  }

  lemma OneInputSize(u: UnsignedIn)
    requires |u.txid| == 32
    ensures |RawTxInFormat().enc(RawTxIn(u, []))| == 41
  {
    assert Prefixed([]) == [0];
    var parts := Formats.Pair(Formats.Pair(Fixed(32), U32Format()), Formats.Pair(ByteVec(), U32Format()));
    assert RawTxInFormat().enc(RawTxIn(u, [])) == parts.enc(((u.txid, u.vout), ([], u.sequence)));
  }

  lemma InsSize(u: UnsignedIn)
    requires |u.txid| == 32
    ensures |UnsignedInsFormat().enc([u])| == 42
  {
    var raw := [RawTxIn(u, [])];
    OneInputSize(u);
    assert WithEmptyScripts([u]) == raw;
    assert UnsignedInsFormat().enc([u]) == Vec(RawTxInFormat()).enc(raw);
    assert raw[1..] == [];
    assert EncMany(RawTxInFormat().enc, raw) == RawTxInFormat().enc(raw[0]) + EncMany(RawTxInFormat().enc, raw[1..]);
  }

  lemma TxSize(t: UnsignedTx)
    requires |t.inputs| == 1 && |t.inputs[0].txid| == 32 && t.outputs == []
    ensures |Enc(UnsignedTxCodec, Unsigned(t))| == 51
  {
    assert t.inputs == [t.inputs[0]];
    InsSize(t.inputs[0]);
    hide UnsignedInsFormat, TxOutFormat;
    var head, tail := Formats.Pair(U32Format(), UnsignedInsFormat()), Formats.Pair(Vec(TxOutFormat()), U32Format());
    var parts := Formats.Pair(head, tail);
    assert UnsignedTxFormat().enc(t) == parts.enc(((t.version, t.inputs), (t.outputs, t.lockTime)));
    assert Vec(TxOutFormat()).enc([]) == [0];
    assert Enc(UnsignedTxCodec, Unsigned(t)) == UnsignedTxValueFormat().enc(Unsigned(t));
    assert UnsignedTxValueFormat().enc(Unsigned(t)) == UnsignedTxFormat().enc(t);
  }

  lemma HashedSize()
    requires FromPsbt(Hashed()).Ok?
    ensures EmbeddedSize(FromPsbt(Hashed()).value) < U64
  {
    hide Enc;
    TxSize(EmbeddedTx(FromPsbt(Hashed()).value));
  }

  /** A well-formed PSBT with a resolvable lock time whose version-0 bytes do not decode. */
  lemma Undecodable(c: bytes)
    ensures exists p :: PsbtOk(p) && FromPsbt(p).Ok? && !ParseV0(SerializeV0(FromPsbt(p).value) + c).Ready?
  {
    hide *;
    HashedOk();
    HashedIsRefused();
    HashedSize();
    DecodableIff(Hashed(), c);
  }

  /* ----- a count below the length ----- */

  /** A pay-to-taproot script, whatever its output key. */
  function TaprootScript(): bytes { [Scripts.OP_1, 32] + LE(0, 32) }

  function TaprootFields(): I.InputFields { NoFields().(witnessUtxo := Some(TxOut(0, TaprootScript()))) }

  /** Two taproot inputs, of which the global map declares one. */
  function Undeclared(): Psbt {
    Psbt(Shell([SomeIn()], 0), [Spending(TaprootFields()), Spending(TaprootFields())], [])
  }

  function Evidence(): Signable.SignableInput {
    Signable.SignableInput(0, Signable.Tr, TxOut(0, TaprootScript()), [], 0)
  }

  function EvidenceSet(): Signable.AllSignableInputs {
    Signable.AllSignableInputs([Evidence()], [TxOut(0, TaprootScript())])
  }

  lemma EvidenceIsIssued()
    ensures Signable.Issued(Undeclared(), Evidence())
  {
    var p := Undeclared();
    assert p.inputs[0] == Spending(TaprootFields());
    Signable.TypesExact(p.inputs[0], TaprootScript());
    Scripts.Templates(TaprootScript(), None);
  }

  lemma UndeclaredResolves()
    ensures UnsignedTransaction(Undeclared()).Ok?
  {
    var p := Undeclared();
    FailsIffNothingFits(p.global.fallbackLockTime, p.inputs);
    assert p.inputs == [Spending(TaprootFields()), Spending(TaprootFields())];
    NothingAsked(TaprootFields());
    hide Undeclared, Spending, TaprootFields, Fits, DetermineLockTime;
    assert LockTime.AllFit(p.inputs, Height);
  }

  lemma NothingAsked(f: I.InputFields)
    ensures Fits(Spending(f), Height)
  {
  }

  lemma EvidenceIsComplete()
    ensures Signable.Complete(Undeclared(), EvidenceSet()) && Undeclared().global.inputCount < |Undeclared().inputs|
  {
    EvidenceIsIssued();
    hide Signable.Issued, TaprootFields;
  }

  /**
   * Evidence for every input the global map declares, and still the default taproot digest of the
   * first one is undefined: the previous outputs are not those of all inputs.
   */
  lemma CompleteYetUnsignable()
    ensures exists p, tx, all ::
      && UnsignedTransaction(p) == Ok(tx) && p.global.inputCount < |p.inputs|
      && Signable.Complete(p, all) && |all.inputs| == 1
      && Signable.TaprootDigest(tx, all.inputs[0], all.prevouts, None).None?
  {
    UndeclaredResolves();
    EvidenceIsComplete();
    var p, tx, all := Undeclared(), UnsignedTransaction(Undeclared()).value, EvidenceSet();
    assert all.inputs[0].outputType == Signable.Tr && !Sighash.IsAnyoneCanPay(all.inputs[0].sighash);
    hide Undeclared, Signable.Complete, Signable.TaprootDigest, UnsignedTransaction;
    Signable.CountBelowLength(p, tx, all, 0, None);
  }
}
