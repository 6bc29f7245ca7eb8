/** The transactions a PSBT stands for. */
module Transactions {
  import opened Bytes
  import opened Bitcoin
  import opened LockTime
  import opened Psbt
  import I = Input
  import O = Output

  function LockTimeOf(p: Psbt): Result<nat, LockTimeError> {
    DetermineLockTime(p.global.fallbackLockTime, p.inputs)
  }

  function OutPointOf(i: I.Input): OutPoint { OutPoint(i.previousTxid, i.spentOutputIndex) }

  function SequenceOf(i: I.Input): nat { if i.sequence.Some? then i.sequence.value else SEQUENCE_MAX }

  function UnsignedTxIn(i: I.Input): TxIn { TxIn(OutPointOf(i), [], SequenceOf(i), []) }

  function TxOutOf(o: O.Output): TxOut { TxOut(o.amount, o.scriptPubkey) }

  /** The output that identifies a PSBT: silent payment info stands in for a script not yet derived (BIP-375). */
  function IdTxOut(o: O.Output): TxOut {
    if o.fields.spV0Info.Some? then TxOut(o.amount, [0] + o.fields.spV0Info.value) else TxOutOf(o)
  }

  function UnsignedTxIns(ins: seq<I.Input>): seq<TxIn> {
    seq(|ins|, i requires 0 <= i < |ins| => UnsignedTxIn(ins[i]))
  }

  function TxOuts(outs: seq<O.Output>): seq<TxOut> {
    seq(|outs|, i requires 0 <= i < |outs| => TxOutOf(outs[i]))
  }

  function UnsignedTransaction(p: Psbt): Result<Transaction, LockTimeError> {
    match LockTimeOf(p)
    case Err(e) => Err(e)
    case Ok(lock) => Ok(Transaction(p.global.txVersion, lock, UnsignedTxIns(p.inputs), TxOuts(p.outputs)))
  }

  /** The unique identification: updaters may change sequences, so they count as zero. */
  function Id(p: Psbt): Result<bytes, LockTimeError> {
    match UnsignedTransaction(p)
    case Err(e) => Err(e)
    case Ok(tx) =>
      Ok(CRYPTO.txid(IdTransaction(p, tx)))
  }

  function IdTransaction(p: Psbt, tx: Transaction): Transaction {
    tx.(inputs := seq(|tx.inputs|, i requires 0 <= i < |tx.inputs| => tx.inputs[i].(sequence := 0)),
        outputs := seq(|p.outputs|, i requires 0 <= i < |p.outputs| => IdTxOut(p.outputs[i])))
  }

  /** Nothing the id commits to has changed: sequences may differ, and scripts of silent payments. */
  predicate SameIdentity(p: Psbt, q: Psbt) {
    && p.global.txVersion == q.global.txVersion && p.global.fallbackLockTime == q.global.fallbackLockTime
    && |p.inputs| == |q.inputs| && |p.outputs| == |q.outputs|
    && (forall i | 0 <= i < |p.inputs| :: SameSpend(p.inputs[i], q.inputs[i]))
    && (forall i | 0 <= i < |p.outputs| :: SamePay(p.outputs[i], q.outputs[i]))
  }

  predicate SameSpend(i: I.Input, j: I.Input) {
    OutPointOf(i) == OutPointOf(j) && i.minTime == j.minTime && i.minHeight == j.minHeight
  }

  predicate SamePay(o: O.Output, q: O.Output) {
    o.amount == q.amount && o.fields.spV0Info == q.fields.spV0Info
    && (o.fields.spV0Info.None? ==> o.scriptPubkey == q.scriptPubkey)
  }

  /** The id survives what an Updater may do to sequences and to the scripts of silent payments. */
  lemma IdIsStable(p: Psbt, q: Psbt)
    requires SameIdentity(p, q)
    ensures Id(p) == Id(q)
  {
    hide DetermineLockTime;
    OnlyRequirementsMatter(p.global.fallbackLockTime, p.inputs, q.inputs);
    if UnsignedTransaction(p).Ok? {
      var t, u := UnsignedTransaction(p).value, UnsignedTransaction(q).value;
      forall i | 0 <= i < |p.inputs| ensures t.inputs[i].(sequence := 0) == u.inputs[i].(sequence := 0) {
        assert SameSpend(p.inputs[i], q.inputs[i]);
      }
      assert IdTransaction(p, t) == IdTransaction(q, u) by {
        assert IdTransaction(p, t).inputs == IdTransaction(q, u).inputs;
        assert IdTransaction(p, t).outputs == IdTransaction(q, u).outputs;
      }
    }
  }

  /**
   * And commits to amounts, silent payment addresses, and the scripts of all other outputs: two
   * outputs count as the same exactly if they pay the same, or if the one without silent payment
   * info has the other's info behind a zero byte for its script.
   */
  lemma IdCommits(o: O.Output, q: O.Output)
    ensures IdTxOut(o) == IdTxOut(q) <==> SamePay(o, q) || Mimics(o, q) || Mimics(q, o)
  {
    var x, y := IdTxOut(o).scriptPubkey, IdTxOut(q).scriptPubkey;
    if o.fields.spV0Info.Some? && q.fields.spV0Info.Some? {
      assert x[1..] == o.fields.spV0Info.value && y[1..] == q.fields.spV0Info.value;
    }
  }

  /** An ordinary output whose script is what stands in for the other's silent payment address. */
  predicate Mimics(o: O.Output, q: O.Output) {
    && o.amount == q.amount && o.fields.spV0Info.None? && q.fields.spV0Info.Some?
    && o.scriptPubkey == [0] + q.fields.spV0Info.value
  }

  /* ----- what the transactions are made of ----- */

  /** The unsigned transaction, field by field; an input without a sequence is final. */
  lemma UnsignedIs(p: Psbt, tx: Transaction)
    ensures UnsignedTransaction(p) == Ok(tx) <==>
      && tx.version == p.global.txVersion && LockTimeOf(p) == Ok(tx.lockTime)
      && |tx.inputs| == |p.inputs| && |tx.outputs| == |p.outputs|
      && (forall k | 0 <= k < |p.inputs| :: tx.inputs[k] ==
            TxIn(OutPoint(p.inputs[k].previousTxid, p.inputs[k].spentOutputIndex), [],
                 if p.inputs[k].sequence.Some? then p.inputs[k].sequence.value else 0xFFFF_FFFF, []))
      && (forall k | 0 <= k < |p.outputs| :: tx.outputs[k] == TxOut(p.outputs[k].amount, p.outputs[k].scriptPubkey))
    ensures UnsignedTransaction(p).Ok? <==> LockTimeOf(p).Ok?
    ensures LockTimeOf(p).Err? ==> UnsignedTransaction(p) == Err(LockTimeOf(p).error)
  {
    hide DetermineLockTime;
    if LockTimeOf(p).Ok? {
      var t := UnsignedTransaction(p).value;
      if |tx.inputs| == |p.inputs| && forall k | 0 <= k < |p.inputs| :: tx.inputs[k] == t.inputs[k] {
        assert tx.inputs == t.inputs;
      }
      if |tx.outputs| == |p.outputs| && forall k | 0 <= k < |p.outputs| :: tx.outputs[k] == t.outputs[k] {
        assert tx.outputs == t.outputs;
      }
    }
  }

  /** The transaction an id is the txid of. */
  predicate Identifies(p: Psbt, t: Transaction) {
    && t.version == p.global.txVersion && LockTimeOf(p) == Ok(t.lockTime)
    && |t.inputs| == |p.inputs| && |t.outputs| == |p.outputs|
    && (forall k | 0 <= k < |p.inputs| ::
          t.inputs[k] == TxIn(OutPoint(p.inputs[k].previousTxid, p.inputs[k].spentOutputIndex), [], 0, []))
    && (forall k | 0 <= k < |p.outputs| :: IdentifiesOutput(p.outputs[k], t.outputs[k]))
  }

  predicate IdentifiesOutput(o: O.Output, t: TxOut) {
    && t.value == o.amount
    && t.scriptPubkey == if o.fields.spV0Info.Some? then [0] + o.fields.spV0Info.value else o.scriptPubkey
  }

  /** The id is the txid of one transaction: all inputs in order, each with sequence zero and unsigned. */
  lemma IdIs(p: Psbt)
    ensures Id(p).Ok? <==> LockTimeOf(p).Ok?
    ensures LockTimeOf(p).Err? ==> Id(p) == Err(LockTimeOf(p).error)
    ensures Id(p).Ok? ==> exists t :: Identifies(p, t)
    ensures forall t | Identifies(p, t) :: Id(p) == Ok(CRYPTO.txid(t))
  {
    hide DetermineLockTime;
    if LockTimeOf(p).Ok? {
      var u := IdTransaction(p, UnsignedTransaction(p).value);
      assert Identifies(p, u);
      forall t | Identifies(p, t) ensures t == u {
        assert t.inputs == u.inputs;
        forall k | 0 <= k < |p.outputs| ensures t.outputs[k] == u.outputs[k] {
          assert IdentifiesOutput(p.outputs[k], t.outputs[k]);
        }
        assert t.outputs == u.outputs;
      }
    }
  }

  /**
   * What an id commits to: two PSBTs are identified by the same transaction exactly if versions,
   * resolved lock times and the outpoints spent agree, in order, and their outputs are pairwise alike.
   */
  lemma IdentifiedAlike(p: Psbt, q: Psbt)
    requires LockTimeOf(p).Ok? && LockTimeOf(q).Ok?
    ensures (exists t :: Identifies(p, t) && Identifies(q, t)) <==> SpendsAlike(p, q) && PaysAlike(p, q)
  {
    hide DetermineLockTime;
    var u := IdTransaction(p, UnsignedTransaction(p).value);
    assert Identifies(p, u);
    if SpendsAlike(p, q) && PaysAlike(p, q) {
      forall k | 0 <= k < |q.outputs| ensures IdentifiesOutput(q.outputs[k], u.outputs[k]) {
        OutputsIdentified(p.outputs[k], q.outputs[k], u.outputs[k]);
      }
      assert Identifies(q, u);
    }
    forall t | Identifies(p, t) && Identifies(q, t) ensures SpendsAlike(p, q) && PaysAlike(p, q) {
      forall k | 0 <= k < |p.inputs| ensures OutPointOf(p.inputs[k]) == OutPointOf(q.inputs[k]) {
        assert t.inputs[k].previousOutput == OutPointOf(p.inputs[k]);
      }
      forall k | 0 <= k < |p.outputs| ensures PayAlike(p.outputs[k], q.outputs[k]) {
        assert IdentifiesOutput(p.outputs[k], t.outputs[k]);
        OutputsIdentified(p.outputs[k], q.outputs[k], t.outputs[k]);
      }
    }
  }

  predicate SpendsAlike(p: Psbt, q: Psbt) {
    && p.global.txVersion == q.global.txVersion && LockTimeOf(p) == LockTimeOf(q)
    && |p.inputs| == |q.inputs|
    && forall k | 0 <= k < |p.inputs| ::
      && p.inputs[k].previousTxid == q.inputs[k].previousTxid
      && p.inputs[k].spentOutputIndex == q.inputs[k].spentOutputIndex
  }

  predicate PaysAlike(p: Psbt, q: Psbt) {
    |p.outputs| == |q.outputs| && forall k | 0 <= k < |p.outputs| :: PayAlike(p.outputs[k], q.outputs[k])
  }

  predicate PayAlike(o: O.Output, q: O.Output) { SamePay(o, q) || Mimics(o, q) || Mimics(q, o) }

  lemma OutputsIdentified(o: O.Output, q: O.Output, t: TxOut)
    requires IdentifiesOutput(o, t)
    ensures IdentifiesOutput(q, t) <==> PayAlike(o, q)
  {
    IdCommits(o, q);
    assert IdTxOut(o) == t;
  }
}
