/** The output an input spends, as far as the PSBT vouches for it. */
module Funding {
  import opened Bytes
  import opened Bitcoin
  import I = Input
  import Scripts

  datatype FundingUtxoError = MissingUtxo | MismatchingTxid | MismatchingUtxos | UnverifiableUtxo | OutOfBounds

  function FundingUtxo(i: I.Input): Result<TxOut, FundingUtxoError> {
    match i.fields.nonWitnessUtxo
    case None => if i.fields.witnessUtxo.Some? then Ok(i.fields.witnessUtxo.value) else Err(MissingUtxo)
    case Some(tx) =>
      if CRYPTO.txid(tx) != i.previousTxid then Err(MismatchingTxid)
      else if i.spentOutputIndex >= |tx.outputs| then Err(OutOfBounds)
      else if i.fields.witnessUtxo.Some? && tx.outputs[i.spentOutputIndex] != i.fields.witnessUtxo.value
      then Err(MismatchingUtxos)
      else Ok(tx.outputs[i.spentOutputIndex])
  }

  /** Without the full transaction only a taproot output is taken, whose signature commits to it. */
  function FundingUtxoUntrusted(i: I.Input): Result<TxOut, FundingUtxoError> {
    if i.fields.witnessUtxo.Some? && i.fields.nonWitnessUtxo.None? && !Scripts.IsP2tr(i.fields.witnessUtxo.value.scriptPubkey)
    then Err(UnverifiableUtxo)
    else FundingUtxo(i)
  }

  /** `o` is the output of a transaction with the txid the input names, at the position it names. */
  ghost predicate Attested(i: I.Input, o: TxOut) {
    exists tx: Transaction :: CRYPTO.txid(tx) == i.previousTxid && i.spentOutputIndex < |tx.outputs|
      && tx.outputs[i.spentOutputIndex] == o
  }

  /**
   * What the accessor returns is the spent output of the named transaction or an unattested witness
   * output, never against the other record; the strict accessor takes the latter for taproot only.
   */
  lemma FundingIsAttested(i: I.Input, o: TxOut)
    ensures FundingUtxo(i) == Ok(o) ==>
              && (i.fields.witnessUtxo.Some? ==> i.fields.witnessUtxo.value == o)
              && (i.fields.nonWitnessUtxo.Some? ==> Attested(i, o))
              && (i.fields.nonWitnessUtxo.Some? || i.fields.witnessUtxo.Some?)
    ensures FundingUtxoUntrusted(i) == Ok(o) <==>
              FundingUtxo(i) == Ok(o) && (i.fields.nonWitnessUtxo.Some? || Scripts.IsP2tr(o.scriptPubkey))
    ensures FundingUtxoUntrusted(i).Ok? ==> FundingUtxoUntrusted(i) == FundingUtxo(i)
  {
  }

  /**
   * Exactly when there is a funding output, and which: that of the full transaction if it is the one
   * named, has the output named and no witness record disagrees; the witness record alone if there
   * is no full transaction. All else is one of four errors.
   */
  lemma FundingExact(i: I.Input, o: TxOut)
    ensures FundingUtxo(i) == Ok(o) <==> match i.fields.nonWitnessUtxo
      case None => i.fields.witnessUtxo == Some(o)
      case Some(tx) =>
        && CRYPTO.txid(tx) == i.previousTxid && i.spentOutputIndex < |tx.outputs|
        && tx.outputs[i.spentOutputIndex] == o
        && (i.fields.witnessUtxo == None || i.fields.witnessUtxo == Some(o))
    ensures FundingUtxo(i) == Err(MissingUtxo) <==> i.fields.nonWitnessUtxo == None && i.fields.witnessUtxo == None
    ensures FundingUtxo(i) == Err(MismatchingTxid) <==>
      i.fields.nonWitnessUtxo.Some? && CRYPTO.txid(i.fields.nonWitnessUtxo.value) != i.previousTxid
    ensures FundingUtxo(i) == Err(OutOfBounds) <==>
      && i.fields.nonWitnessUtxo.Some? && CRYPTO.txid(i.fields.nonWitnessUtxo.value) == i.previousTxid
      && i.spentOutputIndex >= |i.fields.nonWitnessUtxo.value.outputs|
    ensures FundingUtxo(i) != Err(UnverifiableUtxo)
    ensures FundingUtxoUntrusted(i) == Err(UnverifiableUtxo) <==>
      && i.fields.nonWitnessUtxo == None && i.fields.witnessUtxo.Some?
      && !Scripts.IsP2tr(i.fields.witnessUtxo.value.scriptPubkey)
  {
    hide Scripts.IsP2tr;
  }

  /** The same outpoint and the same two UTXO records. */
  predicate SameFunding(i: I.Input, j: I.Input) {
    && i.previousTxid == j.previousTxid && i.spentOutputIndex == j.spentOutputIndex
    && i.fields.witnessUtxo == j.fields.witnessUtxo && i.fields.nonWitnessUtxo == j.fields.nonWitnessUtxo
  }

  /** Nothing else decides the funding output, or its failure. */
  lemma SameFundingUtxo(i: I.Input, j: I.Input)
    requires SameFunding(i, j)
    ensures FundingUtxo(i) == FundingUtxo(j) && FundingUtxoUntrusted(i) == FundingUtxoUntrusted(j)
  {
  }
}
