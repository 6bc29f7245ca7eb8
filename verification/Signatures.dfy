/**
 * What the signatures of a session are: which keys made them and which digests they cover, in terms
 * of the input's fields, the output it spends and the key provider's own answers.
 */
module Signatures {
  import opened Bytes
  import opened Bitcoin
  import opened Scripts
  import opened Funding
  import opened Psbt
  import opened Transactions
  import opened Signable
  import opened Session
  import I = Input

  /** The key a provider holds: by derivation, or by name where it has none by derivation. */
  predicate Holds(keys: KeyProvider, source: KeySource, named: KeyRequest, key: SecretKey) {
    keys(Bip32(source)) == Some(key) || (keys(Bip32(source)) == None && keys(named) == Some(key))
  }

  lemma KeyForHolds(keys: KeyProvider, source: KeySource, named: KeyRequest)
    ensures forall key :: Holds(keys, source, named, key) <==> KeyFor(keys, source, named) == Some(key)
  {
  }

  /**
   * What an ECDSA signature over an input must cover, by the template of the output it spends: witness
   * programs, native or wrapped, commit to the amount; everything else is signed the legacy way.
   */
  function Covered(tx: Transaction, index: nat, i: I.Input, o: TxOut, sighash: nat): Option<bytes> {
    var spk, redeem, script := o.scriptPubkey, i.fields.redeemScript, i.fields.witnessScript;
    if IsP2wpkh(spk) then Some(SIGNING.segwitDigest(tx, index, spk, o.value, sighash))
    else if IsP2wsh(spk) then
      if script.Some? then Some(SIGNING.segwitDigest(tx, index, script.value, o.value, sighash)) else None
    else if IsP2sh(spk) then
      if redeem.None? then None
      else if IsP2wpkh(redeem.value) then Some(SIGNING.segwitDigest(tx, index, redeem.value, o.value, sighash))
      else if IsP2wsh(redeem.value) then
        if script.Some? then Some(SIGNING.segwitDigest(tx, index, script.value, o.value, sighash)) else None
      else Some(SIGNING.legacyDigest(tx, index, redeem.value, sighash))
    else Some(SIGNING.legacyDigest(tx, index, spk, sighash))
  }

  /** Evidence fixes the digest: the scripts it needs are there, and it is the one the template asks for. */
  lemma DigestIsCovered(p: Psbt, tx: Transaction, s: SignableInput)
    requires Issued(p, s) && UnsignedTransaction(p) == Ok(tx) && s.outputType != Tr
    ensures s.index < |p.inputs| && FundingUtxo(p.inputs[s.index]) == Ok(s.prevout)
    ensures s.sighash == TypeOr(p.inputs[s.index], 1)
    ensures Covered(tx, s.index, p.inputs[s.index], s.prevout, s.sighash).Some?
    ensures EcdsaDigest(tx, s) == Covered(tx, s.index, p.inputs[s.index], s.prevout, s.sighash)
  {
    hide CheckData, FundingUtxo, UnsignedTransaction, IsP2wpkh, IsP2wsh, IsP2sh, IsP2tr, IsWitnessProgram, OutputTypeOf;
    EvidenceMeans(p, s);
    EcdsaIsTotal(p, tx, s);
    TypesExact(p.inputs[s.index], s.prevout.scriptPubkey);
    Templates(s.prevout.scriptPubkey, None);
    if p.inputs[s.index].fields.redeemScript.Some? { Templates(p.inputs[s.index].fields.redeemScript.value, None); }
  }

  /** An ECDSA entry made with a held key of the input over the digest its output asks for. */
  ghost predicate EcdsaMade(tx: Transaction, index: nat, i: I.Input, o: TxOut, keys: KeyProvider, e: EcdsaEntry) {
    var sighash := TypeOr(i, 1);
    Covered(tx, index, i, o, sighash).Some?
    && exists d, key ::
      && d in i.fields.bip32Derivations && Holds(keys, i.fields.bip32Derivations[d], Pubkey(d), key)
      && e == (SIGNING.publicKey(key),
               EcdsaSig(SIGNING.ecdsa(Covered(tx, index, i, o, sighash).value, key), sighash))
  }

  lemma DueIsMade(i: I.Input, digest: bytes, sighash: nat, keys: KeyProvider, e: EcdsaEntry)
    ensures EcdsaDue(i.fields, digest, sighash, keys, e) <==> exists d, key ::
      && d in i.fields.bip32Derivations && Holds(keys, i.fields.bip32Derivations[d], Pubkey(d), key)
      && e == (SIGNING.publicKey(key), EcdsaSig(SIGNING.ecdsa(digest, key), sighash))
  {
    if EcdsaDue(i.fields, digest, sighash, keys, e) {
      var d :| d in i.fields.bip32Derivations && EcdsaFrom(i.fields.bip32Derivations[d], d, digest, sighash, keys, e);
      var key := KeyFor(keys, i.fields.bip32Derivations[d], Pubkey(d)).value;
      assert Holds(keys, i.fields.bip32Derivations[d], Pubkey(d), key);
    }
    forall d, key |
      && d in i.fields.bip32Derivations && Holds(keys, i.fields.bip32Derivations[d], Pubkey(d), key)
      && e == (SIGNING.publicKey(key), EcdsaSig(SIGNING.ecdsa(digest, key), sighash))
      ensures EcdsaDue(i.fields, digest, sighash, keys, e)
    {
      assert EcdsaFrom(i.fields.bip32Derivations[d], d, digest, sighash, keys, e);
    }
  }

  /**
   * The ECDSA signatures of a session: for an input that does not spend taproot, exactly one made
   * with each key held for one of its derivations, over the digest the spent output's template asks
   * for, of the declared type or SIGHASH_ALL.
   */
  lemma EcdsaSignaturesAre(p: Psbt, tx: Transaction, s: SignableInput, all: seq<TxOut>, keys: KeyProvider, r: InputSigs)
    requires Issued(p, s) && UnsignedTransaction(p) == Ok(tx) && SignedExactly(p, tx, s, all, keys, r)
    ensures s.index < |p.inputs| && r.index == s.index && FundingUtxo(p.inputs[s.index]) == Ok(s.prevout)
    ensures r.signatures.EcdsaSigs? <==> !IsP2tr(s.prevout.scriptPubkey)
    ensures r.signatures.EcdsaSigs? ==> forall e ::
      e in r.signatures.ecdsa <==> EcdsaMade(tx, s.index, p.inputs[s.index], s.prevout, keys, e)
  {
    hide CheckData, FundingUtxo, UnsignedTransaction, IsP2tr, OutputTypeOf, EcdsaDigest, TaprootDigest, Covered,
         EcdsaDue, TaprootDue, EcdsaOnce, TaprootOnce, Holds, TypeOr;
    EvidenceMeans(p, s);
    TypeIsTaproot(p.inputs[s.index], s.prevout.scriptPubkey);
    if s.outputType != Tr {
      DigestIsCovered(p, tx, s);
      forall e ensures e in r.signatures.ecdsa <==> EcdsaMade(tx, s.index, p.inputs[s.index], s.prevout, keys, e) {
        DueIsMade(p.inputs[s.index], EcdsaDigest(tx, s).value, s.sighash, keys, e);
      }
    }
  }

  /* ----- taproot ----- */

  /** ANYONECANPAY types see the input's own previous output, all others those of every input. */
  function PrevoutsFor(index: nat, o: TxOut, all: seq<TxOut>, sighash: nat): Prevouts {
    if sighash == 0x81 || sighash == 0x82 || sighash == 0x83 then OnePrevout(index, o) else AllPrevouts(all)
  }

  lemma TaprootDigestIs(tx: Transaction, s: SignableInput, all: seq<TxOut>, leaf: Option<bytes>)
    requires TaprootDigest(tx, s, all, leaf).Some?
    ensures TaprootDigest(tx, s, all, leaf).value
         == SIGNING.taprootDigest(tx, s.index, PrevoutsFor(s.index, s.prevout, all, s.sighash), leaf, s.sighash)
  {
  }

  /**
   * A taproot entry made with a held key of the input: by its internal key, tweaked, over no leaf, where
   * the key stands for no leaves and the path is unsigned; or over one of the key's unsigned leaves.
   */
  ghost predicate TaprootMade(tx: Transaction, index: nat, i: I.Input, o: TxOut, all: seq<TxOut>, keys: KeyProvider,
                              e: TaprootEntry)
  {
    var sighash, f := TypeOr(i, 0), i.fields;
    var prevouts := PrevoutsFor(index, o, all, sighash);
    e.1.sighash == sighash &&
    match e.0
    case KeyPath(x) =>
      && x in f.tapKeyOrigins && f.tapKeyOrigins[x].leafHashes == []
      && f.tapInternalKey == Some(x) && f.tapKeySig == None
      && (exists key :: Holds(keys, f.tapKeyOrigins[x].source, XOnlyPubkey(x), key)
            && e.1.sig == SIGNING.schnorr(SIGNING.taprootDigest(tx, index, prevouts, None, sighash),
                                          SIGNING.tweak(key, f.tapMerkleRoot)))
    case ScriptPath(x, leaf) =>
      && x in f.tapKeyOrigins && leaf in f.tapKeyOrigins[x].leafHashes && x + leaf !in f.tapScriptSigs
      && (exists key :: Holds(keys, f.tapKeyOrigins[x].source, XOnlyPubkey(x), key)
            && e.1.sig == SIGNING.schnorr(SIGNING.taprootDigest(tx, index, prevouts, Some(leaf), sighash), key))
  }

  lemma TaprootDueIsMade(tx: Transaction, s: SignableInput, i: I.Input, all: seq<TxOut>, keys: KeyProvider,
                         e: TaprootEntry)
    requires JobDefined(TaprootJob(tx, s, all)) && s.sighash == TypeOr(i, 0)
    ensures TaprootDue(i.fields, TaprootJob(tx, s, all), keys, e) <==>
      TaprootMade(tx, s.index, i, s.prevout, all, keys, e)
  {
    hide TaprootDigest, PrevoutsFor, TypeOr, Holds, KeyFor;
    var f, x := i.fields, KeyIn(e);
    TaprootDigestIs(tx, s, all, None);
    if e.0.ScriptPath? { TaprootDigestIs(tx, s, all, Some(e.0.leafHash)); }
    if x in f.tapKeyOrigins { KeyForHolds(keys, f.tapKeyOrigins[x].source, XOnlyPubkey(x)); }
  }

  /**
   * The taproot signatures of a session: for an input that spends taproot, exactly the entries made
   * with its held keys, each over its own leaf or none, and over one or all previous outputs as the
   * declared type, or the default of zero, says.
   */
  lemma TaprootSignaturesAre(p: Psbt, tx: Transaction, s: SignableInput, all: seq<TxOut>, keys: KeyProvider,
                             r: InputSigs)
    requires Issued(p, s) && UnsignedTransaction(p) == Ok(tx) && SignedExactly(p, tx, s, all, keys, r)
    ensures s.index < |p.inputs| && r.index == s.index && FundingUtxo(p.inputs[s.index]) == Ok(s.prevout)
    ensures r.signatures.TaprootSigs? <==> IsP2tr(s.prevout.scriptPubkey)
    ensures r.signatures.TaprootSigs? ==> forall e ::
      e in r.signatures.taproot <==> TaprootMade(tx, s.index, p.inputs[s.index], s.prevout, all, keys, e)
  {
    hide CheckData, FundingUtxo, UnsignedTransaction, IsP2tr, OutputTypeOf, EcdsaDigest, TaprootDigest, JobDefined,
         EcdsaDue, TaprootDue, TaprootMade, EcdsaOnce, TaprootOnce;
    EvidenceMeans(p, s);
    TypeIsTaproot(p.inputs[s.index], s.prevout.scriptPubkey);
    if s.outputType == Tr {
      forall e ensures e in r.signatures.taproot <==>
          TaprootMade(tx, s.index, p.inputs[s.index], s.prevout, all, keys, e)
      {
        TaprootDueIsMade(tx, s, p.inputs[s.index], all, keys, e);
      }
    }
  }
}
