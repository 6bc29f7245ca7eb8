/** A signing session: a frozen view of a PSBT that turns evidence and keys into signatures. */
module Session {
  import opened Bytes
  import opened Bitcoin
  import opened Scripts
  import opened Psbt
  import opened Transactions
  import opened Signable
  import MapEncoding
  import I = Input

  datatype KeyRequest = Pubkey(key: bytes) | Bip32(source: KeySource) | XOnlyPubkey(xonly: bytes)

  /** Any function at all: a provider's error counts as not having the key. */
  type KeyProvider = KeyRequest -> Option<SecretKey>

  datatype TapKeyMaterial = KeyPath(internal: bytes) | ScriptPath(xonly: bytes, leafHash: bytes)

  type EcdsaEntry = (bytes, EcdsaSig)
  type TaprootEntry = (TapKeyMaterial, TaprootSig)

  datatype TypedSigs = EcdsaSigs(ecdsa: seq<EcdsaEntry>) | TaprootSigs(taproot: seq<TaprootEntry>)

  datatype InputSigs = InputSigs(index: nat, signatures: TypedSigs)

  /** Derivation first, then the key by name. */
  function KeyFor(keys: KeyProvider, source: KeySource, named: KeyRequest): Option<SecretKey> {
    if keys(Bip32(source)).Some? then keys(Bip32(source)) else keys(named)
  }

  function SignEcdsa(digest: bytes, sighash: nat, key: SecretKey): EcdsaEntry {
    (SIGNING.publicKey(key), EcdsaSig(SIGNING.ecdsa(digest, key), sighash))
  }

  /** An entry for a key the input names and the provider holds. */
  ghost predicate EcdsaDue(f: I.InputFields, digest: bytes, sighash: nat, keys: KeyProvider, e: EcdsaEntry) {
    exists d | d in f.bip32Derivations :: EcdsaFrom(f.bip32Derivations[d], d, digest, sighash, keys, e)
  }

  ghost predicate DueOutside(f: I.InputFields, todo: set<bytes>, digest: bytes, sighash: nat, keys: KeyProvider,
                             e: EcdsaEntry) {
    exists d | d in f.bip32Derivations && d !in todo :: EcdsaFrom(f.bip32Derivations[d], d, digest, sighash, keys, e)
  }

  predicate EcdsaFrom(source: KeySource, d: bytes, digest: bytes, sighash: nat, keys: KeyProvider, e: EcdsaEntry) {
    KeyFor(keys, source, Pubkey(d)).Some? && e == SignEcdsa(digest, sighash, KeyFor(keys, source, Pubkey(d)).value)
  }

  /** What the taproot digests are taken from. */
  datatype TaprootJob = TaprootJob(tx: Transaction, input: SignableInput, prevouts: seq<TxOut>)

  ghost predicate JobDefined(job: TaprootJob) {
    forall leaf: Option<bytes> :: TaprootDigest(job.tx, job.input, job.prevouts, leaf).Some?
  }

  function JobDigest(job: TaprootJob, leaf: Option<bytes>): bytes
    requires JobDefined(job)
  {
    TaprootDigest(job.tx, job.input, job.prevouts, leaf).value
  }

  /**
   * An entry due: the key path with the input's internal key if it has no leaf hashes and the path is
   * unsigned, and every leaf of a held key that is unsigned.
   */
  ghost predicate TaprootDue(f: I.InputFields, job: TaprootJob, keys: KeyProvider, e: TaprootEntry)
    requires JobDefined(job)
  {
    match e.0
    case KeyPath(x) =>
      && KeyPathOpen(f, x) && HeldFor(f, keys, x).Some?
      && e.1 == SignTaproot(job, None, SIGNING.tweak(HeldFor(f, keys, x).value, f.tapMerkleRoot))
    case ScriptPath(x, leaf) =>
      && LeafOpen(f, x, leaf) && HeldFor(f, keys, x).Some?
      && e.1 == SignTaproot(job, Some(leaf), HeldFor(f, keys, x).value)
  }

  predicate KeyPathOpen(f: I.InputFields, x: bytes) {
    x in f.tapKeyOrigins && f.tapInternalKey == Some(x) && f.tapKeyOrigins[x].leafHashes == [] && f.tapKeySig.None?
  }

  predicate LeafOpen(f: I.InputFields, x: bytes, leaf: bytes) {
    x in f.tapKeyOrigins && leaf in f.tapKeyOrigins[x].leafHashes && x + leaf !in f.tapScriptSigs
  }

  function HeldFor(f: I.InputFields, keys: KeyProvider, x: bytes): Option<SecretKey> {
    if x in f.tapKeyOrigins then KeyFor(keys, f.tapKeyOrigins[x].source, XOnlyPubkey(x)) else None
  }

  function SignTaproot(job: TaprootJob, leaf: Option<bytes>, key: SecretKey): TaprootSig
    requires JobDefined(job)
  {
    TaprootSig(SIGNING.schnorr(JobDigest(job, leaf), key), job.input.sighash)
  }

  /* ----- how often each entry occurs ----- */

  /** What the provider signs for one derivation: one entry, or none. */
  function EcdsaOne(f: I.InputFields, digest: bytes, sighash: nat, keys: KeyProvider, d: bytes): seq<EcdsaEntry>
    requires d in f.bip32Derivations
  {
    var key := KeyFor(keys, f.bip32Derivations[d], Pubkey(d));
    if key.Some? then [SignEcdsa(digest, sighash, key.value)] else []
  }

  function EcdsaList(f: I.InputFields, digest: bytes, sighash: nat, keys: KeyProvider, ds: seq<bytes>): seq<EcdsaEntry>
    requires forall d | d in ds :: d in f.bip32Derivations
  {
    if ds == [] then []
    else EcdsaList(f, digest, sighash, keys, ds[..|ds| - 1]) + EcdsaOne(f, digest, sighash, keys, ds[|ds| - 1])
  }

  /** Every derivation is asked for once, in some order. */
  ghost predicate EcdsaOnce(f: I.InputFields, digest: bytes, sighash: nat, keys: KeyProvider, sigs: seq<EcdsaEntry>) {
    exists ds: seq<bytes> :: MapEncoding.Lists(ds, f.bip32Derivations.Keys) && sigs == EcdsaList(f, digest, sighash, keys, ds)
  }

  function LeafList(f: I.InputFields, job: TaprootJob, key: SecretKey, x: bytes, leaves: seq<bytes>): seq<TaprootEntry>
    requires JobDefined(job)
  {
    if leaves == [] then []
    else
      var leaf := leaves[|leaves| - 1];
      LeafList(f, job, key, x, leaves[..|leaves| - 1])
      + if x + leaf in f.tapScriptSigs then [] else [(ScriptPath(x, leaf), SignTaproot(job, Some(leaf), key))]
  }

  /** What one held key signs: the key path first, then its unsigned leaves as they are listed. */
  function TaprootOne(f: I.InputFields, job: TaprootJob, keys: KeyProvider, x: bytes): seq<TaprootEntry>
    requires JobDefined(job) && x in f.tapKeyOrigins
  {
    match HeldFor(f, keys, x)
    case None => []
    case Some(key) =>
      (if KeyPathOpen(f, x) then [(KeyPath(x), SignTaproot(job, None, SIGNING.tweak(key, f.tapMerkleRoot)))] else [])
      + LeafList(f, job, key, x, f.tapKeyOrigins[x].leafHashes)
  }

  function TaprootList(f: I.InputFields, job: TaprootJob, keys: KeyProvider, xs: seq<bytes>): seq<TaprootEntry>
    requires JobDefined(job) && forall x | x in xs :: x in f.tapKeyOrigins
  {
    if xs == [] then [] else TaprootList(f, job, keys, xs[..|xs| - 1]) + TaprootOne(f, job, keys, xs[|xs| - 1])
  }

  ghost predicate TaprootOnce(f: I.InputFields, job: TaprootJob, keys: KeyProvider, sigs: seq<TaprootEntry>)
    requires JobDefined(job)
  {
    exists xs: seq<bytes> :: MapEncoding.Lists(xs, f.tapKeyOrigins.Keys) && sigs == TaprootList(f, job, keys, xs)
  }

  lemma ListsOne(l: seq<bytes>, s: set<bytes>, x: bytes)
    requires MapEncoding.Lists(l, s) && x !in s
    ensures MapEncoding.Lists(l + [x], s + {x}) && (l + [x])[..|l|] == l
  {
    forall i, j | 0 <= i < j < |l + [x]| ensures (l + [x])[i] != (l + [x])[j] {
      if j == |l| { assert l[i] in s; }
    }
  }

  /** Signatures that are exactly those due for one input, each derivation asked for once, in some order. */
  ghost predicate SignedExactly(p: Psbt, tx: Transaction, s: SignableInput, all: seq<TxOut>, keys: KeyProvider,
                                r: InputSigs) {
    && r.index == s.index && s.index < |p.inputs|
    && var f := p.inputs[s.index].fields;
      if s.outputType == Tr then
        var job := TaprootJob(tx, s, all);
        && r.signatures.TaprootSigs? && JobDefined(job)
        && (forall e :: e in r.signatures.taproot <==> TaprootDue(f, job, keys, e))
        && TaprootOnce(f, job, keys, r.signatures.taproot)
      else
        && r.signatures.EcdsaSigs? && EcdsaDigest(tx, s).Some?
        && (forall e :: e in r.signatures.ecdsa <==> EcdsaDue(f, EcdsaDigest(tx, s).value, s.sighash, keys, e))
        && EcdsaOnce(f, EcdsaDigest(tx, s).value, s.sighash, keys, r.signatures.ecdsa)
  }

  datatype SigningSession = SigningSession(psbt: Psbt, tx: Transaction) {
    /** The cached transaction is the one the PSBT stands for. */
    predicate Valid() { UnsignedTransaction(psbt) == Ok(tx) }

    /** Evidence that these previous outputs suffice for. */
    predicate Suffices(s: SignableInput, all: seq<TxOut>) {
      Issued(psbt, s) && (s.outputType == Tr ==> TakesOnePrevout(s.sighash) || |all| == |psbt.inputs|)
    }

    method GetInputSigs(s: SignableInput, keys: KeyProvider) returns (r: InputSigs)
      requires Valid() && Standalone(psbt, s)
      ensures SignedExactly(psbt, tx, s, [], keys, r)
    {
      StandaloneSuffices(s);
      r := InputSignatures(s, [], keys);
    }

    lemma StandaloneSuffices(s: SignableInput)
      requires Valid() && Standalone(psbt, s)
      ensures Suffices(s, [])
    {
      hide CheckData, UnsignedTransaction;
      StandaloneIsTotal(psbt, tx, s, None);
    }

    method GetSome(inputs: seq<SignableInput>, keys: KeyProvider) returns (r: seq<InputSigs>)
      requires Valid() && forall k | 0 <= k < |inputs| :: Standalone(psbt, inputs[k])
      ensures |r| == |inputs|
      ensures forall k | 0 <= k < |inputs| :: SignedExactly(psbt, tx, inputs[k], [], keys, r[k])
    {
      hide SignedExactly, Standalone, Valid;
      r := [];
      for n := 0 to |inputs|
        invariant |r| == n
        invariant forall k | 0 <= k < n :: SignedExactly(psbt, tx, inputs[k], [], keys, r[k])
      {
        var one := GetInputSigs(inputs[n], keys);
        r := r + [one];
      }
    }

    /** The only way to sign taproot inputs that commit to all previous outputs. */
    method GetAll(all: AllSignableInputs, keys: KeyProvider) returns (r: seq<InputSigs>)
      requires Valid() && Complete(psbt, all)
      requires forall k | 0 <= k < |all.inputs| :: Suffices(all.inputs[k], all.prevouts)
      ensures |r| == |all.inputs|
      ensures forall k | 0 <= k < |r| :: r[k].index == k && SignedExactly(psbt, tx, all.inputs[k], all.prevouts, keys, r[k])
    {
      hide SignedExactly, Valid, Issued, Suffices;
      r := [];
      for n := 0 to |all.inputs|
        invariant |r| == n
        invariant forall k | 0 <= k < n ::
          r[k].index == k && SignedExactly(psbt, tx, all.inputs[k], all.prevouts, keys, r[k])
      {
        assert Holds(psbt, all, n);
        var one := InputSignatures(all.inputs[n], all.prevouts, keys);
        ExactIndex(all.inputs[n], all.prevouts, keys, one);
        r := r + [one];
      }
    }

    /** A complete set suffices for all it holds, unless the count is short and a taproot input needs them all. */
    lemma CompleteSuffices(all: AllSignableInputs, k: nat)
      requires Complete(psbt, all) && k < |all.inputs|
      ensures Suffices(all.inputs[k], all.prevouts)
        <==> psbt.global.inputCount == |psbt.inputs| || all.inputs[k].outputType != Tr || TakesOnePrevout(all.inputs[k].sighash)
    {
      hide CheckData, TakesOnePrevout;
      assert Holds(psbt, all, k);
    }

    lemma ExactIndex(s: SignableInput, all: seq<TxOut>, keys: KeyProvider, r: InputSigs)
      requires SignedExactly(psbt, tx, s, all, keys, r)
      ensures r.index == s.index
    {
    }

    method InputSignatures(s: SignableInput, all: seq<TxOut>, keys: KeyProvider) returns (r: InputSigs)
      requires Valid() && Suffices(s, all)
      ensures SignedExactly(psbt, tx, s, all, keys, r)
    {
      hide EcdsaDue, TaprootDue, EcdsaDigest, TaprootDigest, CheckData;
      EvidenceMeans(psbt, s);
      if s.outputType == Tr { r := TaprootSignatures(s, all, keys); } else { r := EcdsaSignatures(s, keys); }
    }

    method EcdsaSignatures(s: SignableInput, keys: KeyProvider) returns (r: InputSigs)
      requires Valid() && Issued(psbt, s) && s.outputType != Tr
      ensures r.index == s.index && r.signatures.EcdsaSigs? && s.index < |psbt.inputs| && EcdsaDigest(tx, s).Some?
      ensures forall e ::
        e in r.signatures.ecdsa <==> EcdsaDue(psbt.inputs[s.index].fields, EcdsaDigest(tx, s).value, s.sighash, keys, e)
      ensures EcdsaOnce(psbt.inputs[s.index].fields, EcdsaDigest(tx, s).value, s.sighash, keys, r.signatures.ecdsa)
    {
      hide CheckData, EcdsaDigest, UnsignedTransaction, EcdsaFrom, MapEncoding.Lists, EcdsaOne, DueOutside, KeyFor,
           SignEcdsa, EcdsaList;
      EvidenceMeans(psbt, s);
      EcdsaIsTotal(psbt, tx, s);
      var digest := EcdsaDigest(tx, s).value;
      var f := psbt.inputs[s.index].fields;
      var sigs: seq<EcdsaEntry>, todo := [], f.bip32Derivations.Keys;
      ghost var ds: seq<bytes> := [];
      NoneListed();
      DueEnds(f, digest, s.sighash, keys);
      assert f.bip32Derivations.Keys - todo == {};
      EcdsaListEmpty(f, digest, s.sighash, keys);
      while todo != {}
        invariant todo <= f.bip32Derivations.Keys
        invariant MapEncoding.Lists(ds, f.bip32Derivations.Keys - todo)
        invariant forall d | d in ds :: d in f.bip32Derivations
        invariant sigs == EcdsaList(f, digest, s.sighash, keys, ds)
        invariant forall e :: e in sigs <==> DueOutside(f, todo, digest, s.sighash, keys, e)
        decreases |todo|
      {
        var d :| d in todo;
        var key := KeyFor(keys, f.bip32Derivations[d], Pubkey(d));
        ghost var before := sigs;
        if key.Some? { sigs := sigs + [SignEcdsa(digest, s.sighash, key.value)]; }
        assert sigs == before + EcdsaOne(f, digest, s.sighash, keys, d) by { OneEcdsa(f, digest, s.sighash, keys, d); }
        DueStep(f, todo, d, digest, s.sighash, keys);
        ListedStep(f.bip32Derivations.Keys, todo, ds, d);
        EcdsaListStep(f, digest, s.sighash, keys, ds, d);
        todo, ds := todo - {d}, ds + [d];
      }
      assert f.bip32Derivations.Keys - todo == f.bip32Derivations.Keys;
      r := InputSigs(s.index, EcdsaSigs(sigs));
    }

    method TaprootSignatures(s: SignableInput, all: seq<TxOut>, keys: KeyProvider) returns (r: InputSigs)
      requires Valid() && Suffices(s, all) && s.outputType == Tr
      ensures r.index == s.index && r.signatures.TaprootSigs? && s.index < |psbt.inputs|
      ensures JobDefined(TaprootJob(tx, s, all))
      ensures forall e ::
        e in r.signatures.taproot <==> TaprootDue(psbt.inputs[s.index].fields, TaprootJob(tx, s, all), keys, e)
      ensures TaprootOnce(psbt.inputs[s.index].fields, TaprootJob(tx, s, all), keys, r.signatures.taproot)
    {
      hide CheckData, TaprootDigest, UnsignedTransaction, TaprootDue, MapEncoding.Lists, TaprootOne;
      EvidenceMeans(psbt, s);
      var job := TaprootJob(tx, s, all);
      forall leaf: Option<bytes> ensures TaprootDigest(tx, s, all, leaf).Some? { TaprootIsTotal(psbt, tx, s, all, leaf); }
      var f := psbt.inputs[s.index].fields;
      var sigs: seq<TaprootEntry>, todo := [], f.tapKeyOrigins.Keys;
      NoneDueYet(f, job, keys);
      ghost var xs: seq<bytes> := [];
      NoneListed();
      assert f.tapKeyOrigins.Keys - todo == {};
      while todo != {}
        invariant todo <= f.tapKeyOrigins.Keys
        invariant MapEncoding.Lists(xs, f.tapKeyOrigins.Keys - todo)
        invariant forall x | x in xs :: x in f.tapKeyOrigins
        invariant sigs == TaprootList(f, job, keys, xs)
        invariant forall e :: e in sigs <==> TaprootDue(f, job, keys, e) && KeyIn(e) !in todo
        decreases |todo|
      {
        var x :| x in todo;
        var one := SignWith(f, job, keys, x);
        ListedStep(f.tapKeyOrigins.Keys, todo, xs, x);
        todo, xs := todo - {x}, xs + [x];
        sigs := sigs + one;
      }
      assert f.tapKeyOrigins.Keys - todo == f.tapKeyOrigins.Keys;
      r := InputSigs(s.index, TaprootSigs(sigs));
    }
  }

  /** One more key handled is one more listed. */
  lemma ListedStep(all: set<bytes>, todo: set<bytes>, l: seq<bytes>, x: bytes)
    requires x in todo && todo <= all && MapEncoding.Lists(l, all - todo)
    ensures MapEncoding.Lists(l + [x], all - (todo - {x}))
  {
    ListsOne(l, all - todo, x);
    assert all - todo + {x} == all - (todo - {x});
  }

  lemma EcdsaListEmpty(f: I.InputFields, digest: bytes, sighash: nat, keys: KeyProvider)
    ensures EcdsaList(f, digest, sighash, keys, []) == []
  {
  }

  lemma EcdsaListStep(f: I.InputFields, digest: bytes, sighash: nat, keys: KeyProvider, ds: seq<bytes>, d: bytes)
    requires d in f.bip32Derivations && forall e | e in ds :: e in f.bip32Derivations
    ensures forall e | e in ds + [d] :: e in f.bip32Derivations
    ensures EcdsaList(f, digest, sighash, keys, ds + [d])
         == EcdsaList(f, digest, sighash, keys, ds) + EcdsaOne(f, digest, sighash, keys, d)
  {
    hide EcdsaOne;
    assert (ds + [d])[..|ds|] == ds;
  }

  /** Handling one more derivation makes its entry due, and no other. */
  lemma DueStep(f: I.InputFields, todo: set<bytes>, d: bytes, digest: bytes, sighash: nat, keys: KeyProvider)
    requires d in todo && d in f.bip32Derivations
    ensures forall e ::
      DueOutside(f, todo - {d}, digest, sighash, keys, e) <==>
        DueOutside(f, todo, digest, sighash, keys, e) || e in EcdsaOne(f, digest, sighash, keys, d)
  {
    hide KeyFor, SignEcdsa;
    forall e
      ensures e in EcdsaOne(f, digest, sighash, keys, d) <==>
        EcdsaFrom(f.bip32Derivations[d], d, digest, sighash, keys, e)
    {
    }
    hide EcdsaOne, EcdsaFrom;
  }

  lemma DueEnds(f: I.InputFields, digest: bytes, sighash: nat, keys: KeyProvider)
    ensures forall e :: !DueOutside(f, f.bip32Derivations.Keys, digest, sighash, keys, e)
    ensures forall e :: DueOutside(f, {}, digest, sighash, keys, e) <==> EcdsaDue(f, digest, sighash, keys, e)
  {
    hide EcdsaFrom;
  }

  lemma NoneListed()
    ensures MapEncoding.Lists<bytes>([], {})
  {
  }

  lemma OneEcdsa(f: I.InputFields, digest: bytes, sighash: nat, keys: KeyProvider, d: bytes)
    requires d in f.bip32Derivations
    ensures var key := KeyFor(keys, f.bip32Derivations[d], Pubkey(d));
      EcdsaOne(f, digest, sighash, keys, d) == if key.Some? then [SignEcdsa(digest, sighash, key.value)] else []
  {
  }

  function KeyIn(e: TaprootEntry): bytes {
    match e.0 case KeyPath(x) => x case ScriptPath(x, _) => x
  }

  lemma NoneDueYet(f: I.InputFields, job: TaprootJob, keys: KeyProvider)
    requires JobDefined(job)
    ensures forall e :: TaprootDue(f, job, keys, e) ==> KeyIn(e) in f.tapKeyOrigins
  {
    hide JobDefined;
  }

  /** The entry for one leaf, if the leaf is listed and unsigned. */
  predicate LeafEntry(f: I.InputFields, job: TaprootJob, key: SecretKey, x: bytes, leaves: seq<bytes>, e: TaprootEntry)
    requires JobDefined(job)
  {
    && e.0.ScriptPath? && e.0.xonly == x && e.0.leafHash in leaves && x + e.0.leafHash !in f.tapScriptSigs
    && e.1 == SignTaproot(job, Some(e.0.leafHash), key)
  }

  lemma {:induction false} LeafListIs(f: I.InputFields, job: TaprootJob, key: SecretKey, x: bytes, leaves: seq<bytes>)
    requires JobDefined(job)
    ensures forall e :: e in LeafList(f, job, key, x, leaves) <==> LeafEntry(f, job, key, x, leaves, e)
  {
    hide JobDefined, SignTaproot;
    if leaves != [] {
      var n := |leaves| - 1;
      LeafListIs(f, job, key, x, leaves[..n]);
      assert leaves == leaves[..n] + [leaves[n]];
    }
  }

  /** What one key signs is what is due for it. */
  lemma TaprootOneIs(f: I.InputFields, job: TaprootJob, keys: KeyProvider, x: bytes)
    requires JobDefined(job) && x in f.tapKeyOrigins
    ensures forall e :: e in TaprootOne(f, job, keys, x) <==> TaprootDue(f, job, keys, e) && KeyIn(e) == x
  {
    hide JobDefined, SignTaproot, KeyFor, LeafList;
    var held := HeldFor(f, keys, x);
    if held.Some? { LeafListIs(f, job, held.value, x, f.tapKeyOrigins[x].leafHashes); }
  }

  /** The body of the loop over key origins: what one key signs. */
  method SignWith(f: I.InputFields, job: TaprootJob, keys: KeyProvider, x: bytes) returns (sigs: seq<TaprootEntry>)
    requires JobDefined(job) && x in f.tapKeyOrigins
    ensures forall e :: e in sigs <==> TaprootDue(f, job, keys, e) && KeyIn(e) == x
    ensures sigs == TaprootOne(f, job, keys, x)
  {
    hide JobDefined, TaprootDigest, JobDigest, SignTaproot, KeyFor, TaprootDue;
    TaprootOneIs(f, job, keys, x);
    sigs := [];
    var held := HeldFor(f, keys, x);
    if held.None? { return; }
    if KeyPathOpen(f, x) {
      sigs := [(KeyPath(x), SignTaproot(job, None, SIGNING.tweak(held.value, f.tapMerkleRoot)))];
    }
    var hashes := f.tapKeyOrigins[x].leafHashes;
    ghost var keyPath := sigs;
    for n := 0 to |hashes|
      invariant sigs == keyPath + LeafList(f, job, held.value, x, hashes[..n])
    {
      assert hashes[..n + 1] == hashes[..n] + [hashes[n]] && hashes[..n + 1][..n] == hashes[..n];
      if x + hashes[n] !in f.tapScriptSigs {
        sigs := sigs + [(ScriptPath(x, hashes[n]), SignTaproot(job, Some(hashes[n]), held.value))];
      }
    }
    assert hashes[..|hashes|] == hashes;
  }

  /** Every signature made with evidence carries the type the evidence selected. */
  predicate AllOfType(t: TypedSigs, sighash: nat) {
    match t
    case EcdsaSigs(sigs) => forall k | 0 <= k < |sigs| :: sigs[k].1.sighash == sighash
    case TaprootSigs(sigs) => forall k | 0 <= k < |sigs| :: sigs[k].1.sighash == sighash
  }

  lemma SignedOfType(p: Psbt, tx: Transaction, s: SignableInput, all: seq<TxOut>, keys: KeyProvider, r: InputSigs)
    requires SignedExactly(p, tx, s, all, keys, r)
    ensures AllOfType(r.signatures, s.sighash)
  {
    hide JobDefined, TaprootDigest, JobDigest, EcdsaDigest;
    match r.signatures {
      case EcdsaSigs(sigs) =>
        forall k | 0 <= k < |sigs| ensures sigs[k].1.sighash == s.sighash { assert sigs[k] in sigs; }
      case TaprootSigs(sigs) =>
        forall k | 0 <= k < |sigs| ensures sigs[k].1.sighash == s.sighash { assert sigs[k] in sigs; }
    }
  }
}
