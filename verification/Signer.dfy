/** The Signer role (BIP-370): writing signatures, the flags, and what both leave alone. */
module Signer {
  import opened Bytes
  import opened Bitcoin
  import opened LockTime
  import opened Funding
  import opened Psbt
  import opened Transactions
  import opened Signable
  import opened Session
  import Sighash
  import Flags
  import I = Input

  /* ----- writing signatures ----- */

  function InsertEcdsa(m: map<bytes, EcdsaSig>, sigs: seq<EcdsaEntry>): map<bytes, EcdsaSig>
    decreases |sigs|
  {
    if sigs == [] then m else InsertEcdsa(m[sigs[0].0 := sigs[0].1], sigs[1..])
  }

  function InsertOne(f: I.InputFields, e: TaprootEntry): I.InputFields {
    match e.0
    case KeyPath(_) => f.(tapKeySig := Some(e.1))
    case ScriptPath(x, leaf) => f.(tapScriptSigs := f.tapScriptSigs[x + leaf := e.1])
  }

  function InsertTaproot(f: I.InputFields, sigs: seq<TaprootEntry>): I.InputFields
    decreases |sigs|
  {
    if sigs == [] then f else InsertTaproot(InsertOne(f, sigs[0]), sigs[1..])
  }

  function WithSignatures(f: I.InputFields, t: TypedSigs): I.InputFields {
    match t
    case EcdsaSigs(sigs) => f.(partialSigs := InsertEcdsa(f.partialSigs, sigs))
    case TaprootSigs(sigs) => InsertTaproot(f, sigs)
  }

  predicate IsEmpty(t: TypedSigs) { match t case EcdsaSigs(s) => s == [] case TaprootSigs(s) => s == [] }

  /** The type that stands for all of an input's new signatures. */
  function FirstType(t: TypedSigs): nat
    requires !IsEmpty(t)
  {
    match t case EcdsaSigs(s) => s[0].1.sighash case TaprootSigs(s) => s[0].1.sighash
  }

  function SetFlags(p: Psbt, flags: byte): Psbt { p.(global := p.global.(txModifiableFlags := flags)) }

  function ClearTxModifiable(p: Psbt, sighash: nat): Psbt {
    SetFlags(p, Flags.Applied(p.global.txModifiableFlags, sighash))
  }

  function SetFields(p: Psbt, index: nat, f: I.InputFields): Psbt
    requires index < |p.inputs|
  {
    p.(inputs := p.inputs[index := p.inputs[index].(fields := f)])
  }

  function AppliedEntry(p: Psbt, e: InputSigs): Psbt
    requires InBounds(p, e.index)
  {
    if IsEmpty(e.signatures) then p
    else
      ClearTxModifiable(SetFields(p, e.index, WithSignatures(p.inputs[e.index].fields, e.signatures)),
                        FirstType(e.signatures))
  }

  /** Entries in order; the first one out of bounds fails the whole. */
  function AppliedSigs(p: Psbt, sigs: seq<InputSigs>): Result<Psbt, SignError>
    decreases |sigs|
  {
    if sigs == [] then Ok(p)
    else if !InBounds(p, sigs[0].index) then Err(IndexOutOfBounds)
    else AppliedSigs(AppliedEntry(p, sigs[0]), sigs[1..])
  }

  /** The types that move the flags, one for each input that got signatures. */
  function TypesSigned(sigs: seq<InputSigs>): seq<nat>
    decreases |sigs|
  {
    if sigs == [] then []
    else if IsEmpty(sigs[0].signatures) then TypesSigned(sigs[1..])
    else [FirstType(sigs[0].signatures)] + TypesSigned(sigs[1..])
  }

  /* ----- what signing leaves alone ----- */

  /** Two inputs that differ in signatures only. */
  predicate OnlySignaturesDiffer(i: I.Input, j: I.Input) {
    j == i.(fields := i.fields.(partialSigs := j.fields.partialSigs, tapKeySig := j.fields.tapKeySig,
                                tapScriptSigs := j.fields.tapScriptSigs))
  }

  /** Two PSBTs that differ in signatures and flags only. */
  predicate OnlySigned(p: Psbt, q: Psbt) {
    && q.global == p.global.(txModifiableFlags := q.global.txModifiableFlags)
    && q.outputs == p.outputs && |q.inputs| == |p.inputs|
    && forall k | 0 <= k < |p.inputs| :: OnlySignaturesDiffer(p.inputs[k], q.inputs[k])
  }

  lemma {:induction false} InsertTaprootFrame(f: I.InputFields, sigs: seq<TaprootEntry>)
    ensures OnlyTapDiffers(f, InsertTaproot(f, sigs))
    decreases |sigs|
  {
    hide InsertOne, OnlyTapDiffers;
    if sigs != [] {
      var g := InsertOne(f, sigs[0]);
      OneFrame(f, sigs[0]);
      InsertTaprootFrame(g, sigs[1..]);
      OnlyTapDiffersChain(f, g, InsertTaproot(f, sigs));
    } else {
      OnlyTapDiffersSelf(f);
    }
  }

  predicate OnlyTapDiffers(f: I.InputFields, g: I.InputFields) {
    g == f.(tapKeySig := g.tapKeySig, tapScriptSigs := g.tapScriptSigs)
  }

  /** Every way to write one taproot signature: the one slot, or one entry. */
  lemma OneCases(f: I.InputFields, e: TaprootEntry)
    ensures e.0.KeyPath? ==> InsertOne(f, e) == f.(tapKeySig := Some(e.1))
    ensures e.0.ScriptPath? ==> InsertOne(f, e) == f.(tapScriptSigs := f.tapScriptSigs[e.0.xonly + e.0.leafHash := e.1])
  {
  }

  lemma KeySigSet(f: I.InputFields, s: TaprootSig)
    ensures var g := f.(tapKeySig := Some(s)); OnlyTapDiffers(f, g) && Grown(f, g)
    ensures SighashesAre(f, s.sighash) ==> SighashesAre(f.(tapKeySig := Some(s)), s.sighash)
  {
  }

  lemma ScriptSigSet(f: I.InputFields, k: bytes, s: TaprootSig)
    ensures var g := f.(tapScriptSigs := f.tapScriptSigs[k := s]); OnlyTapDiffers(f, g) && Grown(f, g) && k in g.tapScriptSigs
    ensures SighashesAre(f, s.sighash) ==> SighashesAre(f.(tapScriptSigs := f.tapScriptSigs[k := s]), s.sighash)
  {
  }

  lemma OneFrame(f: I.InputFields, e: TaprootEntry)
    ensures OnlyTapDiffers(f, InsertOne(f, e)) && Grown(f, InsertOne(f, e)) && TapStands(InsertOne(f, e), e.0)
    ensures SighashesAre(f, e.1.sighash) ==> SighashesAre(InsertOne(f, e), e.1.sighash)
  {
    hide InsertOne, OnlyTapDiffers, Grown, SighashesAre;
    OneCases(f, e);
    if e.0.KeyPath? { KeySigSet(f, e.1); } else { ScriptSigSet(f, e.0.xonly + e.0.leafHash, e.1); }
  }

  lemma OnlyTapDiffersSelf(f: I.InputFields)
    ensures OnlyTapDiffers(f, f)
  {
  }

  lemma OnlyTapDiffersChain(f: I.InputFields, g: I.InputFields, h: I.InputFields)
    requires OnlyTapDiffers(f, g) && OnlyTapDiffers(g, h)
    ensures OnlyTapDiffers(f, h)
  {
  }

  lemma EntryFrame(p: Psbt, e: InputSigs)
    requires InBounds(p, e.index)
    ensures OnlySigned(p, AppliedEntry(p, e))
  {
    hide Flags.Applied;
    if e.signatures.TaprootSigs? { InsertTaprootFrame(p.inputs[e.index].fields, e.signatures.taproot); }
  }

  lemma OnlySignedChain(p: Psbt, q: Psbt, r: Psbt)
    requires OnlySigned(p, q) && OnlySigned(q, r)
    ensures OnlySigned(p, r)
  {
    forall k | 0 <= k < |p.inputs| ensures OnlySignaturesDiffer(p.inputs[k], r.inputs[k]) {
      assert OnlySignaturesDiffer(p.inputs[k], q.inputs[k]) && OnlySignaturesDiffer(q.inputs[k], r.inputs[k]);
    }
  }

  /** Applying changes signatures and flags only, and the flags as the signing sequence says. */
  lemma {:induction false} ApplyFrame(p: Psbt, sigs: seq<InputSigs>, q: Psbt)
    requires AppliedSigs(p, sigs) == Ok(q)
    ensures OnlySigned(p, q)
    ensures q.global.txModifiableFlags == Flags.AppliedAll(p.global.txModifiableFlags, TypesSigned(sigs))
    decreases |sigs|
  {
    hide OnlySigned, OnlySignaturesDiffer, Flags.Applied, WithSignatures;
    if sigs == [] {
      OnlySignedSelf(p);
    } else {
      var next := AppliedEntry(p, sigs[0]);
      EntryFrame(p, sigs[0]);
      ApplyFrame(next, sigs[1..], q);
      OnlySignedChain(p, next, q);
      if !IsEmpty(sigs[0].signatures) {
        var types := TypesSigned(sigs);
        assert types[0] == FirstType(sigs[0].signatures) && types[1..] == TypesSigned(sigs[1..]);
      }
    }
  }

  lemma OnlySignedSelf(p: Psbt)
    ensures OnlySigned(p, p)
  {
  }

  /** A PSBT stands for the same transaction, under the same id, whatever was signed. */
  lemma SignedTransaction(p: Psbt, q: Psbt)
    requires OnlySigned(p, q)
    ensures UnsignedTransaction(q) == UnsignedTransaction(p) && Id(q) == Id(p)
  {
    hide DetermineLockTime, IdTxOut;
    assert forall k | 0 <= k < |p.inputs| :: OnlySignaturesDiffer(p.inputs[k], q.inputs[k]);
    OnlyRequirementsMatter(p.global.fallbackLockTime, p.inputs, q.inputs);
    assert UnsignedTxIns(p.inputs) == UnsignedTxIns(q.inputs);
  }

  /** Applying fails exactly when some entry, even an empty one, is out of bounds. */
  lemma {:induction false} ApplyFailsIff(p: Psbt, sigs: seq<InputSigs>)
    ensures AppliedSigs(p, sigs).Err? <==> exists k | 0 <= k < |sigs| :: !InBounds(p, sigs[k].index)
    ensures AppliedSigs(p, sigs).Err? ==> AppliedSigs(p, sigs) == Err(IndexOutOfBounds)
    decreases |sigs|
  {
    hide OnlySignaturesDiffer, Flags.Applied, WithSignatures;
    if sigs != [] && InBounds(p, sigs[0].index) {
      EntryFrame(p, sigs[0]);
      var rest := sigs[1..];
      ApplyFailsIff(AppliedEntry(p, sigs[0]), rest);
      assert forall k | 0 <= k < |rest| :: rest[k] == sigs[k + 1];
      if k :| 0 <= k < |sigs| && !InBounds(p, sigs[k].index) { assert rest[k - 1] == sigs[k]; }
    }
  }

  /* ----- what signing writes ----- */

  /** A signature stands in an input under the key it was made for. */
  predicate Stands(f: I.InputFields, t: TypedSigs, k: nat) {
    match t
    case EcdsaSigs(s) => k < |s| ==> s[k].0 in f.partialSigs
    case TaprootSigs(s) => k < |s| ==> TapStands(f, s[k].0)
  }

  predicate TapStands(f: I.InputFields, m: TapKeyMaterial) {
    match m case KeyPath(_) => f.tapKeySig.Some? case ScriptPath(x, leaf) => x + leaf in f.tapScriptSigs
  }

  /** Everything that stood still stands. */
  predicate Grown(f: I.InputFields, g: I.InputFields) {
    && f.partialSigs.Keys <= g.partialSigs.Keys && f.tapScriptSigs.Keys <= g.tapScriptSigs.Keys
    && (f.tapKeySig.Some? ==> g.tapKeySig.Some?)
  }

  lemma {:induction false} InsertEcdsaGrows(m: map<bytes, EcdsaSig>, sigs: seq<EcdsaEntry>)
    ensures m.Keys <= InsertEcdsa(m, sigs).Keys
    ensures forall k | 0 <= k < |sigs| :: sigs[k].0 in InsertEcdsa(m, sigs)
    decreases |sigs|
  {
    if sigs != [] {
      var n := m[sigs[0].0 := sigs[0].1];
      InsertEcdsaGrows(n, sigs[1..]);
      assert sigs[0].0 in n.Keys;
      assert forall k | 0 < k < |sigs| :: sigs[k] == sigs[1..][k - 1];
    }
  }

  lemma {:induction false} InsertTaprootGrows(f: I.InputFields, sigs: seq<TaprootEntry>)
    ensures Grown(f, InsertTaproot(f, sigs))
    ensures forall k | 0 <= k < |sigs| :: TapStands(InsertTaproot(f, sigs), sigs[k].0)
    decreases |sigs|
  {
    hide InsertOne;
    if sigs != [] {
      var g := InsertOne(f, sigs[0]);
      OneFrame(f, sigs[0]);
      InsertTaprootGrows(g, sigs[1..]);
      assert forall k | 0 < k < |sigs| :: sigs[k] == sigs[1..][k - 1];
    }
  }

  /** Under each key the last signature made for it stands, or what stood there before. */
  lemma {:induction false} InsertEcdsaExact(m: map<bytes, EcdsaSig>, sigs: seq<EcdsaEntry>, k: bytes, j: nat)
    requires j <= |sigs| && forall l | j < l < |sigs| :: sigs[l].0 != k
    ensures j < |sigs| && sigs[j].0 == k ==> k in InsertEcdsa(m, sigs) && InsertEcdsa(m, sigs)[k] == sigs[j].1
    ensures j == 0 && (sigs == [] || sigs[0].0 != k) ==>
      (k in InsertEcdsa(m, sigs) <==> k in m) && (k in m ==> InsertEcdsa(m, sigs)[k] == m[k])
    decreases |sigs|
  {
    if sigs != [] {
      var n := m[sigs[0].0 := sigs[0].1];
      InsertEcdsaExact(n, sigs[1..], k, if j == 0 then 0 else j - 1);
    }
  }

  /** The slot a taproot signature goes to: the key path's, or its leaf's. */
  function SlotOf(m: TapKeyMaterial): Option<bytes> {
    match m case KeyPath(_) => None case ScriptPath(x, leaf) => Some(x + leaf)
  }

  function TapSigAt(f: I.InputFields, slot: Option<bytes>): Option<TaprootSig> {
    match slot
    case None => f.tapKeySig
    case Some(k) => if k in f.tapScriptSigs then Some(f.tapScriptSigs[k]) else None
  }

  lemma OneAt(f: I.InputFields, e: TaprootEntry, slot: Option<bytes>)
    ensures TapSigAt(InsertOne(f, e), slot) == if slot == SlotOf(e.0) then Some(e.1) else TapSigAt(f, slot)
  {
    hide InsertOne;
    OneCases(f, e);
  }

  lemma {:induction false} InsertTaprootExact(f: I.InputFields, sigs: seq<TaprootEntry>, slot: Option<bytes>, j: nat)
    requires j <= |sigs| && forall l | j < l < |sigs| :: SlotOf(sigs[l].0) != slot
    ensures j < |sigs| && SlotOf(sigs[j].0) == slot ==> TapSigAt(InsertTaproot(f, sigs), slot) == Some(sigs[j].1)
    ensures j == 0 && (sigs == [] || SlotOf(sigs[0].0) != slot) ==>
      TapSigAt(InsertTaproot(f, sigs), slot) == TapSigAt(f, slot)
    decreases |sigs|
  {
    hide InsertOne, TapSigAt, SlotOf;
    if sigs != [] {
      OneAt(f, sigs[0], slot);
      InsertTaprootExact(InsertOne(f, sigs[0]), sigs[1..], slot, if j == 0 then 0 else j - 1);
    }
  }

  lemma EntryGrows(p: Psbt, e: InputSigs)
    requires InBounds(p, e.index)
    ensures |AppliedEntry(p, e).inputs| == |p.inputs|
    ensures forall k | 0 <= k < |p.inputs| :: Grown(p.inputs[k].fields, AppliedEntry(p, e).inputs[k].fields)
    ensures forall n :: Stands(AppliedEntry(p, e).inputs[e.index].fields, e.signatures, n)
  {
    hide Flags.Applied;
    var f := p.inputs[e.index].fields;
    match e.signatures {
      case EcdsaSigs(s) => InsertEcdsaGrows(f.partialSigs, s);
      case TaprootSigs(s) => InsertTaprootGrows(f, s);
    }
  }

  lemma StandsIfGrown(f: I.InputFields, g: I.InputFields, t: TypedSigs, n: nat)
    requires Grown(f, g) && Stands(f, t, n)
    ensures Stands(g, t, n)
  {
  }

  /** Every signature handed in stands in its input afterwards, and none that stood before is gone. */
  lemma {:induction false} ApplyWrites(p: Psbt, sigs: seq<InputSigs>, q: Psbt, j: nat, n: nat)
    requires AppliedSigs(p, sigs) == Ok(q)
    ensures |q.inputs| == |p.inputs|
    ensures forall k | 0 <= k < |p.inputs| :: Grown(p.inputs[k].fields, q.inputs[k].fields)
    ensures j < |sigs| ==> sigs[j].index < |q.inputs| && Stands(q.inputs[sigs[j].index].fields, sigs[j].signatures, n)
    decreases |sigs|
  {
    hide Stands, AppliedEntry;
    if sigs != [] {
      var next := AppliedEntry(p, sigs[0]);
      EntryGrows(p, sigs[0]);
      ApplyWrites(next, sigs[1..], q, if j == 0 then 0 else j - 1, n);
      if j == 0 {
        StandsIfGrown(next.inputs[sigs[0].index].fields, q.inputs[sigs[0].index].fields, sigs[0].signatures, n);
      }
    }
  }

  /* ----- what all entries together write ----- */

  /** The ECDSA signatures handed in for one input, in order. */
  function EcdsaFor(sigs: seq<InputSigs>, k: nat): seq<EcdsaEntry>
    decreases |sigs|
  {
    if sigs == [] then []
    else
      (if sigs[0].index == k && sigs[0].signatures.EcdsaSigs? then sigs[0].signatures.ecdsa else [])
      + EcdsaFor(sigs[1..], k)
  }

  /** The taproot signatures handed in for one input, in order. */
  function TaprootFor(sigs: seq<InputSigs>, k: nat): seq<TaprootEntry>
    decreases |sigs|
  {
    if sigs == [] then []
    else
      (if sigs[0].index == k && sigs[0].signatures.TaprootSigs? then sigs[0].signatures.taproot else [])
      + TaprootFor(sigs[1..], k)
  }

  function Both(f: I.InputFields, es: seq<EcdsaEntry>, ts: seq<TaprootEntry>): I.InputFields {
    InsertTaproot(f, ts).(partialSigs := InsertEcdsa(f.partialSigs, es))
  }

  lemma {:induction false} InsertEcdsaAppend(m: map<bytes, EcdsaSig>, a: seq<EcdsaEntry>, b: seq<EcdsaEntry>)
    ensures InsertEcdsa(m, a + b) == InsertEcdsa(InsertEcdsa(m, a), b)
    decreases |a|
  {
    if a == [] {
      assert a + b == b;
    } else {
      assert (a + b)[1..] == a[1..] + b;
      InsertEcdsaAppend(m[a[0].0 := a[0].1], a[1..], b);
    }
  }

  lemma {:induction false} InsertTaprootAppend(f: I.InputFields, a: seq<TaprootEntry>, b: seq<TaprootEntry>)
    ensures InsertTaproot(f, a + b) == InsertTaproot(InsertTaproot(f, a), b)
    decreases |a|
  {
    hide InsertOne;
    if a == [] {
      assert a + b == b;
    } else {
      assert (a + b)[1..] == a[1..] + b;
      InsertTaprootAppend(InsertOne(f, a[0]), a[1..], b);
    }
  }

  /** Taproot signatures neither read nor write the partial signatures. */
  lemma {:induction false} InsertTaprootBeside(f: I.InputFields, m: map<bytes, EcdsaSig>, ts: seq<TaprootEntry>)
    ensures InsertTaproot(f.(partialSigs := m), ts) == InsertTaproot(f, ts).(partialSigs := m)
    decreases |ts|
  {
    if ts != [] {
      OneBeside(f, m, ts[0]);
      hide InsertOne;
      InsertTaprootBeside(InsertOne(f, ts[0]), m, ts[1..]);
    }
  }

  lemma OneBeside(f: I.InputFields, m: map<bytes, EcdsaSig>, e: TaprootEntry)
    ensures InsertOne(f.(partialSigs := m), e) == InsertOne(f, e).(partialSigs := m)
  {
    hide InsertOne;
    OneCases(f, e);
    OneCases(f.(partialSigs := m), e);
    if e.0.KeyPath? {
      KeySigBeside(f, m, e.1);
    } else {
      ScriptSigsBeside(f, m, f.tapScriptSigs[e.0.xonly + e.0.leafHash := e.1]);
    }
  }

  lemma KeySigBeside(f: I.InputFields, m: map<bytes, EcdsaSig>, s: TaprootSig)
    ensures f.(partialSigs := m).(tapKeySig := Some(s)) == f.(tapKeySig := Some(s)).(partialSigs := m)
  {
  }

  lemma ScriptSigsBeside(f: I.InputFields, m: map<bytes, EcdsaSig>, n: map<bytes, TaprootSig>)
    ensures f.(partialSigs := m).(tapScriptSigs := n) == f.(tapScriptSigs := n).(partialSigs := m)
    ensures f.(partialSigs := m).tapScriptSigs == f.tapScriptSigs
  {
  }

  lemma BothAppend(f: I.InputFields, es: seq<EcdsaEntry>, ts: seq<TaprootEntry>, fs: seq<EcdsaEntry>,
                   us: seq<TaprootEntry>)
    ensures Both(Both(f, es, ts), fs, us) == Both(f, es + fs, ts + us)
  {
    hide InsertTaproot, InsertEcdsa;
    InsertTaprootBeside(InsertTaproot(f, ts), InsertEcdsa(f.partialSigs, es), us);
    InsertTaprootAppend(f, ts, us);
    InsertEcdsaAppend(f.partialSigs, es, fs);
  }

  lemma EntryWrites(p: Psbt, e: InputSigs, k: nat)
    requires InBounds(p, e.index) && k < |p.inputs|
    ensures |AppliedEntry(p, e).inputs| == |p.inputs|
    ensures AppliedEntry(p, e).inputs[k].fields
         == Both(p.inputs[k].fields, EcdsaFor([e], k), TaprootFor([e], k))
  {
    hide Flags.Applied;
    var f := p.inputs[k].fields;
    assert EcdsaFor([e], k) == if e.index == k && e.signatures.EcdsaSigs? then e.signatures.ecdsa else [];
    assert TaprootFor([e], k) == if e.index == k && e.signatures.TaprootSigs? then e.signatures.taproot else [];
    if e.signatures.TaprootSigs? { InsertTaprootBeside(f, f.partialSigs, e.signatures.taproot); }
  }

  /**
   * Applying is exact: each input ends with its signatures overwritten, in order, by those handed in
   * for its index, wherever they stand in the list, and by no others.
   */
  lemma {:induction false} AppliedInput(p: Psbt, sigs: seq<InputSigs>, q: Psbt, k: nat)
    requires AppliedSigs(p, sigs) == Ok(q) && k < |p.inputs|
    ensures |q.inputs| == |p.inputs|
    ensures q.inputs[k].fields == Both(p.inputs[k].fields, EcdsaFor(sigs, k), TaprootFor(sigs, k))
    decreases |sigs|
  {
    hide Both, AppliedEntry;
    var f := p.inputs[k].fields;
    if sigs == [] {
      assert Both(f, [], []) == f by { NothingWritten(f); }
    } else {
      EntryWrites(p, sigs[0], k);
      AppliedInput(AppliedEntry(p, sigs[0]), sigs[1..], q, k);
      BothAppend(f, EcdsaFor([sigs[0]], k), TaprootFor([sigs[0]], k), EcdsaFor(sigs[1..], k), TaprootFor(sigs[1..], k));
      ForHead(sigs, k);
    }
  }

  lemma NothingWritten(f: I.InputFields)
    ensures Both(f, [], []) == f
  {
  }

  lemma ForHead(sigs: seq<InputSigs>, k: nat)
    requires sigs != []
    ensures EcdsaFor(sigs, k) == EcdsaFor([sigs[0]], k) + EcdsaFor(sigs[1..], k)
    ensures TaprootFor(sigs, k) == TaprootFor([sigs[0]], k) + TaprootFor(sigs[1..], k)
  {
    assert [sigs[0]][1..] == [];
  }

  /** Under each key of an input stands the last signature handed in for both, or what stood there before. */
  lemma AppliedEcdsa(p: Psbt, sigs: seq<InputSigs>, q: Psbt, k: nat, key: bytes, j: nat)
    requires AppliedSigs(p, sigs) == Ok(q) && k < |p.inputs|
    requires var es := EcdsaFor(sigs, k); j <= |es| && forall l | j < l < |es| :: es[l].0 != key
    ensures |q.inputs| == |p.inputs|
    ensures var es, m := EcdsaFor(sigs, k), q.inputs[k].fields.partialSigs;
      j < |es| && es[j].0 == key ==> key in m && m[key] == es[j].1
    ensures var es, m := EcdsaFor(sigs, k), q.inputs[k].fields.partialSigs;
      j == 0 && (es == [] || es[0].0 != key) ==>
        (key in m <==> key in p.inputs[k].fields.partialSigs)
        && (key in m ==> m[key] == p.inputs[k].fields.partialSigs[key])
  {
    hide AppliedSigs, EcdsaFor, TaprootFor, InsertTaproot;
    AppliedInput(p, sigs, q, k);
    InsertEcdsaExact(p.inputs[k].fields.partialSigs, EcdsaFor(sigs, k), key, j);
  }

  /** The same for the key path slot and every leaf slot. */
  lemma AppliedTaproot(p: Psbt, sigs: seq<InputSigs>, q: Psbt, k: nat, slot: Option<bytes>, j: nat)
    requires AppliedSigs(p, sigs) == Ok(q) && k < |p.inputs|
    requires var ts := TaprootFor(sigs, k); j <= |ts| && forall l | j < l < |ts| :: SlotOf(ts[l].0) != slot
    ensures |q.inputs| == |p.inputs|
    ensures var ts := TaprootFor(sigs, k);
      j < |ts| && SlotOf(ts[j].0) == slot ==> TapSigAt(q.inputs[k].fields, slot) == Some(ts[j].1)
    ensures var ts := TaprootFor(sigs, k);
      j == 0 && (ts == [] || SlotOf(ts[0].0) != slot) ==>
        TapSigAt(q.inputs[k].fields, slot) == TapSigAt(p.inputs[k].fields, slot)
  {
    hide AppliedSigs, EcdsaFor, TaprootFor, InsertTaproot, InsertEcdsa, SlotOf;
    AppliedInput(p, sigs, q, k);
    InsertTaprootExact(p.inputs[k].fields, TaprootFor(sigs, k), slot, j);
  }

  /** An entry moves the flags by the type of its first signature, if it has one. */
  predicate Moves(t: TypedSigs, n: nat) {
    match t
    case EcdsaSigs(s) => 0 < |s| && s[0].1.sighash == n
    case TaprootSigs(s) => 0 < |s| && s[0].1.sighash == n
  }

  lemma {:induction false} TypesAreMoves(sigs: seq<InputSigs>)
    ensures forall n :: n in TypesSigned(sigs) <==> exists k | 0 <= k < |sigs| :: Moves(sigs[k].signatures, n)
    decreases |sigs|
  {
    if sigs != [] {
      var rest := sigs[1..];
      TypesAreMoves(rest);
      assert forall k | 0 <= k < |rest| :: rest[k] == sigs[k + 1];
      forall n ensures n in TypesSigned(sigs) <==> exists k | 0 <= k < |sigs| :: Moves(sigs[k].signatures, n) {
        assert Moves(sigs[0].signatures, n) <==> !IsEmpty(sigs[0].signatures) && FirstType(sigs[0].signatures) == n;
        if k :| 0 <= k < |sigs| && Moves(sigs[k].signatures, n) { assert k > 0 ==> rest[k - 1] == sigs[k]; }
        if n in TypesSigned(rest) {
          var k :| 0 <= k < |rest| && Moves(rest[k].signatures, n);
          assert Moves(sigs[k + 1].signatures, n);
        }
      }
    }
  }

  /** All types that move the flags are so, and some type is such. */
  ghost predicate AllMovesAny(sigs: seq<InputSigs>) {
    forall k, n | 0 <= k < |sigs| && Moves(sigs[k].signatures, n) :: n % 256 >= 128
  }
  ghost predicate AllMovesNone(sigs: seq<InputSigs>) {
    forall k, n | 0 <= k < |sigs| && Moves(sigs[k].signatures, n) :: n == 2 || n == 0x82
  }
  predicate SomeMoveSingle(sigs: seq<InputSigs>) {
    exists k | 0 <= k < |sigs| :: Moves(sigs[k].signatures, 3) || Moves(sigs[k].signatures, 0x83)
  }

  lemma AnyMovesAre(sigs: seq<InputSigs>)
    ensures Flags.AllAnyoneCanPay(TypesSigned(sigs)) <==> AllMovesAny(sigs)
  {
    hide TypesSigned, Moves, Sighash.IsAnyoneCanPay;
    TypesAreMoves(sigs);
    forall n ensures Sighash.IsAnyoneCanPay(n) <==> n % 256 >= 128 { Sighash.StandardTypes(n); }
    if AllMovesAny(sigs) {
      forall n | n in TypesSigned(sigs) ensures Sighash.IsAnyoneCanPay(n) {
        var k :| 0 <= k < |sigs| && Moves(sigs[k].signatures, n);
      }
    }
    if Flags.AllAnyoneCanPay(TypesSigned(sigs)) {
      forall k, n | 0 <= k < |sigs| && Moves(sigs[k].signatures, n) ensures n % 256 >= 128 {
        assert n in TypesSigned(sigs);
      }
    }
  }

  lemma NoneMovesAre(sigs: seq<InputSigs>)
    ensures Flags.AllNone(TypesSigned(sigs)) <==> AllMovesNone(sigs)
  {
    hide TypesSigned, Moves, Sighash.IsNone;
    TypesAreMoves(sigs);
    forall n ensures Sighash.IsNone(n) <==> n == 2 || n == 0x82 { BaseTypes(n); }
    if AllMovesNone(sigs) {
      forall n | n in TypesSigned(sigs) ensures Sighash.IsNone(n) {
        var k :| 0 <= k < |sigs| && Moves(sigs[k].signatures, n);
      }
    }
    if Flags.AllNone(TypesSigned(sigs)) {
      forall k, n | 0 <= k < |sigs| && Moves(sigs[k].signatures, n) ensures n == 2 || n == 0x82 {
        assert n in TypesSigned(sigs);
      }
    }
  }

  lemma SingleMovesAre(sigs: seq<InputSigs>)
    ensures Flags.SomeSingle(TypesSigned(sigs)) <==> SomeMoveSingle(sigs)
  {
    hide TypesSigned, Moves, Sighash.IsSingle;
    TypesAreMoves(sigs);
    BaseTypes(3);
    BaseTypes(0x83);
    if n :| n in TypesSigned(sigs) && Sighash.IsSingle(n) {
      BaseTypes(n);
      var k :| 0 <= k < |sigs| && Moves(sigs[k].signatures, n);
      assert n == 3 ==> Moves(sigs[k].signatures, 3);
      assert n == 0x83 ==> Moves(sigs[k].signatures, 0x83);
    }
    if SomeMoveSingle(sigs) { assert 3 in TypesSigned(sigs) || 0x83 in TypesSigned(sigs); }
  }

  lemma BaseTypes(n: nat)
    ensures Sighash.IsNone(n) <==> n == 2 || n == 0x82
    ensures Sighash.IsSingle(n) <==> n == 3 || n == 0x83
  {
  }

  /** The flags of a PSBT its signatures were applied to, bit by bit, from the signatures themselves. */
  lemma AppliedFlags(p: Psbt, sigs: seq<InputSigs>, q: Psbt)
    requires AppliedSigs(p, sigs) == Ok(q)
    ensures var b, c := p.global.txModifiableFlags, q.global.txModifiableFlags;
      && (c % 2 == 1 <==> b % 2 == 1 && AllMovesAny(sigs))
      && (c / 2 % 2 == 1 <==> b / 2 % 2 == 1 && AllMovesNone(sigs))
      && (c / 4 % 2 == 1 <==> b / 4 % 2 == 1 || SomeMoveSingle(sigs))
      && c / 8 == b / 8
  {
    hide AppliedSigs, TypesSigned, Flags.AppliedAll, OnlySigned, AllMovesAny, AllMovesNone, SomeMoveSingle,
         Flags.AllAnyoneCanPay, Flags.AllNone, Flags.SomeSingle;
    ApplyFrame(p, sigs, q);
    AnyMovesAre(sigs);
    NoneMovesAre(sigs);
    SingleMovesAre(sigs);
    Flags.AppliedAllBits(p.global.txModifiableFlags, TypesSigned(sigs));
  }

  /* ----- verified signing is closed ----- */

  /** Entries made with evidence about the PSBT they are applied to. */
  predicate MadeFor(p: Psbt, e: InputSigs) {
    CheckData(p, e.index).Ok? && AllOfType(e.signatures, CheckData(p, e.index).value.sighash)
  }

  /** Whatever a session signs is made for its PSBT. */
  lemma SessionMakes(p: Psbt, tx: Transaction, s: SignableInput, all: seq<TxOut>, keys: KeyProvider, r: InputSigs)
    requires Issued(p, s) && SignedExactly(p, tx, s, all, keys, r)
    ensures MadeFor(p, r)
  {
    hide CheckData, AllOfType;
    SignedOfType(p, tx, s, all, keys, r);
  }

  /** `sign_input` and `sign_input_unchecked`. */
  method SignInput(session: SigningSession, strict: bool, index: nat, keys: KeyProvider)
    returns (r: Result<InputSigs, SignError>)
    requires session.Valid()
    ensures r.Ok? <==> StandaloneInput(session.psbt, strict, index).Ok?
    ensures r.Ok? ==> r.value.index == index && MadeFor(session.psbt, r.value)
    ensures r.Ok? ==>
      SignedExactly(session.psbt, session.tx, StandaloneInput(session.psbt, strict, index).value, [], keys, r.value)
    ensures r.Err? ==> StandaloneInput(session.psbt, strict, index) == Err(r.error)
  {
    hide StandaloneInput, SignedExactly, MadeFor, UnsignedTransaction;
    match StandaloneInput(session.psbt, strict, index) {
      case Err(e) => r := Err(e);
      case Ok(s) =>
        var sigs := session.GetInputSigs(s, keys);
        SessionMakes(session.psbt, session.tx, s, [], keys, sigs);
        session.ExactIndex(s, [], keys, sigs);
        r := Ok(sigs);
    }
  }

  /**
   * The declared count does not fall short of the list, or no input's signature would need the
   * previous outputs of all the others.
   */
  predicate Coverable(p: Psbt) {
    p.global.inputCount >= |p.inputs|
    || forall k | 0 <= k < p.global.inputCount :: CheckData(p, k).Ok? ==>
         CheckData(p, k).value.outputType != Tr || TakesOnePrevout(CheckData(p, k).value.sighash)
  }

  lemma CoveredSuffices(p: Psbt, all: AllSignableInputs, k: nat)
    requires Coverable(p) && Complete(p, all) && k < |all.inputs|
    ensures p.global.inputCount == |p.inputs| || all.inputs[k].outputType != Tr || TakesOnePrevout(all.inputs[k].sighash)
  {
    hide CheckData, TakesOnePrevout;
    var last := |all.inputs| - 1;
    assert Holds(p, all, k) && Holds(p, all, last);
    EvidenceMeans(p, all.inputs[last]);
  }

  /** All that is due for each input up to the declared count, under its own evidence, with all their outputs. */
  ghost predicate AllSigned(session: SigningSession, strict: bool, keys: KeyProvider, r: seq<InputSigs>) {
    exists all: AllSignableInputs ::
      && Complete(session.psbt, all) && |r| == |all.inputs|
      && (forall k | 0 <= k < |r| :: Check(session.psbt, strict, k) == Ok(all.inputs[k]))
      && (forall k | 0 <= k < |r| :: SignedExactly(session.psbt, session.tx, all.inputs[k], all.prevouts, keys, r[k]))
  }

  predicate AllCheck(p: Psbt, strict: bool) { forall k | 0 <= k < p.global.inputCount :: Check(p, strict, k).Ok? }

  /** `sign_all` and `sign_all_unchecked`: every input, or the errors of those that fail. */
  method SignAll(session: SigningSession, strict: bool, keys: KeyProvider)
    returns (r: Result<seq<InputSigs>, map<nat, SignError>>)
    requires session.Valid()
    requires AllCheck(session.psbt, strict) ==> Coverable(session.psbt)
    ensures r.Ok? <==> AllCheck(session.psbt, strict)
    ensures r.Ok? ==> |r.value| == session.psbt.global.inputCount
    ensures r.Ok? ==> forall k | 0 <= k < |r.value| :: r.value[k].index == k && MadeFor(session.psbt, r.value[k])
    ensures r.Ok? ==> AllSigned(session, strict, keys, r.value)
    ensures r.Err? ==>
      forall k :: k in r.error <==> 0 <= k < session.psbt.global.inputCount && Check(session.psbt, strict, k).Err?
    ensures r.Err? ==> forall k | k in r.error :: Check(session.psbt, strict, k) == Err(r.error[k])
  {
    hide SignedExactly, MadeFor, UnsignedTransaction, Issued, Check, TakesOnePrevout;
    var all := CollectAll(session.psbt, strict);
    if all.Err? { return Err(all.error); }
    forall k | 0 <= k < |all.value.inputs| ensures session.Suffices(all.value.inputs[k], all.value.prevouts) {
      assert Holds(session.psbt, all.value, k);
      CoveredSuffices(session.psbt, all.value, k);
      session.CompleteSuffices(all.value, k);
    }
    var sigs := session.GetAll(all.value, keys);
    forall k | 0 <= k < |sigs| ensures MadeFor(session.psbt, sigs[k]) {
      assert Holds(session.psbt, all.value, k);
      SessionMakes(session.psbt, session.tx, all.value.inputs[k], all.value.prevouts, keys, sigs[k]);
    }
    r := Ok(sigs);
  }

  predicate EcdsaOfType(m: map<bytes, EcdsaSig>, sighash: nat) { forall k | k in m :: m[k].sighash == sighash }

  lemma {:induction false} InsertEcdsaType(m: map<bytes, EcdsaSig>, sigs: seq<EcdsaEntry>, sighash: nat)
    requires EcdsaOfType(m, sighash)
    requires forall k | 0 <= k < |sigs| :: sigs[k].1.sighash == sighash
    ensures EcdsaOfType(InsertEcdsa(m, sigs), sighash)
    decreases |sigs|
  {
    if sigs != [] {
      var next := m[sigs[0].0 := sigs[0].1];
      assert EcdsaOfType(next, sighash) by { assert sigs[0].1.sighash == sighash; }
      InsertEcdsaType(next, sigs[1..], sighash);
    }
  }

  lemma {:induction false} InsertTaprootType(f: I.InputFields, sigs: seq<TaprootEntry>, sighash: nat)
    requires SighashesAre(f, sighash)
    requires forall k | 0 <= k < |sigs| :: sigs[k].1.sighash == sighash
    ensures SighashesAre(InsertTaproot(f, sigs), sighash)
    decreases |sigs|
  {
    hide InsertOne, SighashesAre;
    if sigs != [] {
      OneFrame(f, sigs[0]);
      InsertTaprootType(InsertOne(f, sigs[0]), sigs[1..], sighash);
    }
  }

  lemma EntryType(f: I.InputFields, t: TypedSigs, sighash: nat)
    requires SighashesAre(f, sighash) && AllOfType(t, sighash)
    ensures SighashesAre(WithSignatures(f, t), sighash)
  {
    match t {
      case EcdsaSigs(s) =>
        InsertEcdsaType(f.partialSigs, s, sighash);
        assert EcdsaOfType(WithSignatures(f, t).partialSigs, sighash);
      case TaprootSigs(s) => InsertTaprootType(f, s, sighash);
    }
  }

  /** The checks read nothing that signing writes, but for the types of existing signatures. */
  lemma ChecksUnmoved(p: Psbt, q: Psbt, index: nat)
    requires OnlySigned(p, q)
    ensures CheckData(q, index) == CheckData(p, index) && InBounds(q, index) == InBounds(p, index)
    ensures InBounds(p, index) ==> FundingUtxoUntrusted(q.inputs[index]) == FundingUtxoUntrusted(p.inputs[index])
    ensures InBounds(p, index) ==>
      forall s :: ScriptMismatch(q.inputs[index], s) == ScriptMismatch(p.inputs[index], s)
  {
    hide FundingUtxo;
    if InBounds(p, index) {
      var i, j := p.inputs[index], q.inputs[index];
      assert OnlySignaturesDiffer(i, j);
      SameFundingUtxo(i, j);
      assert forall spk :: OutputTypeOf(i, spk) == OutputTypeOf(j, spk);
      assert forall t, prevout :: ScriptCode(i, t, prevout) == ScriptCode(j, t, prevout);
    }
  }

  /** Signatures made for a PSBT keep the types of an input's signatures one and the same. */
  lemma {:induction false} TypesKept(p: Psbt, sigs: seq<InputSigs>, q: Psbt, index: nat)
    requires AppliedSigs(p, sigs) == Ok(q)
    requires forall k | 0 <= k < |sigs| :: MadeFor(p, sigs[k])
    requires CheckData(p, index).Ok? && InBounds(p, index)
    requires SighashesAre(p.inputs[index].fields, CheckData(p, index).value.sighash)
    ensures InBounds(q, index) && SighashesAre(q.inputs[index].fields, CheckData(p, index).value.sighash)
    decreases |sigs|
  {
    hide CheckData, SighashesAre, AllOfType, OnlySigned, WithSignatures;
    if sigs != [] {
      var next := AppliedEntry(p, sigs[0]);
      EntryFrame(p, sigs[0]);
      forall k ensures CheckData(next, k) == CheckData(p, k) { ChecksUnmoved(p, next, k); }
      ChecksUnmoved(p, next, index);
      assert MadeFor(p, sigs[0]);
      forall k | 0 <= k < |sigs[1..]| ensures MadeFor(next, sigs[1..][k]) { assert MadeFor(p, sigs[k + 1]); }
      if sigs[0].index == index {
        EntryType(p.inputs[index].fields, sigs[0].signatures, CheckData(p, index).value.sighash);
      }
      TypesKept(next, sigs[1..], q, index);
    }
  }

  /**
   * Verified signing is closed: applying what a session signed keeps every strictly verified input
   * verified, with the same evidence, and all its signatures of the type that evidence selects.
   */
  lemma VerifiedStays(p: Psbt, sigs: seq<InputSigs>, q: Psbt, index: nat)
    requires AppliedSigs(p, sigs) == Ok(q)
    requires forall k | 0 <= k < |sigs| :: MadeFor(p, sigs[k])
    requires Verify(p, index).Ok?
    ensures Verify(q, index) == Verify(p, index)
    ensures InBounds(q, index) && SighashesAre(q.inputs[index].fields, Verify(p, index).value.sighash)
  {
    hide CheckData, ScriptMismatch, FundingUtxoUntrusted, SighashesAre, OnlySigned, AppliedSigs, MadeFor;
    StrictIsChecked(p, index);
    ApplyFrame(p, sigs, q);
    ChecksUnmoved(p, q, index);
    TypesKept(p, sigs, q, index);
  }

  /* ----- the finalizer's check of partial signatures ----- */

  datatype PartialSigsError = NonStandardInput(input: nat) | NonStandardPartialSig(input: nat) | WrongFlag(input: nat)

  function TargetType(i: I.Input): nat { if i.fields.sighashType.Some? then i.fields.sighashType.value else 1 }

  predicate PartialSigsAgree(i: I.Input) {
    Sighash.EcdsaStandard(TargetType(i))
    && forall k | k in i.fields.partialSigs :: i.fields.partialSigs[k].sighash == TargetType(i)
  }

  method CheckPartialSigsSighashType(p: Psbt) returns (r: Result<(), PartialSigsError>)
    ensures r.Ok? <==> forall k | 0 <= k < |p.inputs| :: PartialSigsAgree(p.inputs[k])
    ensures r.Err? ==> r.error.input < |p.inputs| && !PartialSigsAgree(p.inputs[r.error.input])
    ensures r.Err? ==> forall k | 0 <= k < r.error.input :: PartialSigsAgree(p.inputs[k])
    ensures r.Err? ==> (r.error.NonStandardInput? <==> !Sighash.EcdsaStandard(TargetType(p.inputs[r.error.input])))
    ensures r.Err? && !r.error.NonStandardInput? ==>
      var i := p.inputs[r.error.input];
      exists k | k in i.fields.partialSigs :: i.fields.partialSigs[k].sighash != TargetType(i)
        && (r.error.WrongFlag? <==> Sighash.EcdsaStandard(i.fields.partialSigs[k].sighash))
  {
    hide Sighash.EcdsaStandard;
    for n := 0 to |p.inputs|
      invariant forall k | 0 <= k < n :: PartialSigsAgree(p.inputs[k])
    {
      var target := TargetType(p.inputs[n]);
      if !Sighash.EcdsaStandard(target) { return Err(NonStandardInput(n)); }
      var partials := p.inputs[n].fields.partialSigs;
      var todo := partials.Keys;
      while todo != {}
        invariant todo <= partials.Keys
        invariant forall k | k in partials && k !in todo :: partials[k].sighash == target
        decreases |todo|
      {
        var key :| key in todo;
        if !Sighash.EcdsaStandard(partials[key].sighash) {
          assert partials[key].sighash != target;
          return Err(NonStandardPartialSig(n));
        }
        if target != partials[key].sighash { return Err(WrongFlag(n)); }
        todo := todo - {key};
      }
    }
    r := Ok(());
  }

  /** The range of the ECDSA signature type: no signature carries any other hash type. */
  predicate EcdsaTyped(p: Psbt) {
    forall n | 0 <= n < |p.inputs| :: forall k | k in p.inputs[n].fields.partialSigs ::
      Sighash.EcdsaStandard(p.inputs[n].fields.partialSigs[k].sighash)
  }

  /** When every input is verified, the finalizer's check turns on the declared types alone. */
  lemma VerifiedPassesCheck(p: Psbt)
    requires EcdsaTyped(p) && forall n | 0 <= n < |p.inputs| :: Verify(p, n).Ok?
    ensures (forall n | 0 <= n < |p.inputs| :: PartialSigsAgree(p.inputs[n])) <==>
            (forall n | 0 <= n < |p.inputs| :: DeclaresEcdsa(p.inputs[n]))
  {
    hide CheckData, ScriptMismatch, FundingUtxoUntrusted, OutputTypeOf, Sighash.EcdsaStandard, Verify;
    forall n | 0 <= n < |p.inputs| ensures PartialSigsAgree(p.inputs[n]) <==> DeclaresEcdsa(p.inputs[n]) {
      VerifiedAgrees(p, n);
    }
  }

  predicate DeclaresEcdsa(i: I.Input) {
    i.fields.sighashType.Some? ==> Sighash.EcdsaStandard(i.fields.sighashType.value)
  }

  lemma VerifiedAgrees(p: Psbt, n: nat)
    requires EcdsaTyped(p) && n < |p.inputs| && Verify(p, n).Ok?
    ensures PartialSigsAgree(p.inputs[n]) <==> DeclaresEcdsa(p.inputs[n])
  {
    hide CheckData, ScriptMismatch, FundingUtxoUntrusted, OutputTypeOf;
    StrictIsChecked(p, n);
    EvidenceMeans(p, Verify(p, n).value);
  }

  /** Both together: after verified signing of a fully verified PSBT the finalizer's check passes. */
  lemma SignedPassesCheck(p: Psbt, sigs: seq<InputSigs>, q: Psbt)
    requires AppliedSigs(p, sigs) == Ok(q)
    requires forall k | 0 <= k < |sigs| :: MadeFor(p, sigs[k])
    requires forall n | 0 <= n < |p.inputs| :: Verify(p, n).Ok? && DeclaresEcdsa(p.inputs[n])
    requires EcdsaTyped(q)
    ensures forall n | 0 <= n < |q.inputs| :: PartialSigsAgree(q.inputs[n])
  {
    hide Verify, EcdsaTyped, MadeFor, AppliedSigs, PartialSigsAgree, SighashesAre, DeclaresEcdsa;
    ApplyFrame(p, sigs, q);
    forall n | 0 <= n < |q.inputs| ensures Verify(q, n).Ok? && DeclaresEcdsa(q.inputs[n]) {
      VerifiedStays(p, sigs, q, n);
      assert OnlySignaturesDiffer(p.inputs[n], q.inputs[n]);
      DeclarationKept(p.inputs[n], q.inputs[n]);
    }
    VerifiedPassesCheck(q);
  }

  lemma DeclarationKept(i: I.Input, j: I.Input)
    requires OnlySignaturesDiffer(i, j)
    ensures DeclaresEcdsa(i) == DeclaresEcdsa(j)
  {
  }

  /* ----- the role ----- */

  /** A Signer over any run of sessions and flag clears. */
  class Signer {
    var psbt: Psbt
    var cache: Transaction
    /** The PSBT the Signer was made from, and the types that moved its flags since. */
    ghost const original: Psbt
    ghost var cleared: seq<nat>

    /** The cached transaction is the PSBT's, and only the flags have moved. */
    ghost predicate Valid()
      reads this
    {
      && UnsignedTransaction(psbt) == Ok(cache)
      && psbt == SetFlags(original, Flags.AppliedAll(original.global.txModifiableFlags, cleared))
    }

    constructor (psbt: Psbt)
      requires UnsignedTransaction(psbt).Ok?
      ensures this.psbt == psbt && original == psbt && cleared == [] && Valid()
    {
      this.psbt := psbt;
      this.cache := UnsignedTransaction(psbt).value;
      this.original := psbt;
      this.cleared := [];
    }

    static method New(psbt: Psbt) returns (r: Result<Signer, LockTimeError>)
      ensures r.Ok? <==> Determines(psbt)
      ensures r.Ok? ==> fresh(r.value) && r.value.Valid() && r.value.psbt == psbt && r.value.original == psbt
      ensures r.Err? ==> UnsignedTransaction(psbt) == Err(r.error)
    {
      match UnsignedTransaction(psbt) {
        case Err(e) => r := Err(e);
        case Ok(_) =>
          var s := new Signer(psbt);
          r := Ok(s);
      }
    }

    /** `expect` holds: the lock time stays determinable. */
    method GetId() returns (id: bytes)
      requires Valid()
      ensures Id(psbt) == Ok(id) == Id(original)
    {
      hide Flags.AppliedAll;
      OnlyFlagsMoved(original, psbt);
      assert UnsignedTransaction(psbt).Ok?;
      id := Id(psbt).value;
    }

    method UnsignedTx() returns (tx: Transaction)
      requires Valid()
      ensures tx == cache && UnsignedTransaction(original) == Ok(tx)
    {
      hide Flags.AppliedAll;
      OnlyFlagsMoved(original, psbt);
      tx := UnsignedTransaction(psbt).value;
    }

    method BeginSession() returns (s: SigningSession)
      requires Valid()
      ensures s.psbt == psbt && s.tx == cache && s.Valid()
    {
      s := SigningSession(psbt, cache);
    }

    method EcdsaClearTxModifiable(sighash: nat)
      requires Valid()
      modifies this
      ensures Valid() && cache == old(cache) && cleared == old(cleared) + [sighash]
      ensures psbt == ClearTxModifiable(old(psbt), sighash)
    {
      hide Flags.AppliedAll, Flags.Applied, UnsignedTransaction;
      ghost var before := psbt;
      psbt := ClearTxModifiable(psbt, sighash);
      cleared := cleared + [sighash];
      OnlyFlagsMoved(before, psbt);
      Flags.AppliedAllLast(original.global.txModifiableFlags, old(cleared), sighash);
    }

    /** Writes signatures; consumes the Signer, so only a success leaves a PSBT. */
    method Apply(sigs: seq<InputSigs>) returns (r: Result<Psbt, SignError>)
      requires Valid()
      modifies this
      ensures r == AppliedSigs(old(psbt), sigs)
      ensures r.Ok? ==> UnsignedTransaction(r.value) == Ok(old(cache)) && Id(r.value) == Id(old(psbt))
      ensures r.Ok? ==> OnlySigned(original, r.value)
    {
      hide Flags.AppliedAll, Flags.Applied, UnsignedTransaction, AppliedSigs, AppliedEntry, OnlySigned, Id;
      ghost var before := psbt;
      var n := 0;
      assert sigs[0..] == sigs;
      while n < |sigs|
        invariant n <= |sigs|
        invariant AppliedSigs(before, sigs) == AppliedSigs(psbt, sigs[n..])
      {
        NextEntry(psbt, sigs, n);
        if !InBounds(psbt, sigs[n].index) { return Err(IndexOutOfBounds); }
        if !IsEmpty(sigs[n].signatures) { Write(sigs[n]); }
        n := n + 1;
      }
      NextEntry(psbt, sigs, n);
      r := Ok(psbt);
      ApplyFrame(before, sigs, psbt);
      SignedTransaction(before, psbt);
      OnlyFlagsMoved(original, before);
      OnlySignedChain(original, before, psbt);
    }

    /** The body of the loop for one input that got signatures. */
    method Write(e: InputSigs)
      requires InBounds(psbt, e.index) && !IsEmpty(e.signatures)
      modifies this
      ensures psbt == AppliedEntry(old(psbt), e)
    {
      hide Flags.Applied;
      ghost var before := psbt;
      ghost var f := before.inputs[e.index].fields;
      match e.signatures {
        case EcdsaSigs(sigs) =>
          var sighash := sigs[0].1.sighash;
          var n := 0;
          assert sigs[0..] == sigs && SetFields(before, e.index, f) == before;
          while n < |sigs|
            invariant n <= |sigs| && e.index < |psbt.inputs|
            invariant psbt == SetFields(before, e.index, f.(partialSigs := psbt.inputs[e.index].fields.partialSigs))
            invariant InsertEcdsa(f.partialSigs, sigs)
                      == InsertEcdsa(psbt.inputs[e.index].fields.partialSigs, sigs[n..])
          {
            var g := psbt.inputs[e.index].fields;
            psbt := SetFields(psbt, e.index, g.(partialSigs := g.partialSigs[sigs[n].0 := sigs[n].1]));
            n := n + 1;
          }
          psbt := ClearTxModifiable(psbt, sighash);
        case TaprootSigs(sigs) =>
          var sighash := sigs[0].1.sighash;
          var n := 0;
          assert sigs[0..] == sigs && SetFields(before, e.index, f) == before;
          while n < |sigs|
            invariant n <= |sigs| && e.index < |psbt.inputs|
            invariant psbt == SetFields(before, e.index, psbt.inputs[e.index].fields)
            invariant InsertTaproot(f, sigs) == InsertTaproot(psbt.inputs[e.index].fields, sigs[n..])
          {
            psbt := SetFields(psbt, e.index, InsertOne(psbt.inputs[e.index].fields, sigs[n]));
            n := n + 1;
          }
          psbt := ClearTxModifiable(psbt, sighash);
      }
    }

    /** Gives the PSBT back: only its flags have moved since `New`, by the types cleared for. */
    method IntoPsbt() returns (p: Psbt)
      requires Valid()
      ensures p == SetFlags(original, Flags.AppliedAll(original.global.txModifiableFlags, cleared))
    {
      p := psbt;
    }
  }

  predicate Determines(p: Psbt) { LockTimeOf(p).Ok? }

  lemma NextEntry(p: Psbt, sigs: seq<InputSigs>, n: nat)
    requires n <= |sigs|
    ensures n == |sigs| ==> AppliedSigs(p, sigs[n..]) == Ok(p)
    ensures n < |sigs| && !InBounds(p, sigs[n].index) ==> AppliedSigs(p, sigs[n..]) == Err(IndexOutOfBounds)
    ensures n < |sigs| && InBounds(p, sigs[n].index) ==>
      AppliedSigs(p, sigs[n..]) == AppliedSigs(AppliedEntry(p, sigs[n]), sigs[n + 1..])
    ensures n < |sigs| && InBounds(p, sigs[n].index) && IsEmpty(sigs[n].signatures) ==> AppliedEntry(p, sigs[n]) == p
  {
    hide Flags.Applied, WithSignatures;
  }

  lemma OnlyFlagsMoved(p: Psbt, q: Psbt)
    requires q == SetFlags(p, q.global.txModifiableFlags)
    ensures OnlySigned(p, q)
    ensures UnsignedTransaction(q) == UnsignedTransaction(p) && Id(q) == Id(p)
  {
    hide UnsignedTransaction, Id;
    SignedTransaction(p, q);
  }
}
