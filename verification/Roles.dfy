/** Creator, Constructor, Updater and Signer as one protocol (BIP-370), and the two roles that build. */
module Roles {
  import opened Bytes
  import opened Bitcoin
  import opened LockTime
  import opened Psbt
  import opened Transactions
  import opened Signable
  import opened Session
  import G = Global
  import I = Input
  import O = Output
  import F = Flags
  import Signer

  /** What a Constructor's type lets it add. */
  datatype Kind = Modifiable | InputsOnly | OutputsOnly

  function SetFlags(p: Psbt, flags: byte): Psbt { Signer.SetFlags(p, flags) }
  function FlagsOf(p: Psbt): byte { p.global.txModifiableFlags }

  /* ----- Creator ----- */

  function Blank(): Psbt {
    Psbt(G.Global(G.V2, 2, None, 0, 0, 0, G.GlobalFields(map[], map[], map[], map[], map[])), [], [])
  }

  /** The flags a Creator gives its Constructor. */
  function FlagsFor(b: byte, kind: Kind): byte {
    match kind
    case Modifiable => F.Set1(F.Set0(b))
    case InputsOnly => F.Clear1(F.Set0(b))
    case OutputsOnly => F.Set1(F.Clear0(b))
  }

  /** What `Constructor::new` asks of a PSBT that comes from elsewhere. */
  predicate Admits(b: byte, kind: Kind) {
    (kind != OutputsOnly ==> F.Bit0(b)) && (kind != InputsOnly ==> F.Bit1(b))
  }

  /* ----- Constructor ----- */

  function WithInput(p: Psbt, i: I.Input): Psbt {
    p.(inputs := p.inputs + [i], global := p.global.(inputCount := p.global.inputCount + 1))
  }

  function WithOutput(p: Psbt, o: O.Output): Psbt {
    p.(outputs := p.outputs + [o], global := p.global.(outputCount := p.global.outputCount + 1))
  }

  /** BIP-375: a label needs the address it labels. */
  predicate ValidOutput(o: O.Output) { !(o.fields.spV0Label.Some? && o.fields.spV0Info.None?) }

  /** No more inputs, no more outputs. */
  function Closed(p: Psbt): Psbt { SetFlags(p, F.Clear1(F.Clear0(FlagsOf(p)))) }

  class Constructor {
    var psbt: Psbt
    const kind: Kind

    constructor (psbt: Psbt, kind: Kind)
      ensures this.psbt == psbt && this.kind == kind
    {
      this.psbt := psbt;
      this.kind := kind;
    }

    /** For a PSBT created elsewhere. */
    static method New(psbt: Psbt, kind: Kind) returns (r: Option<Constructor>)
      ensures r.Some? <==>
        && (kind != OutputsOnly ==> psbt.global.txModifiableFlags % 2 == 1)
        && (kind != InputsOnly ==> psbt.global.txModifiableFlags / 2 % 2 == 1)
      ensures r.Some? <==> Admits(FlagsOf(psbt), kind)
      ensures r.Some? ==> fresh(r.value) && r.value.psbt == psbt && r.value.kind == kind
      ensures Step(Loose(psbt), StartConstructing(kind)) == if r.Some? then Some(Constructing(psbt, kind)) else None
    {
      if Admits(FlagsOf(psbt), kind) {
        var c := new Constructor(psbt, kind);
        r := Some(c);
      } else {
        r := None;
      }
    }

    method AddInput(i: I.Input)
      requires kind != OutputsOnly
      modifies this
      ensures psbt == WithInput(old(psbt), i)
      ensures Step(Constructing(old(psbt), kind), PutInput(i)) == Some(Constructing(psbt, kind))
      ensures Counted(old(psbt)) ==> Counted(psbt)
    {
      psbt := psbt.(inputs := psbt.inputs + [i]);
      psbt := psbt.(global := psbt.global.(inputCount := psbt.global.inputCount + 1));
    }

    method AddOutput(o: O.Output) returns (ok: bool)
      requires kind != InputsOnly
      modifies this
      ensures ok <==> (o.fields.spV0Label.Some? ==> o.fields.spV0Info.Some?)
      ensures ok <==> ValidOutput(o)
      ensures psbt == if ok then WithOutput(old(psbt), o) else old(psbt)
      ensures Step(Constructing(old(psbt), kind), PutOutput(o)) == if ok then Some(Constructing(psbt, kind)) else None
      ensures Counted(old(psbt)) ==> Counted(psbt)
    {
      if !ValidOutput(o) { return false; }
      psbt := psbt.(outputs := psbt.outputs + [o]);
      psbt := psbt.(global := psbt.global.(outputCount := psbt.global.outputCount + 1));
      ok := true;
    }

    method NoMoreInputs()
      modifies this
      ensures psbt == SetFlags(old(psbt), F.Clear0(FlagsOf(old(psbt))))
      ensures Step(Constructing(old(psbt), kind), EndInputs) == Some(Constructing(psbt, kind))
    {
      psbt := SetFlags(psbt, F.Clear0(FlagsOf(psbt)));
    }

    method NoMoreOutputs()
      modifies this
      ensures psbt == SetFlags(old(psbt), F.Clear1(FlagsOf(old(psbt))))
      ensures Step(Constructing(old(psbt), kind), EndOutputs) == Some(Constructing(psbt, kind))
    {
      psbt := SetFlags(psbt, F.Clear1(FlagsOf(psbt)));
    }

    method IntoPsbt() returns (r: Result<Psbt, LockTimeError>)
      ensures r == Ready(psbt)
      ensures Step(Constructing(psbt, kind), HandOver) == if r.Ok? then Some(Loose(r.value)) else None
    {
      match LockTimeOf(psbt) {
        case Err(e) => r := Err(e);
        case Ok(_) => r := Ok(psbt);
      }
    }

    /** Consumes the Constructor: whatever comes out can have nothing added. */
    method IntoUpdater() returns (r: Result<Updater, LockTimeError>)
      modifies this
      ensures r.Ok? <==> Ready(Closed(old(psbt))).Ok?
      ensures r.Ok? ==> fresh(r.value) && r.value.psbt == Closed(old(psbt))
      ensures r.Ok? ==> Frozen(r.value.psbt)
      ensures Step(Constructing(old(psbt), kind), StartUpdating)
           == if r.Ok? then Some(Updating(r.value.psbt)) else None
    {
      F.Clearing(FlagsOf(psbt));
      F.Clearing(F.Clear0(FlagsOf(psbt)));
      NoMoreInputs();
      NoMoreOutputs();
      var p := IntoPsbt();
      match p {
        case Err(e) => r := Err(e);
        case Ok(q) =>
          var u := new Updater(q);
          r := Ok(u);
      }
    }
  }

  /**
   * `constructor_modifiable` and its siblings: whatever the Creator set before, the flags say exactly
   * what the Constructor's type may add.
   */
  method BuildConstructor(p: Psbt, kind: Kind) returns (c: Constructor)
    ensures fresh(c) && c.kind == kind && c.psbt == SetFlags(p, FlagsFor(FlagsOf(p), kind))
    ensures Step(Creating(p), StartConstructing(kind)) == Some(Constructing(c.psbt, kind))
    ensures (F.Bit0(FlagsOf(c.psbt)) <==> kind != OutputsOnly) && (F.Bit1(FlagsOf(c.psbt)) <==> kind != InputsOnly)
    ensures F.Bit2(FlagsOf(c.psbt)) == F.Bit2(FlagsOf(p)) && F.Other(FlagsOf(c.psbt)) == F.Other(FlagsOf(p))
  {
    hide F.Bit0, F.Bit1, F.Bit2, F.Other, F.Set0, F.Set1, F.Clear0, F.Clear1;
    var flags := new F.TxModifiableFlags(FlagsOf(p));
    F.Setting(FlagsOf(p));
    F.Clearing(FlagsOf(p));
    if kind == OutputsOnly { flags.ClearInputsModifiable(); } else { flags.SetInputsModifiable(); }
    F.Setting(flags.bits);
    F.Clearing(flags.bits);
    if kind == InputsOnly { flags.ClearOutputsModifiable(); } else { flags.SetOutputsModifiable(); }
    c := new Constructor(SetFlags(p, flags.bits), kind);
  }

  /** A PSBT that may leave its role: its lock time can be determined. */
  function Ready(p: Psbt): Result<Psbt, LockTimeError> {
    match LockTimeOf(p) case Err(e) => Err(e) case Ok(_) => Ok(p)
  }

  /* ----- Updater ----- */

  /** What an Updater lends out: no counts, no versions, no fallback lock time and no flags. */
  datatype UpdaterView = UpdaterView(global: G.GlobalFields, inputs: seq<I.Input>, outputs: seq<O.Output>)

  /** Any change at all through the view; slices keep their length. */
  type Update = f: UpdaterView -> UpdaterView | forall v :: SameLengths(v, f(v)) witness (v: UpdaterView) => v

  predicate SameLengths(v: UpdaterView, w: UpdaterView) {
    |w.inputs| == |v.inputs| && |w.outputs| == |v.outputs|
  }

  function ViewOf(p: Psbt): UpdaterView { UpdaterView(p.global.fields, p.inputs, p.outputs) }

  function Updated(p: Psbt, f: Update): Psbt {
    var w := f(ViewOf(p));
    Psbt(p.global.(fields := w.global), w.inputs, w.outputs)
  }

  class Updater {
    var psbt: Psbt

    constructor (psbt: Psbt)
      ensures this.psbt == psbt
    {
      this.psbt := psbt;
    }

    static method New(psbt: Psbt) returns (r: Result<Updater, LockTimeError>)
      ensures r.Ok? <==> Ready(psbt).Ok?
      ensures r.Ok? ==> fresh(r.value) && r.value.psbt == psbt
      ensures Step(Loose(psbt), StartUpdating) == if r.Ok? then Some(Updating(psbt)) else None
    {
      match LockTimeOf(psbt) {
        case Err(e) => r := Err(e);
        case Ok(_) =>
          var u := new Updater(psbt);
          r := Ok(u);
      }
    }

    method Update(f: Update)
      modifies this
      ensures psbt == Updated(old(psbt), f)
      ensures Step(Updating(old(psbt)), Apply(f)) == Some(Updating(psbt))
      ensures FlagsOf(psbt) == FlagsOf(old(psbt)) && (Counted(old(psbt)) ==> Counted(psbt))
    {
      var w := f(ViewOf(psbt));
      assert SameLengths(ViewOf(psbt), w);
      psbt := psbt.(global := psbt.global.(fields := w.global), inputs := w.inputs, outputs := w.outputs);
    }

    /** Updating may have lost the lock time, so it is checked again. */
    method IntoPsbt() returns (r: Result<Psbt, LockTimeError>)
      ensures r == Ready(psbt)
      ensures Step(Updating(psbt), HandOver) == if r.Ok? then Some(Loose(r.value)) else None
    {
      match LockTimeOf(psbt) {
        case Err(e) => r := Err(e);
        case Ok(_) => r := Ok(psbt);
      }
    }

    method IntoSigner() returns (r: Result<Signer.Signer, LockTimeError>)
      ensures r.Ok? <==> Ready(psbt).Ok?
      ensures r.Ok? ==> fresh(r.value) && r.value.psbt == psbt && r.value.Valid()
      ensures Step(Updating(psbt), StartSigning) == if r.Ok? then Some(Signing(psbt, r.value.cache)) else None
    {
      var p := IntoPsbt();
      match p {
        case Err(e) => r := Err(e);
        case Ok(q) => r := Signer.Signer.New(q);
      }
    }
  }

  /* ----- the protocol ----- */

  /** Who holds the PSBT; `Loose` is between roles. */
  datatype Role =
    | Creating(psbt: Psbt) | Constructing(psbt: Psbt, kind: Kind) | Updating(psbt: Psbt)
    | Signing(psbt: Psbt, cache: Transaction) | Loose(psbt: Psbt)

  datatype Action =
    | SetFallback(lock: nat) | NoteSingle | AllowInputs | AllowOutputs | SetTxVersion(version: nat)
    | StartConstructing(kind: Kind)
    | PutInput(input: I.Input) | PutOutput(output: O.Output) | EndInputs | EndOutputs | StartUpdating
    | Apply(update: Update) | StartSigning
    | ClearFor(sighash: nat) | WriteSigs(sigs: seq<InputSigs>)
    | HandOver

  /** One step; `None` if the role has no such step or the step fails, which loses the PSBT. */
  function Step(r: Role, a: Action): Option<Role> {
    match r
    case Creating(p) => CreatorStep(p, a)
    case Constructing(p, kind) => ConstructorStep(p, kind, a)
    case Updating(p) => UpdaterStep(p, a)
    case Signing(p, cache) => SignerStep(p, cache, a)
    case Loose(p) => LooseStep(p, a)
  }

  function CreatorStep(p: Psbt, a: Action): Option<Role> {
    match a
    case SetFallback(lock) => Some(Creating(p.(global := p.global.(fallbackLockTime := Some(lock)))))
    case NoteSingle => Some(Creating(SetFlags(p, F.Set2(FlagsOf(p)))))
    case AllowInputs => Some(Creating(SetFlags(p, F.Set0(FlagsOf(p)))))
    case AllowOutputs => Some(Creating(SetFlags(p, F.Set1(FlagsOf(p)))))
    case SetTxVersion(v) => Some(Creating(p.(global := p.global.(txVersion := v))))
    case StartConstructing(kind) => Some(Constructing(SetFlags(p, FlagsFor(FlagsOf(p), kind)), kind))
    case HandOver => Some(Loose(p))
    case _ => None
  }

  function ConstructorStep(p: Psbt, kind: Kind, a: Action): Option<Role> {
    match a
    case PutInput(i) => if kind == OutputsOnly then None else Some(Constructing(WithInput(p, i), kind))
    case PutOutput(o) => if kind == InputsOnly || !ValidOutput(o) then None else Some(Constructing(WithOutput(p, o), kind))
    case EndInputs => Some(Constructing(SetFlags(p, F.Clear0(FlagsOf(p))), kind))
    case EndOutputs => Some(Constructing(SetFlags(p, F.Clear1(FlagsOf(p))), kind))
    case StartUpdating => if Ready(Closed(p)).Ok? then Some(Updating(Closed(p))) else None
    case HandOver => if Ready(p).Ok? then Some(Loose(p)) else None
    case _ => None
  }

  function UpdaterStep(p: Psbt, a: Action): Option<Role> {
    match a
    case Apply(f) => Some(Updating(Updated(p, f)))
    case StartSigning => StartSigner(p)
    case HandOver => if Ready(p).Ok? then Some(Loose(p)) else None
    case _ => None
  }

  function StartSigner(p: Psbt): Option<Role> {
    match UnsignedTransaction(p) case Err(_) => None case Ok(tx) => Some(Signing(p, tx))
  }

  function SignerStep(p: Psbt, cache: Transaction, a: Action): Option<Role> {
    match a
    case ClearFor(sighash) => Some(Signing(Signer.ClearTxModifiable(p, sighash), cache))
    case WriteSigs(sigs) =>
      (match Signer.AppliedSigs(p, sigs) case Err(_) => None case Ok(q) => Some(Loose(q)))
    case HandOver => Some(Loose(p))
    case _ => None
  }

  function LooseStep(p: Psbt, a: Action): Option<Role> {
    match a
    case StartConstructing(kind) => if Admits(FlagsOf(p), kind) then Some(Constructing(p, kind)) else None
    case StartUpdating => if Ready(p).Ok? then Some(Updating(p)) else None
    case StartSigning => StartSigner(p)
    case _ => None
  }

  function Run(r: Role, actions: seq<Action>): Option<Role>
    decreases |actions|
  {
    if actions == [] then Some(r)
    else match Step(r, actions[0]) case None => None case Some(s) => Run(s, actions[1..])
  }

  /* ----- a Signer's methods are steps ----- */

  method Begin(p: Psbt) returns (r: Result<Signer.Signer, LockTimeError>)
    ensures r.Ok? ==> fresh(r.value) && r.value.Valid() && r.value.psbt == p
    ensures Step(Loose(p), StartSigning) == if r.Ok? then Some(Signing(p, r.value.cache)) else None
  {
    r := Signer.Signer.New(p);
  }

  method Clear(signer: Signer.Signer, sighash: nat)
    requires signer.Valid()
    modifies signer
    ensures signer.Valid()
    ensures Step(Signing(old(signer.psbt), old(signer.cache)), ClearFor(sighash))
         == Some(Signing(signer.psbt, signer.cache))
  {
    signer.EcdsaClearTxModifiable(sighash);
  }

  method Write(signer: Signer.Signer, sigs: seq<InputSigs>) returns (r: Result<Psbt, SignError>)
    requires signer.Valid()
    modifies signer
    ensures Step(Signing(old(signer.psbt), old(signer.cache)), WriteSigs(sigs))
         == if r.Ok? then Some(Loose(r.value)) else None
  {
    r := signer.Apply(sigs);
  }

  method GiveBack(signer: Signer.Signer) returns (p: Psbt)
    requires signer.Valid()
    ensures Step(Signing(signer.psbt, signer.cache), HandOver) == Some(Loose(p))
  {
    p := signer.IntoPsbt();
  }

  /* ----- what every run keeps ----- */

  predicate Counted(p: Psbt) { p.global.inputCount == |p.inputs| && p.global.outputCount == |p.outputs| }

  /** Counts are lengths, the version is 2, and a Signer's cache is its PSBT's transaction. */
  predicate Sound(r: Role) {
    && Counted(r.psbt) && r.psbt.global.version == G.V2
    && (r.Signing? ==> UnsignedTransaction(r.psbt) == Ok(r.cache))
  }

  lemma StepSound(r: Role, a: Action)
    requires Sound(r) && Step(r, a).Some?
    ensures Sound(Step(r, a).value)
  {
    hide UnsignedTransaction, DetermineLockTime, Signer.AppliedSigs, F.Applied, Id;
    match r {
      case Updating(p) => if a.Apply? { assert SameLengths(ViewOf(p), a.update(ViewOf(p))); }
      case Signing(p, cache) =>
        if a.ClearFor? { Signer.OnlyFlagsMoved(p, Signer.ClearTxModifiable(p, a.sighash)); }
        if a.WriteSigs? { Signer.ApplyFrame(p, a.sigs, Signer.AppliedSigs(p, a.sigs).value); }
      case _ =>
    }
  }

  /** Over every run of the roles from a new Creator the counts are the lengths of the lists. */
  lemma {:induction false} RunSound(r: Role, actions: seq<Action>)
    requires Sound(r) && Run(r, actions).Some?
    ensures Sound(Run(r, actions).value)
    decreases |actions|
  {
    hide Step, Sound;
    if actions != [] {
      StepSound(r, actions[0]);
      RunSound(Step(r, actions[0]).value, actions[1..]);
    }
  }

  lemma FromCreator(actions: seq<Action>)
    requires Run(Creating(Blank()), actions).Some?
    ensures Sound(Run(Creating(Blank()), actions).value)
  {
    hide Run;
    RunSound(Creating(Blank()), actions);
  }

  /* ----- what a Creator creates ----- */

  ghost predicate OnlyCreates(actions: seq<Action>) {
    forall a | a in actions ::
      a.SetFallback? || a.NoteSingle? || a.AllowInputs? || a.AllowOutputs? || a.SetTxVersion?
  }

  function LastFallback(actions: seq<Action>, before: Option<nat>): Option<nat>
    decreases |actions|
  {
    if actions == [] then before
    else LastFallback(actions[1..], if actions[0].SetFallback? then Some(actions[0].lock) else before)
  }

  function LastVersion(actions: seq<Action>, before: nat): nat
    decreases |actions|
  {
    if actions == [] then before
    else LastVersion(actions[1..], if actions[0].SetTxVersion? then actions[0].version else before)
  }

  /** The flags after some settings: each bit is set if it was, or if its setting is among them. */
  ghost predicate FlagsAllow(b: byte, actions: seq<Action>, c: byte) {
    && (F.Bit0(c) <==> F.Bit0(b) || AllowInputs in actions) && (F.Bit1(c) <==> F.Bit1(b) || AllowOutputs in actions)
    && (F.Bit2(c) <==> F.Bit2(b) || NoteSingle in actions) && F.Other(c) == F.Other(b)
  }

  /** One Creator setting moves one field, or one bit of the flags. */
  lemma SettingMoves(p: Psbt, a: Action)
    requires OnlyCreates([a])
    ensures Step(Creating(p), a).Some? && Step(Creating(p), a).value.Creating?
    ensures var q := Step(Creating(p), a).value.psbt;
      && q == p.(global := p.global.(txVersion := q.global.txVersion, fallbackLockTime := q.global.fallbackLockTime,
                                     txModifiableFlags := FlagsOf(q)))
      && q.global.txVersion == (if a.SetTxVersion? then a.version else p.global.txVersion)
      && q.global.fallbackLockTime == (if a.SetFallback? then Some(a.lock) else p.global.fallbackLockTime)
      && FlagsAllow(FlagsOf(p), [a], FlagsOf(q))
  {
    hide F.Bit0, F.Bit1, F.Bit2, F.Other, F.Set0, F.Set1, F.Set2;
    F.Setting(FlagsOf(p));
    assert a in [a];
  }

  /**
   * Whatever a Creator is told, in whatever order: the last transaction version and fallback lock time
   * stand, each permission stands if it was ever given, and nothing else has moved.
   */
  lemma {:induction false} CreatorSettles(p: Psbt, actions: seq<Action>)
    requires OnlyCreates(actions)
    ensures Run(Creating(p), actions).Some? && Run(Creating(p), actions).value.Creating?
    ensures var q := Run(Creating(p), actions).value.psbt;
      && q == p.(global := p.global.(txVersion := q.global.txVersion, fallbackLockTime := q.global.fallbackLockTime,
                                     txModifiableFlags := FlagsOf(q)))
      && q.global.txVersion == LastVersion(actions, p.global.txVersion)
      && q.global.fallbackLockTime == LastFallback(actions, p.global.fallbackLockTime)
      && FlagsAllow(FlagsOf(p), actions, FlagsOf(q))
    decreases |actions|
  {
    hide Step, F.Bit0, F.Bit1, F.Bit2, F.Other;
    if actions != [] {
      assert actions[0] in actions && actions == [actions[0]] + actions[1..];
      SettingMoves(p, actions[0]);
      CreatorSettles(Step(Creating(p), actions[0]).value.psbt, actions[1..]);
    }
  }

  /** A new PSBT: version 2, transaction version 2, no flags, and nothing in it. */
  lemma BlankIs()
    ensures Blank().global.version == 2 && Blank().global.txVersion == 2 && Blank().global.fallbackLockTime == None
    ensures Blank().global.txModifiableFlags == 0 && Blank().global.inputCount == 0 && Blank().global.outputCount == 0
    ensures Blank().inputs == [] && Blank().outputs == [] && Id(Blank()).Ok?
  {
  }

  /* ----- what is over stays over ----- */

  /** Nothing may be added any more. */
  predicate Frozen(p: Psbt) { !F.Bit0(FlagsOf(p)) && !F.Bit1(FlagsOf(p)) }

  predicate Past(r: Role) { Frozen(r.psbt) && !r.Creating? && !r.Constructing? }

  lemma StepStaysPast(r: Role, a: Action)
    requires Past(r) && Step(r, a).Some?
    ensures Past(Step(r, a).value)
    ensures var q := Step(r, a).value.psbt; |q.inputs| == |r.psbt.inputs| && |q.outputs| == |r.psbt.outputs|
  {
    hide UnsignedTransaction, DetermineLockTime, Signer.AppliedSigs, F.Applied, F.Bit0, F.Bit1, F.AppliedAll, Id;
    match r {
      case Updating(p) => if a.Apply? { assert SameLengths(ViewOf(p), a.update(ViewOf(p))); }
      case Signing(p, cache) =>
        if a.ClearFor? { F.OneWay(FlagsOf(p), a.sighash); }
        if a.WriteSigs? {
          var q := Signer.AppliedSigs(p, a.sigs).value;
          Signer.ApplyFrame(p, a.sigs, q);
          F.AppliedAllBits(FlagsOf(p), Signer.TypesSigned(a.sigs));
        }
      case _ =>
    }
  }

  /**
   * Once a Constructor has become an Updater, no run of any roles adds an input or an output: the
   * permissions are gone and nothing brings them back.
   */
  lemma {:induction false} NothingIsAdded(r: Role, actions: seq<Action>)
    requires Past(r) && Run(r, actions).Some?
    ensures Past(Run(r, actions).value)
    ensures var q := Run(r, actions).value.psbt; |q.inputs| == |r.psbt.inputs| && |q.outputs| == |r.psbt.outputs|
    decreases |actions|
  {
    hide Step, Past;
    if actions != [] {
      StepStaysPast(r, actions[0]);
      NothingIsAdded(Step(r, actions[0]).value, actions[1..]);
    }
  }

  lemma ClosingIsPast(p: Psbt, kind: Kind)
    ensures Step(Constructing(p, kind), StartUpdating).Some? ==> Past(Step(Constructing(p, kind), StartUpdating).value)
    ensures Step(Constructing(p, kind), StartUpdating).Some? <==> LockTimeOf(p).Ok?
  {
    hide DetermineLockTime, F.Bit0, F.Bit1, F.Clear0, F.Clear1;
    F.Clearing(FlagsOf(p));
    F.Clearing(F.Clear0(FlagsOf(p)));
  }

  /**
   * Within the Constructor the flags only advise: its type decides what may be added, so an input
   * goes in after `no_more_inputs` exactly as before.
   */
  lemma EndingInputsIsAdvice(p: Psbt, kind: Kind, i: I.Input)
    requires kind != OutputsOnly
    ensures var r := Run(Constructing(p, kind), [EndInputs, PutInput(i)]);
      r.Some? && !F.Bit0(FlagsOf(r.value.psbt)) && r.value.psbt.inputs == p.inputs + [i]
  {
    hide F.Bit0, F.Clear0;
    F.Clearing(FlagsOf(p));
    var s := Constructing(SetFlags(p, F.Clear0(FlagsOf(p))), kind);
    assert [EndInputs, PutInput(i)][1..] == [PutInput(i)] && [PutInput(i)][1..] == [];
    assert Run(s, [PutInput(i)]) == Run(Step(s, PutInput(i)).value, []);
  }

  /** And an output after `no_more_outputs`; with one left bare by its label still refused. */
  lemma EndingOutputsIsAdvice(p: Psbt, kind: Kind, o: O.Output)
    ensures var r := Run(Constructing(p, kind), [EndOutputs, PutOutput(o)]);
      && (r.Some? <==> Step(Constructing(p, kind), PutOutput(o)).Some?)
      && (r.Some? ==> !F.Bit1(FlagsOf(r.value.psbt)) && r.value.psbt.outputs == p.outputs + [o])
  {
    hide F.Bit1, F.Clear1;
    F.Clearing(FlagsOf(p));
    var s := Constructing(SetFlags(p, F.Clear1(FlagsOf(p))), kind);
    assert [EndOutputs, PutOutput(o)][1..] == [PutOutput(o)] && [PutOutput(o)][1..] == [];
    assert Run(s, [PutOutput(o)]) == if Step(s, PutOutput(o)).Some? then Run(Step(s, PutOutput(o)).value, []) else None;
  }

  /** Signer runs: the transaction and the id outlast every session, clear and written signature. */
  predicate SignerOnly(actions: seq<Action>) {
    forall k | 0 <= k < |actions| :: actions[k].ClearFor? || actions[k].WriteSigs? || actions[k].StartSigning?
  }

  lemma SignerStepKeeps(r: Role, a: Action)
    requires r.Signing? || r.Loose?
    requires a.ClearFor? || a.WriteSigs? || a.StartSigning?
    requires Step(r, a).Some?
    ensures Step(r, a).value.Signing? || Step(r, a).value.Loose?
    ensures Signer.OnlySigned(r.psbt, Step(r, a).value.psbt)
    ensures UnsignedTransaction(Step(r, a).value.psbt) == UnsignedTransaction(r.psbt)
    ensures Id(Step(r, a).value.psbt) == Id(r.psbt)
  {
    hide UnsignedTransaction, Signer.AppliedSigs, F.Applied, Id, Signer.OnlySigned, F.AppliedAll;
    var p := r.psbt;
    Signer.OnlySignedSelf(p);
    if a.ClearFor? { Signer.OnlyFlagsMoved(p, Signer.ClearTxModifiable(p, a.sighash)); }
    if a.WriteSigs? && r.Signing? {
      Signer.ApplyFrame(p, a.sigs, Signer.AppliedSigs(p, a.sigs).value);
      Signer.SignedTransaction(p, Signer.AppliedSigs(p, a.sigs).value);
    }
  }

  lemma {:induction false} SignersKeep(r: Role, actions: seq<Action>)
    requires r.Signing? || r.Loose?
    requires SignerOnly(actions) && Run(r, actions).Some?
    ensures var q := Run(r, actions).value.psbt;
      Signer.OnlySigned(r.psbt, q) && UnsignedTransaction(q) == UnsignedTransaction(r.psbt) && Id(q) == Id(r.psbt)
    decreases |actions|
  {
    hide UnsignedTransaction, Id, Signer.OnlySigned, Step;
    Signer.OnlySignedSelf(r.psbt);
    if actions != [] {
      var s := Step(r, actions[0]).value;
      SignerStepKeeps(r, actions[0]);
      assert SignerOnly(actions[1..]);
      SignersKeep(s, actions[1..]);
      Signer.OnlySignedChain(r.psbt, s.psbt, Run(r, actions).value.psbt);
    }
  }
}
