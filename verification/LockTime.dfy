/** Lock time resolution over all inputs (BIP-370, "Determining Lock Time"). */
module LockTime {
  import opened Bytes
  import opened Bitcoin
  import I = Input

  /** `Conflict` is the error the caller sees; `ExpectFailed` is a failed `expect`. */
  datatype LockTimeError = Conflict | ExpectFailed

  predicate RequiresTime(i: I.Input) { i.minTime.Some? && i.minHeight.None? }
  predicate RequiresHeight(i: I.Input) { i.minHeight.Some? && i.minTime.None? }
  predicate HasLockTime(i: I.Input) { i.minTime.Some? || i.minHeight.Some? }

  predicate SatisfiedWithHeight(i: I.Input) {
    RequiresHeight(i) || (i.minTime.Some? && i.minHeight.Some?) || (i.minTime.None? && i.minHeight.None?)
  }

  /** The greater of two options, `None` being least. */
  function Later(a: Option<nat>, b: Option<nat>): Option<nat> {
    if a.None? then b else if b.None? || b.value < a.value then a else b
  }

  /** `Iterator::max`: nothing for an empty iterator. */
  function Max(xs: seq<Option<nat>>): Option<Option<nat>> {
    if xs == [] then None
    else
      match Max(xs[1..])
      case None => Some(xs[0])
      case Some(m) => Some(Later(xs[0], m))
  }

  function Heights(ins: seq<I.Input>): seq<Option<nat>> {
    seq(|ins|, i requires 0 <= i < |ins| => ins[i].minHeight)
  }

  function Times(ins: seq<I.Input>): seq<Option<nat>> {
    seq(|ins|, i requires 0 <= i < |ins| => ins[i].minTime)
  }

  function Expect(m: Option<Option<nat>>): Result<nat, LockTimeError> {
    if m.Some? && m.value.Some? then Ok(m.value.value) else Err(ExpectFailed)
  }

  function DetermineLockTime(fallback: Option<nat>, ins: seq<I.Input>): Result<nat, LockTimeError> {
    if (exists i | 0 <= i < |ins| :: RequiresTime(ins[i])) && (exists i | 0 <= i < |ins| :: RequiresHeight(ins[i]))
    then Err(Conflict)
    else if exists i | 0 <= i < |ins| :: HasLockTime(ins[i]) then
      if forall i | 0 <= i < |ins| :: SatisfiedWithHeight(ins[i])
      then Expect(Max(Heights(ins)))
      else Expect(Max(Times(ins)))
    else if fallback.Some? then Ok(fallback.value) else Ok(0)
  }

  /* ----- what it is for ----- */

  datatype Kind = Height | Time

  function KindOf(lock: nat): Kind { if lock < LOCK_TIME_THRESHOLD then Height else Time }

  function Requirement(i: I.Input, kind: Kind): Option<nat> {
    if kind == Height then i.minHeight else i.minTime
  }

  /** An input accepts a kind of lock time if it names a minimum of that kind, or none at all. */
  predicate Fits(i: I.Input, kind: Kind) { Requirement(i, kind).Some? || !HasLockTime(i) }

  predicate AllFit(ins: seq<I.Input>, kind: Kind) { forall i | 0 <= i < |ins| :: Fits(ins[i], kind) }

  /** A lock time an input can be spent under. */
  predicate Meets(i: I.Input, lock: nat) {
    HasLockTime(i) ==> Requirement(i, KindOf(lock)).Some? && Requirement(i, KindOf(lock)).value <= lock
  }

  predicate AllMeet(ins: seq<I.Input>, lock: nat) { forall i | 0 <= i < |ins| :: Meets(ins[i], lock) }

  /** What the field types guarantee: heights are below the threshold, times are not. */
  predicate InRange(i: I.Input) {
    && (i.minHeight.Some? ==> i.minHeight.value < LOCK_TIME_THRESHOLD)
    && (i.minTime.Some? ==> LOCK_TIME_THRESHOLD <= i.minTime.value)
  }

  predicate AllInRange(ins: seq<I.Input>) { forall i | 0 <= i < |ins| :: InRange(ins[i]) }

  predicate Constrained(ins: seq<I.Input>) { exists i | 0 <= i < |ins| :: HasLockTime(ins[i]) }

  /** The maximum is one of the options, and none is above it. */
  lemma {:induction false} MaxIs(xs: seq<Option<nat>>)
    requires xs != []
    ensures Max(xs).Some? && Max(xs).value in xs
    ensures forall x | x in xs && x.Some? :: Max(xs).value.Some? && x.value <= Max(xs).value.value
  {
    if |xs| > 1 { MaxIs(xs[1..]); }
  }

  /** With a requirement, the maximum over a kind of lock time is a number exactly if some input names that kind. */
  lemma MaxNamed(ins: seq<I.Input>, kind: Kind, i: nat)
    requires i < |ins| && Requirement(ins[i], kind).Some?
    ensures Expect(Max(if kind == Height then Heights(ins) else Times(ins))).Ok?
  {
    var xs := if kind == Height then Heights(ins) else Times(ins);
    MaxIs(xs);
    assert xs[i] in xs;
  }

  /** Resolution fails exactly when neither kind of lock time fits all inputs; no `expect` ever fails. */
  lemma FailsIffNothingFits(fallback: Option<nat>, ins: seq<I.Input>)
    ensures DetermineLockTime(fallback, ins).Err? <==> !AllFit(ins, Height) && !AllFit(ins, Time)
    ensures DetermineLockTime(fallback, ins) != Err(ExpectFailed)
  {
    hide Max, Heights, Times, Expect;
    if i :| 0 <= i < |ins| && HasLockTime(ins[i]) {
      if ins[i].minHeight.Some? { MaxNamed(ins, Height, i); }
      if ins[i].minTime.Some? { MaxNamed(ins, Time, i); }
    }
  }

  /** Without requirements the fallback is used, or zero. */
  lemma Unconstrained(fallback: Option<nat>, ins: seq<I.Input>)
    requires !Constrained(ins)
    ensures DetermineLockTime(fallback, ins) == Ok(if fallback.Some? then fallback.value else 0)
  {
  }

  /**
   * Optimality: with requirements, the lock time chosen is a height whenever heights fit all inputs
   * and a time otherwise; it meets every input; it equals some input's requirement; and no smaller
   * lock time of its kind meets every input.
   */
  lemma Optimal(fallback: Option<nat>, ins: seq<I.Input>)
    requires AllInRange(ins) && Constrained(ins)
    requires DetermineLockTime(fallback, ins).Ok?
    ensures var lock := DetermineLockTime(fallback, ins).value;
      && KindOf(lock) == (if AllFit(ins, Height) then Height else Time)
      && AllMeet(ins, lock)
      && (exists i | 0 <= i < |ins| :: Requirement(ins[i], KindOf(lock)) == Some(lock))
      && (forall other | KindOf(other) == KindOf(lock) && AllMeet(ins, other) :: lock <= other)
  {
    hide Max, Heights, Times, AllMeet;
    FailsIffNothingFits(fallback, ins);
    var kind := if AllFit(ins, Height) then Height else Time;
    HeightsFit(ins);
    var lock := DetermineLockTime(fallback, ins).value;
    var j :| 0 <= j < |ins| && HasLockTime(ins[j]);
    assert AllFit(ins, kind) && Fits(ins[j], kind);
    hide DetermineLockTime;
    Greatest(ins, kind, lock);
  }

  lemma HeightsFit(ins: seq<I.Input>)
    ensures AllFit(ins, Height) <==> forall i | 0 <= i < |ins| :: SatisfiedWithHeight(ins[i])
  {
    forall i | 0 <= i < |ins| ensures Fits(ins[i], Height) == SatisfiedWithHeight(ins[i]) { }
  }

  /** The maximum over a kind that fits all inputs is the least lock time of that kind that meets them all. */
  lemma Greatest(ins: seq<I.Input>, kind: Kind, lock: nat)
    requires AllInRange(ins) && AllFit(ins, kind) && ins != []
    requires Max(if kind == Height then Heights(ins) else Times(ins)) == Some(Some(lock))
    ensures KindOf(lock) == kind && AllMeet(ins, lock)
    ensures exists i | 0 <= i < |ins| :: Requirement(ins[i], kind) == Some(lock)
    ensures forall other | KindOf(other) == kind && AllMeet(ins, other) :: lock <= other
  {
    var xs := if kind == Height then Heights(ins) else Times(ins);
    MaxIs(xs);
    assert forall m | 0 <= m < |ins| :: xs[m] == Requirement(ins[m], kind);
    var i :| 0 <= i < |xs| && xs[i] == Some(lock);
    assert Requirement(ins[i], kind) == Some(lock) && InRange(ins[i]);
    hide Max, Heights, Times;
    forall m | 0 <= m < |ins| ensures Meets(ins[m], lock) {
      assert Fits(ins[m], kind) && xs[m] in xs;
    }
    forall other | KindOf(other) == kind && AllMeet(ins, other) ensures lock <= other {
      assert Meets(ins[i], other);
    }
  }

  /** The outcome depends on the inputs' requirements only: equal requirements, equal lock time. */
  lemma OnlyRequirementsMatter(fallback: Option<nat>, ins: seq<I.Input>, others: seq<I.Input>)
    requires |ins| == |others|
    requires forall i | 0 <= i < |ins| :: ins[i].minTime == others[i].minTime && ins[i].minHeight == others[i].minHeight
    ensures DetermineLockTime(fallback, ins) == DetermineLockTime(fallback, others)
  {
    assert Heights(ins) == Heights(others) && Times(ins) == Times(others);
    forall i | 0 <= i < |ins|
      ensures RequiresTime(ins[i]) == RequiresTime(others[i]) && RequiresHeight(ins[i]) == RequiresHeight(others[i])
      ensures HasLockTime(ins[i]) == HasLockTime(others[i])
      ensures SatisfiedWithHeight(ins[i]) == SatisfiedWithHeight(others[i])
    {
    }
  }
}
