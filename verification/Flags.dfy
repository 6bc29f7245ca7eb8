/** The transaction modifiable flags (BIP-370) and how signing moves them. */
module Flags {
  import opened Bytes
  import Sighash

  /* ----- single bits of a byte ----- */

  predicate Bit0(b: byte) { b % 2 == 1 }
  predicate Bit1(b: byte) { b / 2 % 2 == 1 }
  predicate Bit2(b: byte) { b / 4 % 2 == 1 }

  // `self.0 &= !FLAG` and `self.0 |= FLAG`.
  function Clear0(b: byte): byte { if Bit0(b) then b - 1 else b }
  function Clear1(b: byte): byte { if Bit1(b) then b - 2 else b }
  function Set0(b: byte): byte { if Bit0(b) then b else b + 1 }
  function Set1(b: byte): byte { if Bit1(b) then b else b + 2 }
  function Set2(b: byte): byte { if Bit2(b) then b else b + 4 }

  /** The five bits no rule mentions. */
  function Other(b: byte): nat { b / 8 }

  function One(on: bool): nat { if on then 1 else 0 }

  /** A byte is its bits. */
  lemma Digits(b: byte)
    ensures b == 8 * Other(b) + 4 * One(Bit2(b)) + 2 * One(Bit1(b)) + One(Bit0(b))
  {
    Halves(b);
    Halves(b / 2);
    Halves(b / 4);
    assert b / 2 / 2 == b / 4 && b / 4 / 2 == b / 8;
  }

  lemma Halves(n: nat)
    ensures n == 2 * (n / 2) + One(n % 2 == 1)
  {
  }

  /** And the bits of a sum of distinct powers of two are its summands. */
  lemma BitsOfSum(b: byte, o: nat, x: bool, y: bool, z: bool)
    requires b == 8 * o + 4 * One(z) + 2 * One(y) + One(x)
    ensures Bit0(b) == x && Bit1(b) == y && Bit2(b) == z && Other(b) == o
  {
    assert b / 2 == 4 * o + 2 * One(z) + One(y);
    assert b / 4 == 2 * o + One(z);
    assert b / 8 == o;
  }

  lemma Bits(a: byte, b: byte)
    requires Bit0(a) == Bit0(b) && Bit1(a) == Bit1(b) && Bit2(a) == Bit2(b) && Other(a) == Other(b)
    ensures a == b
  {
    hide Bit0, Bit1, Bit2, Other;
    Digits(a);
    Digits(b);
  }

  lemma Clearing(b: byte)
    ensures !Bit0(Clear0(b)) && Bit1(Clear0(b)) == Bit1(b) && Bit2(Clear0(b)) == Bit2(b) && Other(Clear0(b)) == Other(b)
    ensures !Bit1(Clear1(b)) && Bit0(Clear1(b)) == Bit0(b) && Bit2(Clear1(b)) == Bit2(b) && Other(Clear1(b)) == Other(b)
  {
    hide Bit0, Bit1, Bit2, Other;
    Digits(b);
    BitsOfSum(Clear0(b), Other(b), false, Bit1(b), Bit2(b));
    BitsOfSum(Clear1(b), Other(b), Bit0(b), false, Bit2(b));
  }

  lemma Setting(b: byte)
    ensures Bit2(Set2(b)) && Bit0(Set2(b)) == Bit0(b) && Bit1(Set2(b)) == Bit1(b) && Other(Set2(b)) == Other(b)
    ensures Bit0(Set0(b)) && Bit1(Set0(b)) == Bit1(b) && Bit2(Set0(b)) == Bit2(b) && Other(Set0(b)) == Other(b)
    ensures Bit1(Set1(b)) && Bit0(Set1(b)) == Bit0(b) && Bit2(Set1(b)) == Bit2(b) && Other(Set1(b)) == Other(b)
  {
    hide Bit0, Bit1, Bit2, Other;
    Digits(b);
    BitsOfSum(Set2(b), Other(b), Bit0(b), Bit1(b), true);
    BitsOfSum(Set0(b), Other(b), true, Bit1(b), Bit2(b));
    BitsOfSum(Set1(b), Other(b), Bit0(b), true, Bit2(b));
  }

  /** What signing with a type does to the flags (`apply_sighash`). */
  function Applied(b: byte, sighash: nat): byte {
    var b0 := if Sighash.IsAnyoneCanPay(sighash) then b else Clear0(b);
    var b1 := if Sighash.IsNone(sighash) then b0 else Clear1(b0);
    if Sighash.IsSingle(sighash) then Set2(b1) else b1
  }

  lemma AppliedBits(b: byte, s: nat)
    ensures Bit0(Applied(b, s)) <==> Bit0(b) && Sighash.IsAnyoneCanPay(s)
    ensures Bit1(Applied(b, s)) <==> Bit1(b) && Sighash.IsNone(s)
    ensures Bit2(Applied(b, s)) <==> Bit2(b) || Sighash.IsSingle(s)
    ensures Other(Applied(b, s)) == Other(b)
  {
    hide Bit0, Bit1, Bit2, Other, Clear0, Clear1, Set2, Sighash.IsAnyoneCanPay, Sighash.IsNone, Sighash.IsSingle;
    var b0 := if Sighash.IsAnyoneCanPay(s) then b else Clear0(b);
    Clearing(b);
    var b1 := if Sighash.IsNone(s) then b0 else Clear1(b0);
    Clearing(b0);
    Setting(b1);
  }

  /** A whole signing sequence. */
  function AppliedAll(b: byte, sighashes: seq<nat>): byte
    decreases |sighashes|
  {
    if sighashes == [] then b else AppliedAll(Applied(b, sighashes[0]), sighashes[1..])
  }

  predicate AllAnyoneCanPay(s: seq<nat>) { forall x | x in s :: Sighash.IsAnyoneCanPay(x) }
  predicate AllNone(s: seq<nat>) { forall x | x in s :: Sighash.IsNone(x) }
  predicate SomeSingle(s: seq<nat>) { exists x | x in s :: Sighash.IsSingle(x) }

  /**
   * After any signing sequence: inputs are still modifiable iff they were and all signatures are
   * ANYONECANPAY, outputs iff they were and all are NONE, and SINGLE is noted iff it was or one is.
   */
  lemma {:induction false} AppliedAllBits(b: byte, s: seq<nat>)
    ensures Bit0(AppliedAll(b, s)) <==> Bit0(b) && AllAnyoneCanPay(s)
    ensures Bit1(AppliedAll(b, s)) <==> Bit1(b) && AllNone(s)
    ensures Bit2(AppliedAll(b, s)) <==> Bit2(b) || SomeSingle(s)
    ensures Other(AppliedAll(b, s)) == Other(b)
    decreases |s|
  {
    hide Applied, Bit0, Bit1, Bit2, Other, Sighash.IsAnyoneCanPay, Sighash.IsNone, Sighash.IsSingle;
    if s != [] {
      AppliedBits(b, s[0]);
      AppliedAllBits(Applied(b, s[0]), s[1..]);
      assert s == [s[0]] + s[1..];
      assert forall x :: x in s <==> x == s[0] || x in s[1..];
    }
  }

  lemma {:induction false} AppliedAllLast(b: byte, s: seq<nat>, last: nat)
    ensures AppliedAll(b, s + [last]) == Applied(AppliedAll(b, s), last)
    decreases |s|
  {
    hide Applied;
    if s == [] {
      assert s + [last] == [last];
    } else {
      assert (s + [last])[1..] == s[1..] + [last];
      AppliedAllLast(Applied(b, s[0]), s[1..], last);
    }
  }

  /** The order in which signatures are made does not matter, nor how often each type is used. */
  lemma OrderIndependent(b: byte, s: seq<nat>, t: seq<nat>)
    requires forall x :: x in s <==> x in t
    ensures AppliedAll(b, s) == AppliedAll(b, t)
  {
    hide AppliedAll, Bit0, Bit1, Bit2, Other;
    AppliedAllBits(b, s);
    AppliedAllBits(b, t);
    Bits(AppliedAll(b, s), AppliedAll(b, t));
  }

  /** The two permissions only ever go, the warning only ever comes. */
  lemma OneWay(b: byte, s: nat)
    ensures Bit0(Applied(b, s)) ==> Bit0(b)
    ensures Bit1(Applied(b, s)) ==> Bit1(b)
    ensures Bit2(b) ==> Bit2(Applied(b, s))
    ensures Applied(Applied(b, s), s) == Applied(b, s)
  {
    AppliedBits(b, s);
    AppliedBits(Applied(b, s), s);
    Bits(Applied(Applied(b, s), s), Applied(b, s));
  }

  class TxModifiableFlags {
    var bits: byte

    constructor (bits: byte)
      ensures this.bits == bits
    {
      this.bits := bits;
    }

    method SetInputsModifiable()
      modifies this
      ensures bits == Set0(old(bits))
    {
      bits := Set0(bits);
    }

    method SetOutputsModifiable()
      modifies this
      ensures bits == Set1(old(bits))
    {
      bits := Set1(bits);
    }

    method SetSighashSingle()
      modifies this
      ensures bits == Set2(old(bits))
    {
      bits := Set2(bits);
    }

    method ClearInputsModifiable()
      modifies this
      ensures bits == Clear0(old(bits))
    {
      bits := Clear0(bits);
    }

    method ClearOutputsModifiable()
      modifies this
      ensures bits == Clear1(old(bits))
    {
      bits := Clear1(bits);
    }

    /** Signing with a type withdraws what it commits to, and remembers a SINGLE. */
    method ApplySighash(sighash: nat)
      modifies this
      ensures bits == Applied(old(bits), sighash)
    {
      if !Sighash.IsAnyoneCanPay(sighash) { ClearInputsModifiable(); }
      if !Sighash.IsNone(sighash) { ClearOutputsModifiable(); }
      if Sighash.IsSingle(sighash) { SetSighashSingle(); }
    }
  }
}
