/** Signature hash types, as the 32-bit numbers `PsbtSighashType` holds. */
module Sighash {
  /** `EcdsaSighashType::from_standard` succeeds. */
  predicate EcdsaStandard(n: nat) {
    n == 1 || n == 2 || n == 3 || n == 0x81 || n == 0x82 || n == 0x83
  }

  /** `TapSighashType::from_consensus_u8` succeeds; zero is the taproot default. */
  predicate TapValid(n: nat) { n == 0 || EcdsaStandard(n) }

  /** A pure flag bit check: bit 7 of any number. */
  predicate IsAnyoneCanPay(n: nat) { n / 128 % 2 == 1 }

  predicate IsNone(n: nat) { n == 2 || n == 0x82 }

  predicate IsSingle(n: nat) { n == 3 || n == 0x83 }

  /**
   * The standard types are one byte: a base type of 1, 2 or 3 in the low five bits, bit 7 for
   * ANYONECANPAY, and nothing in between; taproot has the zero byte besides. The base type alone
   * says NONE or SINGLE.
   */
  lemma StandardTypes(n: nat)
    ensures EcdsaStandard(n) <==> n < 256 && 1 <= n % 32 <= 3 && n / 32 % 4 == 0
    ensures TapValid(n) <==> n == 0 || (n < 256 && 1 <= n % 32 <= 3 && n / 32 % 4 == 0)
    ensures TapValid(n) ==> (IsNone(n) <==> n % 32 == 2) && (IsSingle(n) <==> n % 32 == 3)
    ensures IsNone(n) || IsSingle(n) ==> EcdsaStandard(n)
    ensures IsAnyoneCanPay(n) <==> n % 256 >= 128
  {
  }
}
