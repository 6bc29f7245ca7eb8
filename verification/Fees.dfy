/** The fee a PSBT pays, in 64-bit satoshis. */
module Fees {
  import opened Bytes
  import opened CompactSize
  import opened Funding
  import opened Psbt
  import I = Input
  import O = Output

  datatype FeeError = FundingFailed(error: FundingUtxoError) | InputOverflow | OutputOverflow | Negative

  /* ----- checked sums ----- */

  function AddFunding(sum: nat, ins: seq<I.Input>): Result<nat, FeeError>
    decreases |ins|
  {
    if ins == [] then Ok(sum)
    else
      match FundingUtxo(ins[0])
      case Err(e) => Err(FundingFailed(e))
      case Ok(o) => if sum + o.value >= U64 then Err(InputOverflow) else AddFunding(sum + o.value, ins[1..])
  }

  function AddAmounts(sum: nat, outs: seq<O.Output>): Result<nat, FeeError>
    decreases |outs|
  {
    if outs == [] then Ok(sum)
    else if sum + outs[0].amount >= U64 then Err(OutputOverflow)
    else AddAmounts(sum + outs[0].amount, outs[1..])
  }

  function FeeOf(p: Psbt): Result<nat, FeeError> {
    match AddFunding(0, p.inputs)
    case Err(e) => Err(e)
    case Ok(spent) =>
      match AddAmounts(0, p.outputs)
      case Err(e) => Err(e)
      case Ok(paid) => if paid > spent then Err(Negative) else Ok(spent - paid)
  }

  method Fee(p: Psbt) returns (r: Result<nat, FeeError>)
    ensures r == FeeOf(p)
  {
    hide FundingUtxo;
    var spent: nat, n: nat := 0, 0;
    assert p.inputs[0..] == p.inputs && p.outputs[0..] == p.outputs;
    while n < |p.inputs|
      invariant n <= |p.inputs| && AddFunding(0, p.inputs) == AddFunding(spent, p.inputs[n..])
    {
      assert p.inputs[n..][1..] == p.inputs[n + 1..];
      match FundingUtxo(p.inputs[n]) {
        case Err(e) => return Err(FundingFailed(e));
        case Ok(o) =>
          if spent + o.value >= U64 { return Err(InputOverflow); }
          spent := spent + o.value;
      }
      n := n + 1;
    }
    var paid: nat, m: nat := 0, 0;
    while m < |p.outputs|
      invariant m <= |p.outputs| && AddAmounts(0, p.outputs) == AddAmounts(paid, p.outputs[m..])
    {
      assert p.outputs[m..][1..] == p.outputs[m + 1..];
      if paid + p.outputs[m].amount >= U64 { return Err(OutputOverflow); }
      paid := paid + p.outputs[m].amount;
      m := m + 1;
    }
    if paid > spent { return Err(Negative); }
    r := Ok(spent - paid);
  }

  /* ----- unbounded sums ----- */

  predicate AllFunded(ins: seq<I.Input>) { forall k | 0 <= k < |ins| :: FundingUtxo(ins[k]).Ok? }

  function Spent(ins: seq<I.Input>): nat
    requires AllFunded(ins)
    decreases |ins|
  {
    if ins == [] then 0 else FundingUtxo(ins[0]).value.value + Spent(ins[1..])
  }

  function Paid(outs: seq<O.Output>): nat
    decreases |outs|
  {
    if outs == [] then 0 else outs[0].amount + Paid(outs[1..])
  }

  lemma {:induction false} AddFundingExact(sum: nat, ins: seq<I.Input>)
    requires sum < U64
    ensures AddFunding(sum, ins).Ok? <==> AllFunded(ins) && sum + Spent(ins) < U64
    ensures AddFunding(sum, ins).Ok? ==> AddFunding(sum, ins).value == sum + Spent(ins)
    ensures AddFunding(sum, ins) == Err(InputOverflow) && AllFunded(ins) ==> sum + Spent(ins) >= U64
    ensures AddFunding(sum, ins).Err? ==>
      AddFunding(sum, ins).error.FundingFailed? || AddFunding(sum, ins).error.InputOverflow?
    decreases |ins|
  {
    hide FundingUtxo;
    if ins != [] {
      var rest := ins[1..];
      assert AllFunded(ins) <==> FundingUtxo(ins[0]).Ok? && AllFunded(rest) by {
        assert forall k | 0 < k < |ins| :: ins[k] == rest[k - 1];
        assert forall k | 0 <= k < |rest| :: rest[k] == ins[k + 1];
      }
      if FundingUtxo(ins[0]).Ok? && sum + FundingUtxo(ins[0]).value.value < U64 {
        AddFundingExact(sum + FundingUtxo(ins[0]).value.value, rest);
      }
    }
  }

  lemma {:induction false} AddAmountsExact(sum: nat, outs: seq<O.Output>)
    requires sum < U64
    ensures AddAmounts(sum, outs) == if sum + Paid(outs) < U64 then Ok(sum + Paid(outs)) else Err(OutputOverflow)
    decreases |outs|
  {
    if outs != [] && sum + outs[0].amount < U64 { AddAmountsExact(sum + outs[0].amount, outs[1..]); }
  }

  /**
   * Conservation: the fee is defined exactly when every input's funding output is known, both sums
   * fit in 64 bits and the inputs cover the outputs; then outputs and fee are the inputs exactly.
   */
  lemma FeeConserves(p: Psbt)
    ensures FeeOf(p).Ok? <==>
      AllFunded(p.inputs) && Spent(p.inputs) < U64 && Paid(p.outputs) < U64 && Paid(p.outputs) <= Spent(p.inputs)
    ensures FeeOf(p).Ok? ==> Paid(p.outputs) + FeeOf(p).value == Spent(p.inputs)
    ensures AllFunded(p.inputs) && FeeOf(p).Err? ==>
      FeeOf(p).error
      == (if Spent(p.inputs) >= U64 then InputOverflow else if Paid(p.outputs) >= U64 then OutputOverflow else Negative)
  {
    hide FundingUtxo, AddFunding, AddAmounts, AllFunded;
    AddFundingExact(0, p.inputs);
    AddAmountsExact(0, p.outputs);
    FundedFails(0, p.inputs);
  }

  lemma {:induction false} FundedFails(sum: nat, ins: seq<I.Input>)
    ensures AllFunded(ins) && AddFunding(sum, ins).Err? ==> AddFunding(sum, ins) == Err(InputOverflow)
    decreases |ins|
  {
    hide FundingUtxo;
    if ins != [] && AllFunded(ins) {
      var rest := ins[1..];
      assert forall k | 0 <= k < |rest| :: rest[k] == ins[k + 1];
      assert FundingUtxo(ins[0]).Ok?;
      FundedFails(sum + FundingUtxo(ins[0]).value.value, rest);
    }
  }

  /** The fee is fixed by what funds the inputs and by the outputs: nothing else moves it. */
  lemma {:induction false} FeeUnmoved(sum: nat, ins: seq<I.Input>, others: seq<I.Input>)
    requires |ins| == |others| && forall k | 0 <= k < |ins| :: SameFunding(ins[k], others[k])
    ensures AddFunding(sum, ins) == AddFunding(sum, others)
    decreases |ins|
  {
    hide FundingUtxo, SameFunding;
    if ins != [] {
      var i, j := ins[1..], others[1..];
      assert forall k | 0 <= k < |i| :: i[k] == ins[k + 1] && j[k] == others[k + 1];
      SameFundingUtxo(ins[0], others[0]);
      if FundingUtxo(ins[0]).Ok? { FeeUnmoved(sum + FundingUtxo(ins[0]).value.value, i, j); }
    }
  }
}
