/** Per-chain aggregation of Bitget and Bybit coin entries: an asset may be
    moved over several blockchains, and the adapters fold them into one
    withdraw flag, one deposit flag and three averaged amounts. */
module Chains {
  import opened Common
  import opened Feeds

  /** Which transfer direction a flag is about. */
  datatype Direction = Withdrawal | Deposit

  /** Bitget marks an enabled chain with the string "true", Bybit with "1". */
  predicate ChainEnabled(c: Chain, d: Direction) {
    match c
    case BitgetChain(w, r, _, _, _) => (if d == Withdrawal then w else r) == "true"
    case BybitChain(w, r, _, _, _) => (if d == Withdrawal then w else r) == "1"
  }

  /** The three amounts averaged over chains (the keys of `means`). */
  datatype Amount = WithdrawFee | WithdrawMin | DepositMin

  /** Bybit reads an empty amount string as 0. */
  function OrZero(x: Option<real>): real {
    match x
    case None => 0.0
    case Some(v) => v
  }

  function AmountOf(c: Chain, a: Amount): real {
    match c
    case BitgetChain(_, _, fee, minW, minD) =>
      (match a case WithdrawFee => fee case WithdrawMin => minW case DepositMin => minD)
    case BybitChain(_, _, fee, minW, minD) =>
      (match a case WithdrawFee => OrZero(fee) case WithdrawMin => OrZero(minW) case DepositMin => OrZero(minD))
  }

  /** The flag after the loop: set once any chain enables the direction. */
  function AnyEnabled(cs: seq<Chain>, d: Direction): bool
    decreases |cs|
  {
    if cs == [] then false else AnyEnabled(cs[..|cs| - 1], d) || ChainEnabled(cs[|cs| - 1], d)
  }

  /** The running sum `means[key] += ...` after the loop. */
  function Total(cs: seq<Chain>, a: Amount): real
    decreases |cs|
  {
    if cs == [] then 0.0 else Total(cs[..|cs| - 1], a) + AmountOf(cs[|cs| - 1], a)
  }

  /** `if means[key] > 0: means[key] /= len(chains)`: a positive sum is divided
      by the number of ALL chains, zero-valued ones included; any other sum is
      kept as it is. */
  function Mean(total: real, n: nat): real
    requires total > 0.0 ==> n > 0
  {
    if total > 0.0 then total / (n as real) else total
  }

  datatype ChainSummary = ChainSummary(
    withdraw: bool, deposit: bool,
    withdrawMinFee: real, withdrawMinAmount: real, depositMinAmount: real)

  function Summarize(cs: seq<Chain>): ChainSummary {
    ChainSummary(
      AnyEnabled(cs, Withdrawal), AnyEnabled(cs, Deposit),
      Mean(Total(cs, WithdrawFee), |cs|),
      Mean(Total(cs, WithdrawMin), |cs|),
      Mean(Total(cs, DepositMin), |cs|))
  }

  /** The chain loop of the Bitget and Bybit adapters, accumulating the flags
      and the sums, followed by the averaging loop over `means`. */
  method AggregateChains(cs: seq<Chain>) returns (s: ChainSummary)
    ensures s == Summarize(cs)
  {
    var withdraw, deposit := false, false;
    var fee, minWithdraw, minDeposit := 0.0, 0.0, 0.0;
    var i := 0;
    while i < |cs|
      invariant 0 <= i <= |cs|
      invariant withdraw == AnyEnabled(cs[..i], Withdrawal)
      invariant deposit == AnyEnabled(cs[..i], Deposit)
      invariant fee == Total(cs[..i], WithdrawFee)
      invariant minWithdraw == Total(cs[..i], WithdrawMin)
      invariant minDeposit == Total(cs[..i], DepositMin)
    {
      var c := cs[i];
      if ChainEnabled(c, Withdrawal) {
        withdraw := true;
      }
      if ChainEnabled(c, Deposit) {
        deposit := true;
      }
      fee := fee + AmountOf(c, WithdrawFee);
      minWithdraw := minWithdraw + AmountOf(c, WithdrawMin);
      minDeposit := minDeposit + AmountOf(c, DepositMin);
      assert cs[..i + 1][..i] == cs[..i];
      i := i + 1;
    }
    assert cs[..i] == cs;
    s := ChainSummary(withdraw, deposit,
                      Mean(fee, |cs|), Mean(minWithdraw, |cs|), Mean(minDeposit, |cs|));
  }

  /** The aggregated flag is the OR over chains. */
  lemma {:induction false} AnyEnabledIff(cs: seq<Chain>, d: Direction)
    ensures AnyEnabled(cs, d) <==> exists i :: 0 <= i < |cs| && ChainEnabled(cs[i], d)
    decreases |cs|
  {
    if cs != [] {
      var init := cs[..|cs| - 1];
      AnyEnabledIff(init, d);
      assert forall i :: 0 <= i < |init| ==> init[i] == cs[i];
      if AnyEnabled(cs, d) && !AnyEnabled(init, d) {
        assert ChainEnabled(cs[|cs| - 1], d);
      }
    }
  }

  /** An asset that lists no chain is neither withdrawable nor depositable. */
  lemma NoChainsNoTransfer()
    ensures !Summarize([]).withdraw && !Summarize([]).deposit
    ensures Summarize([]).withdrawMinFee == 0.0
  {
  }

  lemma {:induction false} TotalBounds(cs: seq<Chain>, a: Amount, hi: real)
    requires forall i :: 0 <= i < |cs| ==> 0.0 <= AmountOf(cs[i], a) <= hi
    ensures 0.0 <= Total(cs, a) <= (|cs| as real) * hi
    decreases |cs|
  {
    if cs != [] {
      var init := cs[..|cs| - 1];
      assert forall i :: 0 <= i < |init| ==> init[i] == cs[i];
      TotalBounds(init, a, hi);
      assert (|cs| as real) * hi == (|init| as real) * hi + hi;
    }
  }

  lemma QuotientAtMost(t: real, n: real, hi: real)
    requires n > 0.0 && 0.0 <= t <= n * hi
    ensures 0.0 <= t / n <= hi
  {
    var q := t / n;
    assert q * n == t;
    assert (hi - q) * n == n * hi - t;
  }

  /** With amounts between 0 and `hi` on every chain, the stored mean is also
      between 0 and `hi`. */
  lemma MeanBounds(cs: seq<Chain>, a: Amount, hi: real)
    requires 0.0 <= hi
    requires forall i :: 0 <= i < |cs| ==> 0.0 <= AmountOf(cs[i], a) <= hi
    ensures 0.0 <= Mean(Total(cs, a), |cs|) <= hi
  {
    TotalBounds(cs, a, hi);
    var t := Total(cs, a);
    if t > 0.0 {
      QuotientAtMost(t, |cs| as real, hi);
    }
  }

  /** Zero-valued chains count in the divisor: fees 0, 2 and 4 average to 2,
      not to 3. */
  lemma ZeroFeeChainsCount()
    ensures Summarize([BitgetChain("true", "true", 0.0, 0.0, 0.0),
                       BitgetChain("true", "true", 2.0, 0.0, 0.0),
                       BitgetChain("true", "true", 4.0, 0.0, 0.0)]).withdrawMinFee == 2.0
  {
    var cs := [BitgetChain("true", "true", 0.0, 0.0, 0.0),
               BitgetChain("true", "true", 2.0, 0.0, 0.0),
               BitgetChain("true", "true", 4.0, 0.0, 0.0)];
    assert cs[..2][..1] == cs[..1];
    assert cs[..1][..0] == [];
    assert Total(cs[..1], WithdrawFee) == 0.0;
    assert Total(cs[..2], WithdrawFee) == 2.0;
    assert Total(cs, WithdrawFee) == 6.0;
  }
}
