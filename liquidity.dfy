/** How a pool sizes deposits and withdrawals. The first asset (ether in the
    token/ether exchange, token1 in the two-token exchange) is the unit of
    account: it decides the paired amount and the LP tokens minted. */
module Liquidity {
  import opened Base
  import opened Pricing

  /** What a deposit takes of the second asset, and how many LP tokens it mints. */
  datatype Deposit = Deposit(paired: nat, liquidity: nat)

  /** Deposit of `amountIn` of the first asset, offering up to `pairedOffered`
      of the second, into a pool with reserves (reserveIn, reservePaired) and
      `totalSupply` LP tokens. An empty pool takes both amounts as given and
      mints `amountIn`; otherwise the second asset is pulled in proportion to
      the reserves and LP tokens are minted in proportion to the supply. */
  function DepositTerms(reserveIn: nat, reservePaired: nat, totalSupply: nat,
                        amountIn: nat, pairedOffered: nat): (r: Result<Deposit>)
    ensures r.Ok? ==> r.value.paired <= pairedOffered
    ensures r.Err? ==> totalSupply > 0
    ensures totalSupply == 0 ==> r == Ok(Deposit(pairedOffered, amountIn))
    ensures totalSupply > 0 && reserveIn == 0 ==> r == Err(DivisionByZero)
  {
    if totalSupply == 0 then Ok(Deposit(pairedOffered, amountIn))
    else if reserveIn == 0 then Err(DivisionByZero)
    else
      var paired := amountIn * reservePaired / reserveIn;
      if pairedOffered < paired then Err(InsufficientTokenAmount)
      else Ok(Deposit(paired, totalSupply * amountIn / reserveIn))
  }

  /** A deposit into a funded pool is refused exactly when the tokens offered
      fall a whole unit or more short of the proportional amount
      amountIn * reservePaired / reserveIn; otherwise it goes through. */
  lemma DepositRefusal(reserveIn: nat, reservePaired: nat, totalSupply: nat, amountIn: nat, pairedOffered: nat)
    requires totalSupply > 0 && reserveIn > 0
    ensures DepositTerms(reserveIn, reservePaired, totalSupply, amountIn, pairedOffered) == Err(InsufficientTokenAmount)
            <==> (pairedOffered + 1) * reserveIn <= amountIn * reservePaired
    ensures DepositTerms(reserveIn, reservePaired, totalSupply, amountIn, pairedOffered).Ok?
            <==> amountIn * reservePaired < (pairedOffered + 1) * reserveIn
  {
    var p := amountIn * reservePaired;
    if pairedOffered < p / reserveIn {
      MulLeRight(pairedOffered + 1, p / reserveIn, reserveIn);
    } else {
      MulLeRight(p / reserveIn + 1, pairedOffered + 1, reserveIn);
    }
  }

  /** A deposit into a funded pool keeps the reserve ratio: the second asset
      taken is the proportional amount rounded down, so the ratio of the
      second reserve to the first never rises and falls by less than one unit. */
  lemma DepositKeepsRate(reserveIn: nat, reservePaired: nat, totalSupply: nat, amountIn: nat, pairedOffered: nat)
    requires totalSupply > 0
    requires DepositTerms(reserveIn, reservePaired, totalSupply, amountIn, pairedOffered).Ok?
    ensures var d := DepositTerms(reserveIn, reservePaired, totalSupply, amountIn, pairedOffered).value;
            (reservePaired + d.paired) * reserveIn <= reservePaired * (reserveIn + amountIn) <
            (reservePaired + d.paired + 1) * reserveIn
  {
    var d := DepositTerms(reserveIn, reservePaired, totalSupply, amountIn, pairedOffered).value;
    var p := amountIn * reservePaired;
    assert d.paired == p / reserveIn;
    assert d.paired * reserveIn <= p < (d.paired + 1) * reserveIn;
  }

  /** The LP tokens minted into a funded pool never give the depositor a
      larger share of the pool than the share of the first asset deposited,
      and fall short of it by less than one LP token. */
  lemma DepositMintsProportionally(reserveIn: nat, reservePaired: nat, totalSupply: nat, amountIn: nat, pairedOffered: nat)
    requires totalSupply > 0
    requires DepositTerms(reserveIn, reservePaired, totalSupply, amountIn, pairedOffered).Ok?
    ensures var d := DepositTerms(reserveIn, reservePaired, totalSupply, amountIn, pairedOffered).value;
            d.liquidity * reserveIn <= totalSupply * amountIn < (d.liquidity + 1) * reserveIn
    ensures var d := DepositTerms(reserveIn, reservePaired, totalSupply, amountIn, pairedOffered).value;
            d.liquidity * (reserveIn + amountIn) <= amountIn * (totalSupply + d.liquidity)
  {
    var d := DepositTerms(reserveIn, reservePaired, totalSupply, amountIn, pairedOffered).value;
    var p := totalSupply * amountIn;
    assert d.liquidity == p / reserveIn;
    assert d.liquidity * reserveIn <= p < (d.liquidity + 1) * reserveIn;
    assert d.liquidity * (reserveIn + amountIn) == d.liquidity * reserveIn + d.liquidity * amountIn;
    assert amountIn * (totalSupply + d.liquidity) == p + d.liquidity * amountIn;
  }

  /** What a withdrawal pays out of each reserve. */
  datatype Payout = Payout(first: nat, second: nat)

  /** Burning `amount` of `totalSupply` LP tokens pays that fraction of each
      reserve, rounded down; with no LP tokens the division reverts. */
  function WithdrawalTerms(reserveFirst: nat, reserveSecond: nat, totalSupply: nat, amount: nat): (r: Result<Payout>)
    ensures r.Err? <==> totalSupply == 0
  {
    if totalSupply == 0 then Err(DivisionByZero)
    else Ok(Payout(reserveFirst * amount / totalSupply, reserveSecond * amount / totalSupply))
  }

  /** A withdrawal of at most the supply is covered by the reserves, and
      withdrawing the whole supply pays out both reserves exactly. */
  lemma {:induction false} WithdrawalCovered(reserveFirst: nat, reserveSecond: nat, totalSupply: nat, amount: nat)
    requires 0 < totalSupply && amount <= totalSupply
    ensures var p := WithdrawalTerms(reserveFirst, reserveSecond, totalSupply, amount).value;
            p.first <= reserveFirst && p.second <= reserveSecond
    ensures amount == totalSupply ==>
            WithdrawalTerms(reserveFirst, reserveSecond, totalSupply, amount) == Ok(Payout(reserveFirst, reserveSecond))
  {
    ShareCovered(reserveFirst, totalSupply, amount);
    ShareCovered(reserveSecond, totalSupply, amount);
  }

  /** floor(reserve * amount / totalSupply) is at most the reserve, and is
      the whole reserve when the whole supply is burnt. */
  lemma ShareCovered(reserve: nat, totalSupply: nat, amount: nat)
    requires 0 < totalSupply && amount <= totalSupply
    ensures reserve * amount / totalSupply <= reserve
    ensures amount == totalSupply ==> reserve * amount / totalSupply == reserve
  {
    MulLeRight(amount, totalSupply, reserve);
    assert reserve * amount <= totalSupply * reserve;
    DivBelowFactor(reserve * amount, totalSupply, reserve);
    if amount == totalSupply {
      DivGreatest(reserve, reserve * amount, totalSupply);
    }
  }

  /** Adding liquidity to a funded pool and at once burning the LP tokens it
      minted returns no more of either asset than was deposited. */
  lemma {:induction false} DepositThenWithdraw(reserveIn: nat, reservePaired: nat, totalSupply: nat,
                                               amountIn: nat, pairedOffered: nat)
    requires totalSupply > 0
    requires DepositTerms(reserveIn, reservePaired, totalSupply, amountIn, pairedOffered).Ok?
    ensures var d := DepositTerms(reserveIn, reservePaired, totalSupply, amountIn, pairedOffered).value;
            var p := WithdrawalTerms(reserveIn + amountIn, reservePaired + d.paired, totalSupply + d.liquidity, d.liquidity).value;
            p.first <= amountIn && p.second <= d.paired
  {
    var d := DepositTerms(reserveIn, reservePaired, totalSupply, amountIn, pairedOffered).value;
    DepositMintsProportionally(reserveIn, reservePaired, totalSupply, amountIn, pairedOffered);
    DepositKeepsRate(reserveIn, reservePaired, totalSupply, amountIn, pairedOffered);
    FirstReturned(reserveIn, totalSupply, amountIn, d.liquidity);
    SecondReturned(reserveIn, reservePaired, totalSupply, amountIn, d.paired, d.liquidity);
  }

  lemma FirstReturned(reserveIn: nat, totalSupply: nat, amountIn: nat, liq: nat)
    requires liq * (reserveIn + amountIn) <= amountIn * (totalSupply + liq)
    requires totalSupply + liq > 0
    ensures (reserveIn + amountIn) * liq / (totalSupply + liq) <= amountIn
  {
    DivBelowFactor((reserveIn + amountIn) * liq, totalSupply + liq, amountIn);
  }

  lemma SecondReturned(reserveIn: nat, reservePaired: nat, totalSupply: nat, amountIn: nat, paired: nat, liq: nat)
    requires reserveIn > 0 && totalSupply > 0
    requires liq * reserveIn <= totalSupply * amountIn
    requires reservePaired * (reserveIn + amountIn) < (reservePaired + paired + 1) * reserveIn
    ensures (reservePaired + paired) * liq / (totalSupply + liq) <= paired
  {
    PairedBelowNext(reserveIn, reservePaired, amountIn, paired);
    ClaimBelowSupplyShare(reserveIn, reservePaired, totalSupply, amountIn, paired, liq);
    GrownClaimBelow(reservePaired, totalSupply, paired, liq);
    DivStrictlyBelowFactor((reservePaired + paired) * liq, totalSupply + liq, paired + 1);
  }

  lemma PairedBelowNext(reserveIn: nat, reservePaired: nat, amountIn: nat, paired: nat)
    requires reservePaired * (reserveIn + amountIn) < (reservePaired + paired + 1) * reserveIn
    ensures amountIn * reservePaired < (paired + 1) * reserveIn
  {
    assert reservePaired * (reserveIn + amountIn) == reservePaired * reserveIn + amountIn * reservePaired;
    assert (reservePaired + paired + 1) * reserveIn == reservePaired * reserveIn + (paired + 1) * reserveIn;
  }

  lemma ClaimBelowSupplyShare(reserveIn: nat, reservePaired: nat, totalSupply: nat, amountIn: nat, paired: nat, liq: nat)
    requires reserveIn > 0
    requires liq * reserveIn <= totalSupply * amountIn
    requires amountIn * reservePaired < (paired + 1) * reserveIn
    ensures reservePaired * liq <= totalSupply * (paired + 1)
  {
    var x := liq * reserveIn;
    var y := amountIn * reservePaired;
    MulLeRight(x, totalSupply * amountIn, reservePaired);
    MulLeRight(y, (paired + 1) * reserveIn, totalSupply);
    calc {
      (reservePaired * liq) * reserveIn;
      == x * reservePaired;
      <= (totalSupply * amountIn) * reservePaired;
      == y * totalSupply;
      <= ((paired + 1) * reserveIn) * totalSupply;
      == (totalSupply * (paired + 1)) * reserveIn;
    }
    MulCancelRight(reservePaired * liq, totalSupply * (paired + 1), reserveIn);
  }

  lemma GrownClaimBelow(reservePaired: nat, totalSupply: nat, paired: nat, liq: nat)
    requires totalSupply > 0
    requires reservePaired * liq <= totalSupply * (paired + 1)
    ensures (reservePaired + paired) * liq < (paired + 1) * (totalSupply + liq)
  {
    assert (reservePaired + paired) * liq == reservePaired * liq + paired * liq;
    assert (paired + 1) * (totalSupply + liq) == totalSupply * (paired + 1) + paired * liq + liq;
  }
}
