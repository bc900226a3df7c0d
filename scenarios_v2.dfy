/** The two-token exchange's test scenarios replayed on the model, in the
    manner of the `Scenarios` module. */
module ScenariosV2 {
  import opened Base
  import opened Custody
  import opened Scenarios
  import opened DexV2

  const Dai: Address := 13
  const PoolV2: Address := 23

  /** The `deployAll` fixture of exchangeV2.js: the owner holds the whole
      supply of both tokens and deploys an exchange for (eDAI, RUB). */
  method DeployAll() returns (ledger: Ledger, exchange: ExchangeV2)
    ensures fresh(ledger) && fresh(exchange.lp)
    ensures exchange.ledger == ledger && exchange.address == PoolV2
    ensures exchange.token1 == Dai && exchange.token2 == Rub && exchange.factoryAddress == Owner
    ensures exchange.Valid() && exchange.lp.balances == map[] && exchange.TotalSupply() == 0
    ensures ledger.BalanceOf(Token(Dai), Owner) == 1_000_000 * E && ledger.BalanceOf(Token(Rub), Owner) == 1_000_000 * E
    ensures ledger.BalanceOf(Token(Dai), PoolV2) == 0 && ledger.BalanceOf(Token(Rub), PoolV2) == 0
  {
    ledger := new Ledger(Books(map[(Token(Dai), Owner) := 1_000_000 * E, (Token(Rub), Owner) := 1_000_000 * E], map[]));
    exchange := new ExchangeV2(PoolV2, Dai, Rub, Owner, ledger);
  }

  /** exchangeV2.js:66-76: a new exchange has no LP tokens and records its
      deployer as its factory. */
  method IsDeployed() returns (totalSupply: nat, factoryAddress: Address)
    ensures totalSupply == 0 && factoryAddress == Owner
  {
    var ledger, exchange := DeployAll();
    totalSupply, factoryAddress := exchange.TotalSupply(), exchange.factoryAddress;
  }

  /** exchangeV2.js:84-91: the first deposit keeps both amounts. */
  method AddsLiquidity() returns (reserve1: nat, reserve2: nat)
    ensures reserve1 == 200 * E && reserve2 == 200 * E
  {
    var ledger, exchange := DeployAll();
    ledger.Approve(Dai, Owner, PoolV2, 200 * E);
    ledger.Approve(Rub, Owner, PoolV2, 200 * E);
    var r := exchange.AddLiquidity(Owner, 200 * E, 200 * E);
    reserve1, reserve2 := exchange.Token1Reserve(), exchange.Token2Reserve();
  }

  /** exchangeV2.js:93-102: the first deposit mints as many LP tokens as it
      brings of token1. */
  method MintsShares() returns (ownerShares: nat, totalSupply: nat)
    ensures ownerShares == 100 * E && totalSupply == 100 * E
  {
    var ledger, exchange := DeployAll();
    ledger.Approve(Dai, Owner, PoolV2, 200 * E);
    ledger.Approve(Rub, Owner, PoolV2, 200 * E);
    var r := exchange.AddLiquidity(Owner, 100 * E, 200 * E);
    ownerShares, totalSupply := exchange.BalanceOf(Owner), exchange.TotalSupply();
  }

  /** exchangeV2.js:104-111: an empty deposit is accepted. */
  method AllowsZeroLiquidity() returns (r: Result<nat>, reserve1: nat, reserve2: nat)
    ensures r == Ok(0) && reserve1 == 0 && reserve2 == 0
  {
    var ledger, exchange := DeployAll();
    ledger.Approve(Dai, Owner, PoolV2, 200 * E);
    ledger.Approve(Rub, Owner, PoolV2, 0);
    r := exchange.AddLiquidity(Owner, 0, 0);
    reserve1, reserve2 := exchange.Token1Reserve(), exchange.Token2Reserve();
  }

  /** The "existing reserves" fixture: the owner approves 200 eDAI and 300
      RUB and deposits (100 eDAI, 200 RUB). */
  method Seeded() returns (ledger: Ledger, exchange: ExchangeV2)
    ensures fresh(ledger) && fresh(exchange.lp)
    ensures exchange.ledger == ledger && exchange.address == PoolV2 && exchange.token1 == Dai && exchange.token2 == Rub
    ensures exchange.Valid() && exchange.TotalSupply() == 100 * E && exchange.BalanceOf(Owner) == 100 * E
    ensures exchange.Token1Reserve() == 100 * E && exchange.Token2Reserve() == 200 * E
    ensures ledger.BalanceOf(Token(Dai), Owner) == 999_900 * E && ledger.BalanceOf(Token(Rub), Owner) == 999_800 * E
    ensures Allowance(ledger.books, Dai, Owner, PoolV2) == 100 * E
    ensures Allowance(ledger.books, Rub, Owner, PoolV2) == 100 * E
  {
    ledger, exchange := DeployAll();
    ledger.Approve(Dai, Owner, PoolV2, 200 * E);
    ledger.Approve(Rub, Owner, PoolV2, 300 * E);
    var r := exchange.AddLiquidity(Owner, 100 * E, 200 * E);
    assert r.Ok?;
  }

  /** exchangeV2.js:123-135: 50 eDAI offered with 200 RUB into (100, 200)
      take only 100 RUB and mint 50 LP tokens. */
  method PreservesExchangeRate() returns (reserve1: nat, reserve2: nat, totalSupply: nat)
    ensures reserve1 == 150 * E && reserve2 == 300 * E && totalSupply == 150 * E
  {
    var ledger, exchange := Seeded();
    var r := exchange.AddLiquidity(Owner, 50 * E, 200 * E);
    assert r.Ok?;
    reserve1, reserve2, totalSupply := exchange.Token1Reserve(), exchange.Token2Reserve(), exchange.TotalSupply();
  }

  /** exchangeV2.js:137-141: 50 RUB are too few to go with 50 eDAI. */
  method RefusesTooFewTokens() returns (r: Result<nat>)
    ensures r == Err(InsufficientTokenAmount)
  {
    var ledger, exchange := Seeded();
    r := exchange.AddLiquidity(Owner, 50 * E, 50 * E);
  }
}
