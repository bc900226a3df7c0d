/** The repository's test scenarios replayed on the model: each method sets
    up fresh contracts on a fresh ledger, performs the calls of one test and
    returns what that test reads back; its postcondition is the test's
    expected values. Amounts are in wei. */
module Scenarios {
  import opened Base
  import opened Pricing
  import opened Custody
  import opened Liquidity
  import opened Dex

  const E: nat := WeiPerEther

  // Accounts and contracts of the test fixtures.
  const Owner: Address := 1
  const User: Address := 2
  const Rub: Address := 10
  const Pool: Address := 20

  const StartingEther: nat := 10_000 * E
  const RubSupply: nat := 1_000_000 * E

  /** Both signers hold 10000 ether; the owner deployed the Ruble token and
      holds its whole supply; nothing is approved yet. */
  function Genesis(): Books {
    Books(map[(Ether, Owner) := StartingEther, (Ether, User) := StartingEther, (Token(Rub), Owner) := RubSupply],
          map[])
  }

  /** The `deployAll` fixture of exchange.js: the owner deploys an exchange
      for the Ruble token. */
  method DeployAll() returns (ledger: Ledger, exchange: Exchange)
    ensures fresh(ledger) && fresh(exchange.lp)
    ensures ledger.books == Genesis()
    ensures exchange.ledger == ledger && exchange.address == Pool && exchange.tokenAddress == Rub
    ensures exchange.factoryAddress == Owner && exchange.Valid() && exchange.lp.balances == map[]
    ensures exchange.TotalSupply() == 0
  {
    ledger := new Ledger(Genesis());
    exchange := new Exchange(Pool, Rub, Owner, ledger);
  }

  /** The owner approves `approved` tokens and seeds the exchange with
      `tokens` tokens and `eth` ether. */
  method Seeded(approved: nat, tokens: nat, eth: nat) returns (ledger: Ledger, exchange: Exchange)
    requires tokens <= approved && tokens <= RubSupply && eth <= StartingEther
    ensures fresh(ledger) && fresh(exchange.lp)
    ensures exchange.ledger == ledger && exchange.address == Pool && exchange.tokenAddress == Rub
    ensures exchange.Valid() && exchange.lp.balances == map[Owner := eth] && exchange.TotalSupply() == eth
    ensures exchange.EthReserve() == eth && exchange.TokenReserve() == tokens
    ensures ledger.BalanceOf(Ether, Owner) == StartingEther - eth && ledger.BalanceOf(Ether, User) == StartingEther
    ensures ledger.BalanceOf(Token(Rub), Owner) == RubSupply - tokens && ledger.BalanceOf(Token(Rub), User) == 0
    ensures Allowance(ledger.books, Rub, Owner, Pool) == approved - tokens
    ensures Allowance(ledger.books, Rub, User, Pool) == 0
  {
    ledger, exchange := DeployAll();
    ledger.Approve(Rub, Owner, Pool, approved);
    var r := exchange.AddLiquidity(Owner, eth, tokens);
    assert r.Ok?;
  }

  /** A first deposit without ether mints no LP tokens, and the first
      positive ether purchase then takes every token in the pool. */
  method DrainsOneSidedPool() returns (shares: nat, bought: Result<nat>, tokenReserve: nat)
    ensures shares == 0 && bought == Ok(100) && tokenReserve == 0
  {
    var ledger, exchange := Seeded(100, 100, 0);
    shares := exchange.TotalSupply();
    EmptyInputReserveDrains(1, 100);
    bought := exchange.EthToTokenSwap(User, 1, 0);
    tokenReserve := exchange.TokenReserve();
  }

  /** exchange.js:58-68: a new exchange has no LP tokens and records its
      deployer as its factory. */
  method IsDeployed() returns (totalSupply: nat, factoryAddress: Address)
    ensures totalSupply == 0 && factoryAddress == Owner
  {
    var ledger, exchange := DeployAll();
    totalSupply, factoryAddress := exchange.TotalSupply(), exchange.factoryAddress;
  }

  /** exchange.js:76-94: the first deposit keeps both amounts and mints as
      many LP tokens as ether. */
  method AddsLiquidity() returns (ethReserve: nat, tokenReserve: nat, ownerShares: nat, totalSupply: nat)
    ensures ethReserve == 100 * E && tokenReserve == 200 * E
    ensures ownerShares == 100 * E && totalSupply == 100 * E
  {
    var ledger, exchange := DeployAll();
    ledger.Approve(Rub, Owner, Pool, 200 * E);
    var r := exchange.AddLiquidity(Owner, 100 * E, 200 * E);
    assert r.Ok?;
    ethReserve, tokenReserve := exchange.EthReserve(), exchange.TokenReserve();
    ownerShares, totalSupply := exchange.BalanceOf(Owner), exchange.TotalSupply();
  }

  /** exchange.js:96-102: an empty deposit is accepted. */
  method AllowsZeroLiquidity() returns (r: Result<nat>, ethReserve: nat, tokenReserve: nat)
    ensures r == Ok(0) && ethReserve == 0 && tokenReserve == 0
  {
    var ledger, exchange := DeployAll();
    ledger.Approve(Rub, Owner, Pool, 0);
    r := exchange.AddLiquidity(Owner, 0, 0);
    ethReserve, tokenReserve := exchange.EthReserve(), exchange.TokenReserve();
  }

  /** exchange.js:115-127: a later deposit of 50 ether offering 200 tokens
      into (100 ether, 200 tokens) takes only 100 tokens and mints 50. */
  method PreservesExchangeRate() returns (ethReserve: nat, tokenReserve: nat, ownerShares: nat, totalSupply: nat)
    ensures ethReserve == 150 * E && tokenReserve == 300 * E
    ensures ownerShares == 150 * E && totalSupply == 150 * E
  {
    var ledger, exchange := Seeded(300 * E, 200 * E, 100 * E);
    var r := exchange.AddLiquidity(Owner, 50 * E, 200 * E);
    assert r.Ok?;
    ethReserve, tokenReserve := exchange.EthReserve(), exchange.TokenReserve();
    ownerShares, totalSupply := exchange.BalanceOf(Owner), exchange.TotalSupply();
  }

  /** exchange.js:129-133: 50 tokens are too few to go with 50 ether. */
  method RefusesTooFewTokens() returns (r: Result<nat>)
    ensures r == Err(InsufficientTokenAmount)
  {
    var ledger, exchange := Seeded(300 * E, 200 * E, 100 * E);
    r := exchange.AddLiquidity(Owner, 50 * E, 50 * E);
  }

  /** exchange.js:145-164 and 215-221: burning 25 of 100 LP tokens pays out
      a quarter of each reserve. */
  method RemovesSomeLiquidity() returns (r: Result<Payout>, ethReserve: nat, tokenReserve: nat,
                                         ownerShares: nat, totalSupply: nat)
    ensures r == Ok(Payout(25 * E, 50 * E))
    ensures ethReserve == 75 * E && tokenReserve == 150 * E
    ensures ownerShares == 75 * E && totalSupply == 75 * E
  {
    var ledger, exchange := Seeded(300 * E, 200 * E, 100 * E);
    r := exchange.RemoveLiquidity(Owner, 25 * E);
    ethReserve, tokenReserve := exchange.EthReserve(), exchange.TokenReserve();
    ownerShares, totalSupply := exchange.BalanceOf(Owner), exchange.TotalSupply();
  }

  /** exchange.js:166-185: burning the whole supply empties the pool. */
  method RemovesAllLiquidity() returns (r: Result<Payout>, ethReserve: nat, tokenReserve: nat)
    ensures r == Ok(Payout(100 * E, 200 * E)) && ethReserve == 0 && tokenReserve == 0
  {
    var ledger, exchange := Seeded(300 * E, 200 * E, 100 * E);
    r := exchange.RemoveLiquidity(Owner, 100 * E);
    ethReserve, tokenReserve := exchange.EthReserve(), exchange.TokenReserve();
  }

  /** exchange.js:187-213: after the user buys with 10 ether, the provider's
      withdrawal includes that ether and the fee-bearing remainder of the
      tokens. */
  method PaysForProvidedLiquidity() returns (userTokens: nat, r: Result<Payout>, ethReserve: nat, tokenReserve: nat)
    ensures userTokens == 18_016_378_525_932_666_060
    ensures r == Ok(Payout(110 * E, 181_983_621_474_067_333_940))
    ensures ethReserve == 0 && tokenReserve == 0
  {
    var ledger, exchange := Seeded(300 * E, 200 * E, 100 * E);
    var bought := exchange.EthToTokenSwap(User, 10 * E, 18 * E);
    userTokens := ledger.BalanceOf(Token(Rub), User);
    r := exchange.RemoveLiquidity(Owner, 100 * E);
    ethReserve, tokenReserve := exchange.EthReserve(), exchange.TokenReserve();
  }

  /** exchange.js:223-227: burning more LP tokens than held reverts. */
  method RefusesOverdrawnRemoval() returns (r: Result<Payout>)
    ensures r == Err(BurnExceedsBalance)
  {
    var ledger, exchange := Seeded(300 * E, 200 * E, 100 * E);
    r := exchange.RemoveLiquidity(Owner, 100_100_000_000_000_000_000);
  }

  /** exchange.js:230-248: token quotes on (1000 ether, 2000 tokens). */
  method QuotesTokens() returns (small: Result<nat>, medium: Result<nat>, large: Result<nat>)
    ensures small == Ok(1_978_041_738_678_708_079)
    ensures medium == Ok(180_163_785_259_326_660_600)
    ensures large == Ok(994_974_874_371_859_296_482)
  {
    var ledger, exchange := Seeded(2000 * E, 2000 * E, 1000 * E);
    small, medium, large := exchange.GetTokenAmount(1 * E), exchange.GetTokenAmount(100 * E),
                            exchange.GetTokenAmount(1000 * E);
  }

  /** exchange.js:250-268: ether quotes on (1000 ether, 2000 tokens). */
  method QuotesEther() returns (small: Result<nat>, medium: Result<nat>, large: Result<nat>)
    ensures small == Ok(989_020_869_339_354_039)
    ensures medium == Ok(47_165_316_817_532_158_170)
    ensures large == Ok(497_487_437_185_929_648_241)
  {
    var ledger, exchange := Seeded(2000 * E, 2000 * E, 1000 * E);
    small, medium, large := exchange.GetEthAmount(2 * E), exchange.GetEthAmount(100 * E),
                            exchange.GetEthAmount(2000 * E);
  }

  /** exchange.js:280-304: the user buys with 1 ether for themself. */
  method TransfersTokensToRecipient() returns (userEther: nat, userTokens: nat, ethReserve: nat, tokenReserve: nat)
    ensures userEther == StartingEther - 1 * E && userTokens == 1_978_041_738_678_708_079
    ensures ethReserve == 1001 * E && tokenReserve == 1_998_021_958_261_321_291_921
  {
    var ledger, exchange := Seeded(2000 * E, 2000 * E, 1000 * E);
    var r := exchange.EthToTokenTransfer(User, 1 * E, 1_970_000_000_000_000_000, User);
    userEther, userTokens := ledger.BalanceOf(Ether, User), ledger.BalanceOf(Token(Rub), User);
    ethReserve, tokenReserve := exchange.EthReserve(), exchange.TokenReserve();
  }

  /** exchange.js:317-339: the same purchase through `ethToTokenSwap`. */
  method SwapsEtherForTokens() returns (userEther: nat, userTokens: nat, ethReserve: nat, tokenReserve: nat)
    ensures userEther == StartingEther - 1 * E && userTokens == 1_978_041_738_678_708_079
    ensures ethReserve == 1001 * E && tokenReserve == 1_998_021_958_261_321_291_921
  {
    var ledger, exchange := Seeded(2000 * E, 2000 * E, 1000 * E);
    var r := exchange.EthToTokenSwap(User, 1 * E, 1_970_000_000_000_000_000);
    userEther, userTokens := ledger.BalanceOf(Ether, User), ledger.BalanceOf(Token(Rub), User);
    ethReserve, tokenReserve := exchange.EthReserve(), exchange.TokenReserve();
  }

  /** exchange.js:341-351: a purchase makes the next one dearer. */
  method PurchaseMovesTokenRate() returns (before: Result<nat>, after: Result<nat>)
    ensures before == Ok(19_605_901_574_413_308_248) && after == Ok(19_223_356_774_598_792_281)
  {
    var ledger, exchange := Seeded(2000 * E, 2000 * E, 1000 * E);
    before := exchange.GetTokenAmount(10 * E);
    var r := exchange.EthToTokenSwap(User, 10 * E, 9 * E);
    after := exchange.GetTokenAmount(10 * E);
  }

  /** exchange.js:353-359: 1 ether cannot buy 2 tokens' minimum here. */
  method PurchaseRefusesLowOutput() returns (r: Result<nat>)
    ensures r == Err(InsufficientOutputAmount)
  {
    var ledger, exchange := Seeded(2000 * E, 2000 * E, 1000 * E);
    r := exchange.EthToTokenSwap(User, 1 * E, 2 * E);
  }

  /** exchange.js:361-374: buying with nothing changes nothing. */
  method AllowsZeroPurchase() returns (r: Result<nat>, userTokens: nat, ethReserve: nat, tokenReserve: nat)
    ensures r == Ok(0) && userTokens == 0 && ethReserve == 1000 * E && tokenReserve == 2000 * E
  {
    var ledger, exchange := Seeded(2000 * E, 2000 * E, 1000 * E);
    r := exchange.EthToTokenSwap(User, 0, 0);
    userTokens := ledger.BalanceOf(Token(Rub), User);
    ethReserve, tokenReserve := exchange.EthReserve(), exchange.TokenReserve();
  }

  /** The `tokenToEthSwap` fixture: the owner gives the user 22 tokens, the
      user approves them all to the exchange, and the owner seeds (1000
      ether, 2000 tokens). */
  method SeededWithSeller() returns (ledger: Ledger, exchange: Exchange)
    ensures fresh(ledger) && fresh(exchange.lp)
    ensures exchange.ledger == ledger && exchange.address == Pool && exchange.tokenAddress == Rub
    ensures exchange.Valid() && exchange.EthReserve() == 1000 * E && exchange.TokenReserve() == 2000 * E
    ensures ledger.BalanceOf(Ether, User) == StartingEther && ledger.BalanceOf(Token(Rub), User) == 22 * E
    ensures Allowance(ledger.books, Rub, User, Pool) == 22 * E
  {
    var ledger0, exchange0 := DeployAll();
    ledger, exchange := ledger0, exchange0;
    var sent := ledger.Transfer(Token(Rub), Owner, User, 22 * E);
    ledger.Approve(Rub, User, Pool, 22 * E);
    ledger.Approve(Rub, Owner, Pool, 2000 * E);
    var r := exchange.AddLiquidity(Owner, 1000 * E, 2000 * E);
    assert r.Ok?;
  }

  /** exchange.js:390-413: the user sells 2 tokens for ether. */
  method SwapsTokensForEther() returns (userEther: nat, userTokens: nat, ethReserve: nat, tokenReserve: nat)
    ensures userEther == StartingEther + 989_020_869_339_354_039 && userTokens == 20 * E
    ensures ethReserve == 1000 * E - 989_020_869_339_354_039 && tokenReserve == 2002 * E
  {
    var ledger, exchange := SeededWithSeller();
    var r := exchange.TokenToEthSwap(User, 2 * E, 900_000_000_000_000_000);
    userEther, userTokens := ledger.BalanceOf(Ether, User), ledger.BalanceOf(Token(Rub), User);
    ethReserve, tokenReserve := exchange.EthReserve(), exchange.TokenReserve();
  }

  /** exchange.js:415-425: a sale makes the next one pay less. */
  method SaleMovesEtherRate() returns (before: Result<nat>, after: Result<nat>)
    ensures before == Ok(9_802_950_787_206_654_124) && after == Ok(9_611_678_387_299_396_140)
  {
    var ledger, exchange := SeededWithSeller();
    before := exchange.GetEthAmount(20 * E);
    var r := exchange.TokenToEthSwap(User, 20 * E, 9 * E);
    after := exchange.GetEthAmount(20 * E);
  }

  /** exchange.js:427-431: 2 tokens cannot fetch 1 ether here. */
  method SaleRefusesLowOutput() returns (r: Result<nat>)
    ensures r == Err(InsufficientOutputAmount)
  {
    var ledger, exchange := SeededWithSeller();
    r := exchange.TokenToEthSwap(User, 2 * E, 1 * E);
  }

  /** exchange.js:433-450: selling nothing changes nothing. */
  method AllowsZeroSale() returns (r: Result<nat>, userTokens: nat, ethReserve: nat, tokenReserve: nat)
    ensures r == Ok(0) && userTokens == 22 * E && ethReserve == 1000 * E && tokenReserve == 2000 * E
  {
    var ledger, exchange := SeededWithSeller();
    r := exchange.TokenToEthSwap(User, 0, 0);
    userTokens := ledger.BalanceOf(Token(Rub), User);
    ethReserve, tokenReserve := exchange.EthReserve(), exchange.TokenReserve();
  }

  const FactoryAddress: Address := 30
  const TokenA: Address := 11
  const TokenB: Address := 12
  const PoolA: Address := 21
  const PoolB: Address := 22

  /** A factory registers an exchange for TokenA (all held by the owner)
      and one for TokenB (all held by the user). */
  method TwoExchanges() returns (ledger: Ledger, factory: Factory, exchangeA: Exchange, exchangeB: Exchange)
    ensures fresh(ledger) && fresh(factory) && fresh(exchangeA.lp) && fresh(exchangeB.lp)
    ensures exchangeA.lp != exchangeB.lp
    ensures factory.Valid() && factory.ledger == ledger && factory.address == FactoryAddress
    ensures factory.tokenToExchange == map[TokenA := exchangeA, TokenB := exchangeB]
    ensures exchangeA.address == PoolA && exchangeB.address == PoolB
    ensures exchangeA.tokenAddress == TokenA && exchangeB.tokenAddress == TokenB
    ensures exchangeA.ledger == ledger && exchangeB.ledger == ledger
    ensures exchangeA.factoryAddress == FactoryAddress && exchangeB.factoryAddress == FactoryAddress
    ensures exchangeA.Valid() && exchangeA.TotalSupply() == 0 && exchangeB.Valid() && exchangeB.TotalSupply() == 0
    ensures exchangeA.EthReserve() == 0 && exchangeA.TokenReserve() == 0
    ensures exchangeB.EthReserve() == 0 && exchangeB.TokenReserve() == 0
    ensures ledger.BalanceOf(Ether, Owner) == StartingEther && ledger.BalanceOf(Ether, User) == StartingEther
    ensures ledger.BalanceOf(Token(TokenA), Owner) == 1_000_000 * E && ledger.BalanceOf(Token(TokenA), User) == 0
    ensures ledger.BalanceOf(Token(TokenB), User) == 1_000_000 * E && ledger.BalanceOf(Token(TokenB), Owner) == 0
  {
    ledger := new Ledger(Books(map[(Ether, Owner) := StartingEther, (Ether, User) := StartingEther,
                                   (Token(TokenA), Owner) := 1_000_000 * E,
                                   (Token(TokenB), User) := 1_000_000 * E],
                               map[]));
    factory := new Factory(FactoryAddress, ledger);
    var createdA := factory.CreateExchange(TokenA, PoolA);
    var createdB := factory.CreateExchange(TokenB, PoolB);
    exchangeA, exchangeB := createdA.value, createdB.value;
  }

  /** The owner seeds exchange A with (1000 ether, 2000 TokenA). */
  method OnePoolSeeded() returns (ledger: Ledger, factory: Factory, exchangeA: Exchange, exchangeB: Exchange)
    ensures fresh(ledger) && fresh(factory) && fresh(exchangeB.lp)
    ensures factory.Valid() && factory.ledger == ledger && factory.address == FactoryAddress
    ensures factory.tokenToExchange == map[TokenA := exchangeA, TokenB := exchangeB]
    ensures exchangeA.address == PoolA && exchangeB.address == PoolB
    ensures exchangeA.tokenAddress == TokenA && exchangeB.tokenAddress == TokenB
    ensures exchangeA.ledger == ledger && exchangeB.ledger == ledger
    ensures exchangeA.factoryAddress == FactoryAddress && exchangeB.factoryAddress == FactoryAddress
    ensures exchangeB.Valid() && exchangeB.TotalSupply() == 0
    ensures exchangeA.EthReserve() == 1000 * E && exchangeA.TokenReserve() == 2000 * E
    ensures exchangeB.EthReserve() == 0 && exchangeB.TokenReserve() == 0
    ensures ledger.BalanceOf(Ether, User) == StartingEther
    ensures ledger.BalanceOf(Token(TokenA), Owner) == 998_000 * E && ledger.BalanceOf(Token(TokenA), User) == 0
    ensures ledger.BalanceOf(Token(TokenB), User) == 1_000_000 * E && ledger.BalanceOf(Token(TokenB), Owner) == 0
  {
    ledger, factory, exchangeA, exchangeB := TwoExchanges();
    ledger.Approve(TokenA, Owner, PoolA, 2000 * E);
    var addedA := exchangeA.AddLiquidity(Owner, 1000 * E, 2000 * E);
    assert addedA.Ok?;
  }

  /** The `tokenToTokenSwap` setup: then the user seeds exchange B with
      (1000 ether, 1000 TokenB). */
  method TwoPools() returns (ledger: Ledger, factory: Factory, exchangeA: Exchange, exchangeB: Exchange)
    ensures fresh(ledger) && fresh(factory)
    ensures factory.Valid() && factory.ledger == ledger && factory.address == FactoryAddress
    ensures factory.tokenToExchange == map[TokenA := exchangeA, TokenB := exchangeB]
    ensures exchangeA.address == PoolA && exchangeB.address == PoolB
    ensures exchangeA.tokenAddress == TokenA && exchangeB.tokenAddress == TokenB
    ensures exchangeA.ledger == ledger && exchangeB.ledger == ledger
    ensures exchangeA.factoryAddress == FactoryAddress && exchangeB.factoryAddress == FactoryAddress
    ensures exchangeA.EthReserve() == 1000 * E && exchangeA.TokenReserve() == 2000 * E
    ensures exchangeB.EthReserve() == 1000 * E && exchangeB.TokenReserve() == 1000 * E
    ensures ledger.BalanceOf(Token(TokenB), Owner) == 0 && ledger.BalanceOf(Token(TokenA), User) == 0
    ensures ledger.BalanceOf(Token(TokenA), Owner) == 998_000 * E
    ensures ledger.BalanceOf(Token(TokenB), User) == 999_000 * E
  {
    ledger, factory, exchangeA, exchangeB := OnePoolSeeded();
    ledger.Approve(TokenB, User, PoolB, 1000 * E);
    var addedB := exchangeB.AddLiquidity(User, 1000 * E, 1000 * E);
    assert addedB.Ok?;
  }

  /** exchange.js:485-494: 10 TokenA sold at exchange A buy 4925618189959699487
      wei of ether there, which buy TokenB at exchange B for the owner. */
  method FirstTokenSwap() returns (ledger: Ledger, factory: Factory, exchangeA: Exchange, exchangeB: Exchange,
                                   r: Result<nat>)
    ensures fresh(ledger) && fresh(factory)
    ensures factory.Valid() && factory.ledger == ledger && factory.address == FactoryAddress
    ensures factory.tokenToExchange == map[TokenA := exchangeA, TokenB := exchangeB]
    ensures exchangeA.address == PoolA && exchangeB.address == PoolB
    ensures exchangeA.tokenAddress == TokenA && exchangeB.tokenAddress == TokenB
    ensures exchangeA.ledger == ledger && exchangeB.ledger == ledger
    ensures exchangeA.factoryAddress == FactoryAddress && exchangeB.factoryAddress == FactoryAddress
    ensures r == Ok(4_852_698_493_489_877_956)
    ensures ledger.BalanceOf(Token(TokenB), Owner) == 4_852_698_493_489_877_956
    ensures exchangeA.EthReserve() == 1000 * E - 4_925_618_189_959_699_487 && exchangeA.TokenReserve() == 2010 * E
    ensures exchangeB.EthReserve() == 1000 * E + 4_925_618_189_959_699_487
    ensures exchangeB.TokenReserve() == 1000 * E - 4_852_698_493_489_877_956
    ensures ledger.BalanceOf(Token(TokenA), User) == 0 && ledger.BalanceOf(Token(TokenB), User) == 999_000 * E
  {
    ledger, factory, exchangeA, exchangeB := TwoPools();
    ledger.Approve(TokenA, Owner, PoolA, 10 * E);
    assert exchangeA.Routable(factory, TokenB);
    assert CanTransferFrom(ledger.books, TokenA, PoolA, Owner, 10 * E);
    assert GetAmount(10 * E, 2000 * E, 1000 * E) == 4_925_618_189_959_699_487;
    assert GetAmount(4_925_618_189_959_699_487, 1000 * E, 1000 * E) == 4_852_698_493_489_877_956;
    r := exchangeA.TokenToTokenSwap(Owner, 10 * E, 4_800_000_000_000_000_000, TokenB, factory);
  }

  /** exchange.js:453-506: the owner's swap of TokenA for TokenB, then the
      user's 10 TokenB back into TokenA at the moved prices. */
  method SwapsTokenForToken() returns (ownerB: nat, userABefore: nat, userA: nat)
    ensures ownerB == 4_852_698_493_489_877_956
    ensures userABefore == 0 && userA == 19_602_080_509_528_011_079
  {
    var ledger, factory, exchangeA, exchangeB, first := FirstTokenSwap();
    ownerB := ledger.BalanceOf(Token(TokenB), Owner);
    userABefore := ledger.BalanceOf(Token(TokenA), User);
    ledger.Approve(TokenB, User, PoolB, 10 * E);
    // 10 TokenB fetch 9898801384937760185 wei at exchange B.
    assert GetAmount(10 * E, 1000 * E - 4_852_698_493_489_877_956, 1000 * E + 4_925_618_189_959_699_487)
        == 9_898_801_384_937_760_185;
    assert GetAmount(9_898_801_384_937_760_185, 1000 * E - 4_925_618_189_959_699_487, 2010 * E)
        == 19_602_080_509_528_011_079;
    var second := exchangeB.TokenToTokenSwap(User, 10 * E, 19_600_000_000_000_000_000, TokenA, factory);
    userA := ledger.BalanceOf(Token(TokenA), User);
  }

  /** The `deployAll` fixture of factory.js: the Ruble token and an empty
      factory. */
  method NewFactory() returns (ledger: Ledger, factory: Factory)
    ensures fresh(factory) && factory.Valid() && factory.address == FactoryAddress
    ensures factory.tokenToExchange == map[]
  {
    ledger := new Ledger(Genesis());
    factory := new Factory(FactoryAddress, ledger);
  }

  /** factory.js:51-69: the exchange created for a token is the one the
      registry returns, and it records the factory as its factory. */
  method DeploysExchange() returns (created: Address, registered: Address, factoryOf: Address, totalSupply: nat)
    ensures created == Pool && registered == Pool && factoryOf == FactoryAddress && totalSupply == 0
  {
    var ledger, factory := NewFactory();
    var r := factory.CreateExchange(Rub, Pool);
    created := r.value.address;
    registered := factory.tokenToExchange[Rub].address;
    factoryOf, totalSupply := r.value.factoryAddress, r.value.TotalSupply();
  }

  /** factory.js:71-77: the zero address is not a token. */
  method RefusesZeroAddress() returns (failed: bool, error: Error, registry: map<Address, Exchange>)
    ensures failed && error == InvalidTokenAddress && registry == map[]
  {
    var ledger, factory := NewFactory();
    var r := factory.CreateExchange(ZeroAddress, Pool);
    failed := r.Err?;
    error := r.error;
    registry := factory.tokenToExchange;
  }

  /** factory.js:79-87: a second exchange for the same token is refused. */
  method RefusesDuplicate() returns (failed: bool, error: Error, registered: Address)
    ensures failed && error == ExchangeAlreadyExists && registered == Pool
  {
    var ledger, factory := NewFactory();
    var first := factory.CreateExchange(Rub, Pool);
    var second := factory.CreateExchange(Rub, PoolA);
    failed := second.Err?;
    error := second.error;
    registered := factory.tokenToExchange[Rub].address;
  }

  /** factory.js:90-103: `getExchange` finds the created exchange, and finds
      none for a token without one. */
  method FindsExchange() returns (found: Address, missing: bool)
    ensures found == Pool && missing
  {
    var ledger, factory := NewFactory();
    var r := factory.CreateExchange(Rub, Pool);
    var hit, miss := factory.GetExchange(Rub), factory.GetExchange(TokenA);
    found, missing := hit.value.address, miss.None?;
  }
}
