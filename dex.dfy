/** The token/ether exchange and the factory that registers one exchange per
    token. An exchange's reserves are not stored apart: they are what the
    books say the exchange's own address holds, ether and its token. */
module Dex {
  import opened Base
  import opened Pricing
  import opened Custody
  import opened Shares
  import opened Liquidity

  class Exchange {
    const address: Address
    const tokenAddress: Address
    const factoryAddress: Address
    const ledger: Ledger
    const lp: LpToken

    ghost predicate Valid()
      reads lp
    {
      lp.Valid()
    }

    /** Deployment by `deployer`, which becomes `factoryAddress`. */
    constructor (address: Address, tokenAddress: Address, deployer: Address, ledger: Ledger)
      ensures this.address == address && this.tokenAddress == tokenAddress
      ensures factoryAddress == deployer && this.ledger == ledger
      ensures fresh(lp) && Valid() && lp.balances == map[] && TotalSupply() == 0
    {
      this.address := address;
      this.tokenAddress := tokenAddress;
      factoryAddress := deployer;
      this.ledger := ledger;
      lp := new LpToken();
    }

    /** The ether the exchange holds. */
    function EthReserve(): nat
      reads ledger
    {
      ledger.BalanceOf(Ether, address)
    }

    /** `getTokenReserve`: the tokens the exchange holds. */
    function TokenReserve(): nat
      reads ledger
    {
      ledger.BalanceOf(Token(tokenAddress), address)
    }

    function TotalSupply(): nat
      reads lp
    {
      lp.totalSupply
    }

    function BalanceOf(holder: Address): nat
      reads lp
    {
      lp.BalanceOf(holder)
    }

    /** `getTokenAmount`: the tokens `ethSold` ether would buy now. It reverts
        only on a pool without ether quoted for nothing; on a funded pool the
        quote is always below the token reserve. */
    function GetTokenAmount(ethSold: nat): (r: Result<nat>)
      reads ledger
      ensures r.Err? <==> EthReserve() == 0 && ethSold == 0
      ensures r.Ok? && EthReserve() > 0 && TokenReserve() > 0 ==> r.value < TokenReserve()
    {
      if Quotable(ethSold, EthReserve()) then
        OutputBelowReserve(ethSold, EthReserve(), TokenReserve());
        Ok(GetAmount(ethSold, EthReserve(), TokenReserve()))
      else Err(DivisionByZero)
    }

    /** `getEthAmount`: the ether `tokensSold` tokens would buy now; the same
        curve with the reserves' roles swapped. */
    function GetEthAmount(tokensSold: nat): (r: Result<nat>)
      reads ledger
      ensures r.Err? <==> TokenReserve() == 0 && tokensSold == 0
      ensures r.Ok? && EthReserve() > 0 && TokenReserve() > 0 ==> r.value < EthReserve()
    {
      if Quotable(tokensSold, TokenReserve()) then
        OutputBelowReserve(tokensSold, TokenReserve(), EthReserve());
        Ok(GetAmount(tokensSold, TokenReserve(), EthReserve()))
      else Err(DivisionByZero)
    }

    /** `addLiquidity(tokenAmount)` sent by `sender` with `value` wei. The
        reserves used for sizing are those before the ether arrives. */
    method AddLiquidity(sender: Address, value: nat, tokenAmount: nat) returns (r: Result<nat>)
      requires Valid() && sender != address
      modifies ledger, lp
      ensures Valid()
      ensures var terms := DepositTerms(old(EthReserve()), old(TokenReserve()), old(TotalSupply()), value, tokenAmount);
              r.Ok? <==> value <= old(ledger.BalanceOf(Ether, sender)) && terms.Ok? &&
                         CanTransferFrom(old(ledger.books), tokenAddress, address, sender, terms.value.paired)
      ensures value > old(ledger.BalanceOf(Ether, sender)) ==> r == Err(InsufficientEther)
      ensures var terms := DepositTerms(old(EthReserve()), old(TokenReserve()), old(TotalSupply()), value, tokenAmount);
              value <= old(ledger.BalanceOf(Ether, sender)) && terms.Err? ==> r == Err(terms.error)
      ensures r.Err? ==> unchanged(ledger) && unchanged(lp)
      ensures var terms := DepositTerms(old(EthReserve()), old(TokenReserve()), old(TotalSupply()), value, tokenAmount);
              r.Ok? ==>
                && r.value == terms.value.liquidity
                && ledger.books == TryTransferFrom(Move(old(ledger.books), Ether, sender, address, value),
                                                   tokenAddress, address, sender, address, terms.value.paired).value
                && lp.balances == old(lp.balances)[sender := old(BalanceOf(sender)) + r.value]
                && lp.totalSupply == old(TotalSupply()) + r.value
                && EthReserve() == old(EthReserve()) + value
                && TokenReserve() == old(TokenReserve()) + terms.value.paired
      ensures Confined(old(ledger.books), ledger.books, {Ether, Token(tokenAddress)}, {sender, address})
    {
      var ethReserve, tokenReserve := EthReserve(), TokenReserve();
      if value > ledger.BalanceOf(Ether, sender) {
        return Err(InsufficientEther);
      }
      var terms := DepositTerms(ethReserve, tokenReserve, lp.totalSupply, value, tokenAmount);
      if terms.Err? {
        return Err(terms.error);
      }
      var books := ledger.books;
      var paid := Move(books, Ether, sender, address, value);
      MoveBalances(books, Ether, sender, address, value, Ether, address);
      MoveBalances(books, Ether, sender, address, value, Token(tokenAddress), address);
      MoveBalances(books, Ether, sender, address, value, Token(tokenAddress), sender);
      var pulled := TryTransferFrom(paid, tokenAddress, address, sender, address, terms.value.paired);
      if pulled.Err? {
        return Err(pulled.error);
      }
      MoveBalances(paid, Token(tokenAddress), sender, address, terms.value.paired, Ether, address);
      MoveBalances(paid, Token(tokenAddress), sender, address, terms.value.paired, Token(tokenAddress), address);
      ledger.books := pulled.value;
      lp.Mint(sender, terms.value.liquidity);
      r := Ok(terms.value.liquidity);
    }

    /** `removeLiquidity(amount)` sent by `sender`: burns `amount` LP tokens
        and pays out that share of both reserves. */
    method RemoveLiquidity(sender: Address, amount: nat) returns (r: Result<Payout>)
      requires Valid() && sender != address
      modifies ledger, lp
      ensures Valid()
      ensures r.Ok? <==> old(TotalSupply()) > 0 && amount <= old(BalanceOf(sender))
      ensures old(TotalSupply()) == 0 ==> r == Err(DivisionByZero)
      ensures old(TotalSupply()) > 0 && amount > old(BalanceOf(sender)) ==> r == Err(BurnExceedsBalance)
      ensures r.Err? ==> unchanged(ledger) && unchanged(lp)
      ensures r.Ok? ==> r == WithdrawalTerms(old(EthReserve()), old(TokenReserve()), old(TotalSupply()), amount)
      ensures r.Ok? ==> r.value.first <= old(EthReserve()) && r.value.second <= old(TokenReserve())
      ensures r.Ok? ==>
                && ledger.books == Move(Move(old(ledger.books), Ether, address, sender, r.value.first),
                                        Token(tokenAddress), address, sender, r.value.second)
                && lp.balances == old(lp.balances)[sender := old(BalanceOf(sender)) - amount]
                && lp.totalSupply == old(TotalSupply()) - amount
                && EthReserve() == old(EthReserve()) - r.value.first
                && TokenReserve() == old(TokenReserve()) - r.value.second
      ensures Confined(old(ledger.books), ledger.books, {Ether, Token(tokenAddress)}, {sender, address})
    {
      var terms := WithdrawalTerms(EthReserve(), TokenReserve(), lp.totalSupply, amount);
      if terms.Err? {
        return Err(DivisionByZero);
      }
      HolderBelowSupply(lp, sender);
      var burnt := lp.Burn(sender, amount);
      if burnt.Err? {
        return Err(burnt.error);
      }
      WithdrawalCovered(EthReserve(), TokenReserve(), old(lp.totalSupply), amount);
      var books := ledger.books;
      var p := terms.value;
      var paidEth := Move(books, Ether, address, sender, p.first);
      MoveBalances(books, Ether, address, sender, p.first, Ether, address);
      MoveBalances(books, Ether, address, sender, p.first, Token(tokenAddress), address);
      MoveBalances(paidEth, Token(tokenAddress), address, sender, p.second, Ether, address);
      MoveBalances(paidEth, Token(tokenAddress), address, sender, p.second, Token(tokenAddress), address);
      ledger.books := Move(paidEth, Token(tokenAddress), address, sender, p.second);
      r := terms;
    }

    /** `ethToTokenTransfer(minTokens, recipient)` sent by `sender` with
        `value` wei: buys tokens at the quote for the reserves before the
        ether arrives, paid to `recipient`. */
    method EthToTokenTransfer(sender: Address, value: nat, minTokens: nat, recipient: Address) returns (r: Result<nat>)
      requires sender != address
      modifies ledger
      ensures r.Ok? <==> value <= old(ledger.BalanceOf(Ether, sender)) && Quotable(value, old(EthReserve())) &&
                         GetAmount(value, old(EthReserve()), old(TokenReserve())) >= minTokens
      ensures value > old(ledger.BalanceOf(Ether, sender)) ==> r == Err(InsufficientEther)
      ensures value <= old(ledger.BalanceOf(Ether, sender)) && !Quotable(value, old(EthReserve())) ==>
                r == Err(DivisionByZero)
      ensures value <= old(ledger.BalanceOf(Ether, sender)) && Quotable(value, old(EthReserve())) &&
              GetAmount(value, old(EthReserve()), old(TokenReserve())) < minTokens ==>
                r == Err(InsufficientOutputAmount)
      ensures r.Err? ==> unchanged(ledger)
      ensures r.Ok? ==>
                && r.value == GetAmount(value, old(EthReserve()), old(TokenReserve()))
                && ledger.books == Move(Move(old(ledger.books), Ether, sender, address, value),
                                        Token(tokenAddress), address, recipient, r.value)
                && EthReserve() == old(EthReserve()) + value
      ensures r.Ok? && recipient != address ==>
                && TokenReserve() == old(TokenReserve()) - r.value
                && ledger.BalanceOf(Token(tokenAddress), recipient)
                   == old(ledger.BalanceOf(Token(tokenAddress), recipient)) + r.value
      ensures Confined(old(ledger.books), ledger.books, {Ether, Token(tokenAddress)}, {sender, address, recipient})
    {
      var ethReserve, tokenReserve := EthReserve(), TokenReserve();
      if value > ledger.BalanceOf(Ether, sender) {
        return Err(InsufficientEther);
      }
      if !Quotable(value, ethReserve) {
        return Err(DivisionByZero);
      }
      var tokensBought := GetAmount(value, ethReserve, tokenReserve);
      if tokensBought < minTokens {
        return Err(InsufficientOutputAmount);
      }
      var books := ledger.books;
      var paid := Move(books, Ether, sender, address, value);
      MoveBalances(books, Ether, sender, address, value, Ether, address);
      MoveBalances(books, Ether, sender, address, value, Token(tokenAddress), address);
      MoveBalances(books, Ether, sender, address, value, Token(tokenAddress), recipient);
      MoveBalances(paid, Token(tokenAddress), address, recipient, tokensBought, Ether, address);
      MoveBalances(paid, Token(tokenAddress), address, recipient, tokensBought, Token(tokenAddress), address);
      MoveBalances(paid, Token(tokenAddress), address, recipient, tokensBought, Token(tokenAddress), recipient);
      ledger.books := Move(paid, Token(tokenAddress), address, recipient, tokensBought);
      r := Ok(tokensBought);
    }

    /** `ethToTokenSwap(minTokens)`: `ethToTokenTransfer` paying the sender. */
    method EthToTokenSwap(sender: Address, value: nat, minTokens: nat) returns (r: Result<nat>)
      requires sender != address
      modifies ledger
      ensures r.Ok? <==> value <= old(ledger.BalanceOf(Ether, sender)) && Quotable(value, old(EthReserve())) &&
                         GetAmount(value, old(EthReserve()), old(TokenReserve())) >= minTokens
      ensures value > old(ledger.BalanceOf(Ether, sender)) ==> r == Err(InsufficientEther)
      ensures value <= old(ledger.BalanceOf(Ether, sender)) && !Quotable(value, old(EthReserve())) ==>
                r == Err(DivisionByZero)
      ensures value <= old(ledger.BalanceOf(Ether, sender)) && Quotable(value, old(EthReserve())) &&
              GetAmount(value, old(EthReserve()), old(TokenReserve())) < minTokens ==>
                r == Err(InsufficientOutputAmount)
      ensures r.Err? ==> unchanged(ledger)
      ensures r.Ok? ==>
                && r.value == GetAmount(value, old(EthReserve()), old(TokenReserve()))
                && ledger.books == Move(Move(old(ledger.books), Ether, sender, address, value),
                                        Token(tokenAddress), address, sender, r.value)
                && EthReserve() == old(EthReserve()) + value
                && TokenReserve() == old(TokenReserve()) - r.value
                && ledger.BalanceOf(Token(tokenAddress), sender)
                   == old(ledger.BalanceOf(Token(tokenAddress), sender)) + r.value
      ensures Confined(old(ledger.books), ledger.books, {Ether, Token(tokenAddress)}, {sender, address})
    {
      r := EthToTokenTransfer(sender, value, minTokens, sender);
    }

    /** `tokenToEthSwap(tokensSold, minEth)` sent by `sender`: sells tokens
        (pulled with the sender's allowance) for ether. */
    method TokenToEthSwap(sender: Address, tokensSold: nat, minEth: nat) returns (r: Result<nat>)
      requires sender != address
      modifies ledger
      ensures r.Ok? <==> Quotable(tokensSold, old(TokenReserve())) &&
                         GetAmount(tokensSold, old(TokenReserve()), old(EthReserve())) >= minEth &&
                         CanTransferFrom(old(ledger.books), tokenAddress, address, sender, tokensSold)
      ensures !Quotable(tokensSold, old(TokenReserve())) ==> r == Err(DivisionByZero)
      ensures Quotable(tokensSold, old(TokenReserve())) &&
              GetAmount(tokensSold, old(TokenReserve()), old(EthReserve())) < minEth ==>
                r == Err(InsufficientOutputAmount)
      ensures Quotable(tokensSold, old(TokenReserve())) &&
              GetAmount(tokensSold, old(TokenReserve()), old(EthReserve())) >= minEth &&
              !CanTransferFrom(old(ledger.books), tokenAddress, address, sender, tokensSold) ==>
                r == Err(TryTransferFrom(old(ledger.books), tokenAddress, address, sender, address, tokensSold).error)
      ensures r.Err? ==> unchanged(ledger)
      ensures r.Ok? ==>
                && r.value == GetAmount(tokensSold, old(TokenReserve()), old(EthReserve()))
                && ledger.books == Move(TryTransferFrom(old(ledger.books), tokenAddress, address, sender, address,
                                                        tokensSold).value,
                                        Ether, address, sender, r.value)
                && EthReserve() == old(EthReserve()) - r.value
                && TokenReserve() == old(TokenReserve()) + tokensSold
                && ledger.BalanceOf(Ether, sender) == old(ledger.BalanceOf(Ether, sender)) + r.value
      ensures Confined(old(ledger.books), ledger.books, {Ether, Token(tokenAddress)}, {sender, address})
    {
      var ethReserve, tokenReserve := EthReserve(), TokenReserve();
      if !Quotable(tokensSold, tokenReserve) {
        return Err(DivisionByZero);
      }
      var ethBought := GetAmount(tokensSold, tokenReserve, ethReserve);
      if ethBought < minEth {
        return Err(InsufficientOutputAmount);
      }
      var books := ledger.books;
      var pulled := TryTransferFrom(books, tokenAddress, address, sender, address, tokensSold);
      if pulled.Err? {
        return Err(pulled.error);
      }
      MoveBalances(books, Token(tokenAddress), sender, address, tokensSold, Ether, address);
      MoveBalances(books, Token(tokenAddress), sender, address, tokensSold, Ether, sender);
      MoveBalances(books, Token(tokenAddress), sender, address, tokensSold, Token(tokenAddress), address);
      var sold := pulled.value;
      MoveBalances(sold, Ether, address, sender, ethBought, Ether, address);
      MoveBalances(sold, Ether, address, sender, ethBought, Ether, sender);
      MoveBalances(sold, Ether, address, sender, ethBought, Token(tokenAddress), address);
      ledger.books := Move(sold, Ether, address, sender, ethBought);
      r := Ok(ethBought);
    }

    /** The factory at this exchange's factory address routes `targetToken`
        to an exchange other than this one. */
    ghost predicate Routable(factory: Factory, targetToken: Address)
      reads factory
    {
      && factory.address == factoryAddress
      && targetToken in factory.tokenToExchange
      && factory.tokenToExchange[targetToken].address != address
    }

    /** `tokenToTokenSwap(tokensSold, minTokensBought, targetToken)` sent by
        `sender`: sells tokens here for ether, and spends that ether at the
        exchange the factory registers for `targetToken`, which pays the
        sender. The ether goes from exchange to exchange, never through the
        sender, and a failure of either hop reverts both. `factory` is the
        factory deployed on the chain; when it does not sit at this
        exchange's factory address (an exchange deployed directly), the
        call to `getExchange` reverts. */
    method TokenToTokenSwap(sender: Address, tokensSold: nat, minTokensBought: nat, targetToken: Address,
                            factory: Factory) returns (r: Result<nat>)
      requires sender != address
      requires factory.Valid() && factory.ledger == ledger
      requires forall t :: t in factory.tokenToExchange ==> factory.tokenToExchange[t].address != sender
      modifies ledger
      ensures factory.address != factoryAddress ==> r == Err(NoFactory)
      ensures factory.address == factoryAddress && !Routable(factory, targetToken) ==> r == Err(InvalidExchangeAddress)
      ensures Routable(factory, targetToken) && !Quotable(tokensSold, old(TokenReserve())) ==> r == Err(DivisionByZero)
      ensures Routable(factory, targetToken) && Quotable(tokensSold, old(TokenReserve())) &&
              !CanTransferFrom(old(ledger.books), tokenAddress, address, sender, tokensSold) ==>
                r == Err(TryTransferFrom(old(ledger.books), tokenAddress, address, sender, address, tokensSold).error)
      ensures Routable(factory, targetToken) && Quotable(tokensSold, old(TokenReserve())) &&
              CanTransferFrom(old(ledger.books), tokenAddress, address, sender, tokensSold) ==>
                var target := factory.tokenToExchange[targetToken];
                var ethBought := GetAmount(tokensSold, old(TokenReserve()), old(EthReserve()));
                && (!Quotable(ethBought, old(target.EthReserve())) ==> r == Err(DivisionByZero))
                && (Quotable(ethBought, old(target.EthReserve())) &&
                    GetAmount(ethBought, old(target.EthReserve()), old(target.TokenReserve())) < minTokensBought ==>
                      r == Err(InsufficientOutputAmount))
      ensures r.Err? ==> unchanged(ledger)
      ensures r.Ok? <==>
                && Routable(factory, targetToken)
                && Quotable(tokensSold, old(TokenReserve()))
                && CanTransferFrom(old(ledger.books), tokenAddress, address, sender, tokensSold)
                && var target := factory.tokenToExchange[targetToken];
                   var ethBought := GetAmount(tokensSold, old(TokenReserve()), old(EthReserve()));
                   Quotable(ethBought, old(target.EthReserve())) &&
                   GetAmount(ethBought, old(target.EthReserve()), old(target.TokenReserve())) >= minTokensBought
      ensures r.Ok? ==>
                var target := factory.tokenToExchange[targetToken];
                var ethBought := GetAmount(tokensSold, old(TokenReserve()), old(EthReserve()));
                && r.value == GetAmount(ethBought, old(target.EthReserve()), old(target.TokenReserve()))
                && ledger.books == Move(Move(TryTransferFrom(old(ledger.books), tokenAddress, address, sender,
                                                             address, tokensSold).value,
                                             Ether, address, target.address, ethBought),
                                        Token(targetToken), target.address, sender, r.value)
                && TokenReserve() == old(TokenReserve()) + tokensSold
                && EthReserve() == old(EthReserve()) - ethBought
                && target.EthReserve() == old(target.EthReserve()) + ethBought
                && target.TokenReserve() == old(target.TokenReserve()) - r.value
      ensures r.Ok? && targetToken != tokenAddress ==>
                ledger.BalanceOf(Token(targetToken), sender) == old(ledger.BalanceOf(Token(targetToken), sender)) + r.value
      ensures r.Ok? ==>
                Confined(old(ledger.books), ledger.books, {Ether, Token(tokenAddress), Token(targetToken)},
                         {sender, address, factory.tokenToExchange[targetToken].address})
    {
      if factory.address != factoryAddress {
        return Err(NoFactory);
      }
      var found := factory.GetExchange(targetToken);
      if found.None? || found.value.address == address {
        return Err(InvalidExchangeAddress);
      }
      var target := found.value;
      var ethReserve, tokenReserve := EthReserve(), TokenReserve();
      if !Quotable(tokensSold, tokenReserve) {
        return Err(DivisionByZero);
      }
      var ethBought := GetAmount(tokensSold, tokenReserve, ethReserve);
      var books := ledger.books;
      var pulled := TryTransferFrom(books, tokenAddress, address, sender, address, tokensSold);
      if pulled.Err? {
        return Err(pulled.error);
      }
      // The first hop touches neither reserve of the target exchange.
      MoveBalances(books, Token(tokenAddress), sender, address, tokensSold, Ether, address);
      MoveBalances(books, Token(tokenAddress), sender, address, tokensSold, Token(tokenAddress), address);
      MoveBalances(books, Token(tokenAddress), sender, address, tokensSold, Ether, target.address);
      MoveBalances(books, Token(tokenAddress), sender, address, tokensSold, Token(targetToken), target.address);
      var ethReserve2, tokenReserve2 := target.EthReserve(), target.TokenReserve();
      if !Quotable(ethBought, ethReserve2) {
        return Err(DivisionByZero);
      }
      if GetAmount(ethBought, ethReserve2, tokenReserve2) < minTokensBought {
        return Err(InsufficientOutputAmount);
      }
      ledger.books := pulled.value;
      ghost var afterFirstHop := ledger.books;
      r := target.EthToTokenTransfer(address, ethBought, minTokensBought, sender);
      MoveBalances(afterFirstHop, Ether, address, target.address, ethBought, Ether, address);
      MoveBalances(afterFirstHop, Ether, address, target.address, ethBought, Token(tokenAddress), address);
      var middle := Move(afterFirstHop, Ether, address, target.address, ethBought);
      MoveBalances(middle, Token(targetToken), target.address, sender, r.value, Ether, address);
      MoveBalances(middle, Token(targetToken), target.address, sender, r.value, Token(tokenAddress), address);
      MoveBalances(books, Token(tokenAddress), sender, address, tokensSold, Token(targetToken), sender);
      MoveBalances(afterFirstHop, Ether, address, target.address, ethBought, Token(targetToken), sender);
      MoveBalances(middle, Token(targetToken), target.address, sender, r.value, Token(targetToken), sender);
    }
  }

  /** The registry: at most one exchange per token, created by the factory,
      all sharing the factory's view of the chain. */
  class Factory {
    const address: Address
    const ledger: Ledger
    var tokenToExchange: map<Address, Exchange>

    ghost predicate Registered(e: Exchange, token: Address) {
      e.tokenAddress == token && e.factoryAddress == address && e.ledger == ledger
    }

    ghost predicate Valid()
      reads this
    {
      && (forall t :: t in tokenToExchange ==> t != ZeroAddress && Registered(tokenToExchange[t], t))
      && (forall t :: t in tokenToExchange ==>
            tokenToExchange[t].address != ZeroAddress && tokenToExchange[t].address != address)
      && (forall t, u :: t in tokenToExchange && u in tokenToExchange && t != u ==>
            tokenToExchange[t].address != tokenToExchange[u].address)
    }

    constructor (address: Address, ledger: Ledger)
      ensures this.address == address && this.ledger == ledger
      ensures Valid() && tokenToExchange == map[]
    {
      this.address := address;
      this.ledger := ledger;
      tokenToExchange := map[];
    }

    /** `createExchange(token)`: deploys a fresh exchange for `token` at the
        address `at` (the address the chain assigns to the new contract: never
        the zero address, the factory's own, or one already deployed at). */
    method CreateExchange(token: Address, at: Address) returns (r: Result<Exchange>)
      requires Valid()
      requires at != ZeroAddress && at != address
      requires forall t :: t in tokenToExchange ==> tokenToExchange[t].address != at
      modifies this
      ensures Valid()
      ensures r.Ok? <==> token != ZeroAddress && token !in old(tokenToExchange)
      ensures token == ZeroAddress ==> r == Err(InvalidTokenAddress)
      ensures token != ZeroAddress && token in old(tokenToExchange) ==> r == Err(ExchangeAlreadyExists)
      ensures r.Err? ==> tokenToExchange == old(tokenToExchange)
      ensures r.Ok? ==>
                && fresh(r.value) && fresh(r.value.lp)
                && tokenToExchange == old(tokenToExchange)[token := r.value]
                && r.value.address == at && Registered(r.value, token)
                && r.value.Valid() && r.value.TotalSupply() == 0
    {
      if token == ZeroAddress {
        return Err(InvalidTokenAddress);
      }
      if token in tokenToExchange {
        return Err(ExchangeAlreadyExists);
      }
      var exchange := new Exchange(at, token, address, ledger);
      tokenToExchange := tokenToExchange[token := exchange];
      r := Ok(exchange);
    }

    /** `getExchange(token)`: the exchange registered for `token`, if any. */
    function GetExchange(token: Address): (r: Option<Exchange>)
      reads this
      requires Valid()
      ensures r.Some? <==> token in tokenToExchange
      ensures r.Some? ==> r.value.tokenAddress == token && r.value.factoryAddress == address
    {
      if token in tokenToExchange then Some(tokenToExchange[token]) else None
    }
  }
}
