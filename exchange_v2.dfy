/** The two-token exchange (token1 = DAI, token2 = RUB in its tests). Only
    depositing liquidity is modelled; token1 is the unit of account. */
module DexV2 {
  import opened Base
  import opened Custody
  import opened Shares
  import opened Liquidity

  class ExchangeV2 {
    const address: Address
    const token1: Address
    const token2: Address
    const factoryAddress: Address
    const ledger: Ledger
    const lp: LpToken

    ghost predicate Valid()
      reads lp
    {
      lp.Valid()
    }

    /** Deployment by `deployer`, which becomes `factoryAddress`. */
    constructor (address: Address, token1: Address, token2: Address, deployer: Address, ledger: Ledger)
      ensures this.address == address && this.token1 == token1 && this.token2 == token2
      ensures factoryAddress == deployer && this.ledger == ledger
      ensures fresh(lp) && Valid() && lp.balances == map[] && TotalSupply() == 0
    {
      this.address := address;
      this.token1 := token1;
      this.token2 := token2;
      factoryAddress := deployer;
      this.ledger := ledger;
      lp := new LpToken();
    }

    /** `getToken1Reserve`. */
    function Token1Reserve(): nat
      reads ledger
    {
      ledger.BalanceOf(Token(token1), address)
    }

    /** `getToken2Reserve`. */
    function Token2Reserve(): nat
      reads ledger
    {
      ledger.BalanceOf(Token(token2), address)
    }

    function TotalSupply(): nat
      reads lp
    {
      lp.totalSupply
    }

    function BalanceOf(holder: Address): nat
      reads lp
    {
      lp.BalanceOf(holder)
    }

    /** `addLiquidity(amount1, amount2)` sent by `sender`: pulls all of
        `amount1` and the proportional part of `amount2` (all of it into an
        empty pool) with the sender's allowances, and mints LP tokens. */
    method AddLiquidity(sender: Address, amount1: nat, amount2: nat) returns (r: Result<nat>)
      requires Valid() && sender != address
      modifies ledger, lp
      ensures Valid()
      ensures var terms := DepositTerms(old(Token1Reserve()), old(Token2Reserve()), old(TotalSupply()), amount1, amount2);
              r.Ok? <==>
                && terms.Ok?
                && TryTransferFrom(old(ledger.books), token1, address, sender, address, amount1).Ok?
                && TryTransferFrom(TryTransferFrom(old(ledger.books), token1, address, sender, address, amount1).value,
                                   token2, address, sender, address, terms.value.paired).Ok?
      ensures var terms := DepositTerms(old(Token1Reserve()), old(Token2Reserve()), old(TotalSupply()), amount1, amount2);
              terms.Err? ==> r == Err(terms.error)
      ensures r.Err? ==> unchanged(ledger) && unchanged(lp)
      ensures var terms := DepositTerms(old(Token1Reserve()), old(Token2Reserve()), old(TotalSupply()), amount1, amount2);
              r.Ok? ==>
                && r.value == terms.value.liquidity
                && ledger.books == TryTransferFrom(TryTransferFrom(old(ledger.books), token1, address, sender, address,
                                                                   amount1).value,
                                                   token2, address, sender, address, terms.value.paired).value
                && lp.balances == old(lp.balances)[sender := old(BalanceOf(sender)) + r.value]
                && lp.totalSupply == old(TotalSupply()) + r.value
      ensures var terms := DepositTerms(old(Token1Reserve()), old(Token2Reserve()), old(TotalSupply()), amount1, amount2);
              r.Ok? && token1 != token2 ==>
                && Token1Reserve() == old(Token1Reserve()) + amount1
                && Token2Reserve() == old(Token2Reserve()) + terms.value.paired
      ensures Confined(old(ledger.books), ledger.books, {Token(token1), Token(token2)}, {sender, address})
    {
      var terms := DepositTerms(Token1Reserve(), Token2Reserve(), lp.totalSupply, amount1, amount2);
      if terms.Err? {
        return Err(terms.error);
      }
      var books := ledger.books;
      var first := TryTransferFrom(books, token1, address, sender, address, amount1);
      if first.Err? {
        return Err(first.error);
      }
      var second := TryTransferFrom(first.value, token2, address, sender, address, terms.value.paired);
      if second.Err? {
        return Err(second.error);
      }
      MoveBalances(books, Token(token1), sender, address, amount1, Token(token1), address);
      MoveBalances(books, Token(token1), sender, address, amount1, Token(token2), address);
      MoveBalances(first.value, Token(token2), sender, address, terms.value.paired, Token(token1), address);
      MoveBalances(first.value, Token(token2), sender, address, terms.value.paired, Token(token2), address);
      ledger.books := second.value;
      lp.Mint(sender, terms.value.liquidity);
      r := Ok(terms.value.liquidity);
    }
  }
}
