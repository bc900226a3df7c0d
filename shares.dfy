/** The liquidity-provider token of a pool: an ERC20 share ledger that only
    the pool mints (on deposit) and burns (on withdrawal), and that holders
    may transfer and approve like any ERC20 token. */
module Shares {
  import opened Base
  import opened Sums

  class LpToken {
    var balances: map<Address, nat>
    var totalSupply: nat
    /** `allowance(owner, spender)`, keyed by (owner, spender). */
    var allowances: map<(Address, Address), nat>

    /** Share conservation: the holders' balances add up to the supply. */
    ghost predicate Valid()
      reads this
    {
      Sum(balances) == totalSupply
    }

    constructor ()
      ensures Valid()
      ensures balances == map[] && totalSupply == 0 && allowances == map[]
    {
      balances := map[];
      totalSupply := 0;
      allowances := map[];
    }

    function BalanceOf(holder: Address): nat
      reads this
    {
      Get(balances, holder)
    }

    /** ERC20 `_mint`. */
    method Mint(to: Address, amount: nat)
      requires Valid()
      modifies this
      ensures Valid()
      ensures balances == old(balances)[to := old(BalanceOf(to)) + amount]
      ensures totalSupply == old(totalSupply) + amount
      ensures allowances == old(allowances)
    {
      SumUpdate(balances, to, BalanceOf(to) + amount);
      balances := balances[to := BalanceOf(to) + amount];
      totalSupply := totalSupply + amount;
    }

    /** ERC20 `_burn`: reverts when the holder has fewer than `amount`. */
    method Burn(from: Address, amount: nat) returns (r: Result<()>)
      requires Valid()
      modifies this
      ensures Valid()
      ensures r.Ok? <==> amount <= old(BalanceOf(from))
      ensures r.Err? ==> r.error == BurnExceedsBalance && unchanged(this)
      ensures r.Ok? ==> balances == old(balances)[from := old(BalanceOf(from)) - amount]
      ensures r.Ok? ==> totalSupply == old(totalSupply) - amount
      ensures allowances == old(allowances)
    {
      if amount > BalanceOf(from) {
        return Err(BurnExceedsBalance);
      }
      EntryBelowSum(balances, from);
      SumUpdate(balances, from, BalanceOf(from) - amount);
      balances := balances[from := BalanceOf(from) - amount];
      totalSupply := totalSupply - amount;
      r := Ok(());
    }

    function Allowance(owner: Address, spender: Address): nat
      reads this
    {
      Get(allowances, (owner, spender))
    }

    /** ERC20 `transfer(to, amount)` sent by `from`: reverts when `from`
        holds fewer than `amount` shares; the supply does not move. */
    method Transfer(from: Address, to: Address, amount: nat) returns (r: Result<()>)
      requires Valid()
      modifies this
      ensures Valid()
      ensures r.Ok? <==> amount <= old(BalanceOf(from))
      ensures r.Err? ==> r.error == TransferExceedsBalance && unchanged(this)
      ensures r.Ok? && from != to ==>
                balances == old(balances)[from := old(BalanceOf(from)) - amount][to := old(BalanceOf(to)) + amount]
      ensures r.Ok? && from == to ==> balances == old(balances)[from := old(BalanceOf(from))]
      ensures totalSupply == old(totalSupply) && allowances == old(allowances)
    {
      if amount > BalanceOf(from) {
        return Err(TransferExceedsBalance);
      }
      var debited := balances[from := BalanceOf(from) - amount];
      SumUpdate(balances, from, BalanceOf(from) - amount);
      SumUpdate(debited, to, Get(debited, to) + amount);
      balances := debited[to := Get(debited, to) + amount];
      r := Ok(());
    }

    /** ERC20 `approve(spender, amount)` sent by `owner`. */
    method Approve(owner: Address, spender: Address, amount: nat)
      requires Valid()
      modifies this
      ensures Valid()
      ensures allowances == old(allowances)[(owner, spender) := amount]
      ensures balances == old(balances) && totalSupply == old(totalSupply)
    {
      allowances := allowances[(owner, spender) := amount];
    }

    /** ERC20 `transferFrom(from, to, amount)` sent by `spender`: spends the
        allowance first, then moves the shares as `transfer` would. */
    method TransferFrom(spender: Address, from: Address, to: Address, amount: nat) returns (r: Result<()>)
      requires Valid()
      modifies this
      ensures Valid()
      ensures r.Ok? <==> amount <= old(Allowance(from, spender)) && amount <= old(BalanceOf(from))
      ensures amount > old(Allowance(from, spender)) ==> r == Err(InsufficientAllowance)
      ensures amount <= old(Allowance(from, spender)) && amount > old(BalanceOf(from)) ==>
                r == Err(TransferExceedsBalance)
      ensures r.Err? ==> unchanged(this)
      ensures r.Ok? ==> allowances == old(allowances)[(from, spender) := old(Allowance(from, spender)) - amount]
      ensures r.Ok? && from != to ==>
                && BalanceOf(from) == old(BalanceOf(from)) - amount
                && BalanceOf(to) == old(BalanceOf(to)) + amount
      ensures r.Ok? ==> forall h :: h != from && h != to ==> BalanceOf(h) == old(BalanceOf(h))
      ensures totalSupply == old(totalSupply)
    {
      if amount > Allowance(from, spender) {
        return Err(InsufficientAllowance);
      }
      if amount > BalanceOf(from) {
        return Err(TransferExceedsBalance);
      }
      var remaining := Allowance(from, spender) - amount;
      r := Transfer(from, to, amount);
      allowances := allowances[(from, spender) := remaining];
    }
  }

  /** No holder owns more LP tokens than the supply. */
  lemma HolderBelowSupply(t: LpToken, holder: Address)
    requires t.Valid()
    ensures t.BalanceOf(holder) <= t.totalSupply
  {
    EntryBelowSum(t.balances, holder);
  }
}
