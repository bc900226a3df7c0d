/** Custody of ether and of every ERC20 token on the chain: who holds how
    much, and who may spend whose tokens. The pools' reserves are their own
    entries in these books. */
module Custody {
  import opened Base
  import opened Sums

  datatype Asset = Ether | Token(address: Address)

  /** Balances keyed by (asset, holder); allowances keyed by (token, owner, spender). */
  datatype Books = Books(balances: map<(Asset, Address), nat>,
                         allowances: map<(Address, Address, Address), nat>)

  function Balance(b: Books, asset: Asset, holder: Address): nat {
    Get(b.balances, (asset, holder))
  }

  function Allowance(b: Books, token: Address, owner: Address, spender: Address): nat {
    Get(b.allowances, (token, owner, spender))
  }

  /** Between `b` and `b2` only the balances that `holders` hold in `assets`
      may differ. */
  ghost predicate Confined(b: Books, b2: Books, assets: set<Asset>, holders: set<Address>) {
    forall a: Asset, h: Address :: a !in assets || h !in holders ==> Balance(b2, a, h) == Balance(b, a, h)
  }

  /** Moves `amount` of `asset` from `from` to `to`; allowances are untouched
      and no other balance changes. */
  function Move(b: Books, asset: Asset, from: Address, to: Address, amount: nat): (r: Books)
    requires amount <= Balance(b, asset, from)
    ensures r.allowances == b.allowances
    ensures Confined(b, r, {asset}, {from, to})
  {
    var debited := b.balances[(asset, from) := Balance(b, asset, from) - amount];
    b.(balances := debited[(asset, to) := Get(debited, (asset, to)) + amount])
  }

  /** What a move does to each holder: the sender loses the amount, the
      receiver gains it, every other entry stays as it was. */
  lemma MoveBalances(b: Books, asset: Asset, from: Address, to: Address, amount: nat, a: Asset, h: Address)
    requires amount <= Balance(b, asset, from)
    ensures from != to && (a, h) == (asset, from) ==>
              Balance(Move(b, asset, from, to, amount), a, h) == Balance(b, a, h) - amount
    ensures from != to && (a, h) == (asset, to) ==>
              Balance(Move(b, asset, from, to, amount), a, h) == Balance(b, a, h) + amount
    ensures ((a, h) != (asset, from) && (a, h) != (asset, to)) || from == to ==>
              Balance(Move(b, asset, from, to, amount), a, h) == Balance(b, a, h)
  {
  }

  /** A move creates and destroys nothing: the sum of all balances is kept. */
  lemma {:induction false} MoveConserves(b: Books, asset: Asset, from: Address, to: Address, amount: nat)
    requires amount <= Balance(b, asset, from)
    ensures Sum(Move(b, asset, from, to, amount).balances) == Sum(b.balances)
  {
    var debited := b.balances[(asset, from) := Balance(b, asset, from) - amount];
    SumUpdate(b.balances, (asset, from), Balance(b, asset, from) - amount);
    SumUpdate(debited, (asset, to), Get(debited, (asset, to)) + amount);
    EntryBelowSum(debited, (asset, to));
  }

  /** ERC20 `transfer`, and sending ether: fails when the sender holds too little. */
  function TryTransfer(b: Books, asset: Asset, from: Address, to: Address, amount: nat): (r: Result<Books>)
    ensures r.Ok? <==> amount <= Balance(b, asset, from)
    ensures r.Err? ==> r.error == if asset.Ether? then InsufficientEther else TransferExceedsBalance
    ensures r.Ok? ==> r.value == Move(b, asset, from, to, amount)
  {
    if amount <= Balance(b, asset, from) then Ok(Move(b, asset, from, to, amount))
    else Err(if asset.Ether? then InsufficientEther else TransferExceedsBalance)
  }

  /** ERC20 `approve`: sets the allowance of `spender` over `owner`'s tokens. */
  function Approved(b: Books, token: Address, owner: Address, spender: Address, amount: nat): (r: Books)
    ensures r.balances == b.balances
    ensures Allowance(r, token, owner, spender) == amount
    ensures forall t: Address, o: Address, s: Address :: (t, o, s) != (token, owner, spender) ==>
              Allowance(r, t, o, s) == Allowance(b, t, o, s)
  {
    b.(allowances := b.allowances[(token, owner, spender) := amount])
  }

  /** The allowance check of ERC20 `transferFrom`, made before any balance moves. */
  predicate CanTransferFrom(b: Books, token: Address, spender: Address, from: Address, amount: nat) {
    amount <= Allowance(b, token, from, spender) && amount <= Balance(b, Token(token), from)
  }

  /** ERC20 `transferFrom`: `spender` moves `amount` of `from`'s tokens to `to`,
      spending that much of its allowance. The allowance is checked first. */
  function TryTransferFrom(b: Books, token: Address, spender: Address, from: Address, to: Address, amount: nat)
    : (r: Result<Books>)
    ensures r.Ok? <==> CanTransferFrom(b, token, spender, from, amount)
    ensures amount > Allowance(b, token, from, spender) ==> r == Err(InsufficientAllowance)
    ensures amount <= Allowance(b, token, from, spender) && amount > Balance(b, Token(token), from) ==>
              r == Err(TransferExceedsBalance)
    ensures r.Ok? ==> Allowance(r.value, token, from, spender) == Allowance(b, token, from, spender) - amount
    ensures r.Ok? ==> r.value.balances == Move(b, Token(token), from, to, amount).balances
    ensures r.Ok? ==> Confined(b, r.value, {Token(token)}, {from, to})
    ensures r.Ok? ==> forall t: Address, o: Address, s: Address :: (t, o, s) != (token, from, spender) ==>
                        Allowance(r.value, t, o, s) == Allowance(b, t, o, s)
  {
    if amount > Allowance(b, token, from, spender) then Err(InsufficientAllowance)
    else if amount > Balance(b, Token(token), from) then Err(TransferExceedsBalance)
    else
      var spent := Approved(b, token, from, spender, Allowance(b, token, from, spender) - amount);
      Ok(Move(spent, Token(token), from, to, amount))
  }

  /** The chain's books, changed in place by every call that moves funds. */
  class Ledger {
    var books: Books

    constructor (initial: Books)
      ensures books == initial
    {
      books := initial;
    }

    function BalanceOf(asset: Asset, holder: Address): nat
      reads this
    {
      Balance(books, asset, holder)
    }

    /** `owner` calls `approve(spender, amount)` on `token`. */
    method Approve(token: Address, owner: Address, spender: Address, amount: nat)
      modifies this
      ensures books == Approved(old(books), token, owner, spender, amount)
    {
      books := Approved(books, token, owner, spender, amount);
    }

    /** `from` calls `transfer(to, amount)` on the token, or sends ether;
        on failure nothing changes. */
    method Transfer(asset: Asset, from: Address, to: Address, amount: nat) returns (r: Result<()>)
      modifies this
      ensures r.Ok? <==> amount <= old(BalanceOf(asset, from))
      ensures books == if r.Ok? then Move(old(books), asset, from, to, amount) else old(books)
      ensures Confined(old(books), books, {asset}, {from, to})
    {
      var t := TryTransfer(books, asset, from, to, amount);
      if t.Ok? {
        books := t.value;
        r := Ok(());
      } else {
        r := Err(t.error);
      }
    }
  }
}
