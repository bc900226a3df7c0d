# A constant-product token/ether exchange, its factory and a two-token pool

This project models a small automated market maker in the style of Uniswap V1:

- An **exchange** (`Exchange`, and `ExchangeV1`, which behaves identically) pools ether with one ERC20 token.
  - Liquidity providers deposit both assets and receive LP tokens, which are the exchange's own ERC20 shares.
  - Burning LP tokens pays out the same fraction of both reserves.
  - Traders swap ether for tokens (`ethToTokenSwap`, or `ethToTokenTransfer` to pay someone else), tokens for ether (`tokenToEthSwap`), or tokens for another token through a second exchange (`tokenToTokenSwap`).
  - Every swap is priced on the constant-product curve with a 1% fee on the input: selling `x` against reserves `(I, O)` yields `floor(x·99·O / (I·100 + x·99))`.
- A **factory** registers at most one exchange per token. It refuses the zero address and duplicates, and it is how `tokenToTokenSwap` finds the second exchange.
- A **two-token exchange** (`ExchangeV2`, token1 eDAI and token2 RUB in its tests) of which only `addLiquidity` is modelled. Token1 plays the role ether plays above.

All amounts are natural numbers of wei. The behaviour is pinned by the repository's Hardhat suites `test/exchange.js`, `test/exchangeV1.js`, `test/exchangeV2.js` and `test/factory.js`. The Solidity contracts are not part of this model. Every amount the suites assert is a proved postcondition of a scenario in `scenarios.dfy` or `scenarios_v2.dfy`, and the rules are chosen to produce those amounts. Many rules are not pinned by any test, such as the order of checks, the edge cases and the ERC20 parts of the LP token. For those the model makes a choice of its own, and "## Left out" lists each one.

Layout:

- `base.dfy`: addresses, the revert reasons (`Error`), `Result` and `Option`.
- `custody.dfy`: `Books`, meaning every holder's balance of ether and of each token plus the ERC20 allowances. Includes the pure transfers (`Move`, `TryTransfer`, `TryTransferFrom`) and the `Ledger` class that holds the chain's books.
- `sums.dfy`: the sum of a balance map.
- `shares.dfy`: the `LpToken` class, i.e. LP balances, allowances and total supply, with share conservation as its invariant. It covers mint, burn and the ERC20 transfers.
- `pricing.dfy`: the price curve `GetAmount` and what is proved about it.
- `liquidity.dfy`: how deposits and withdrawals are sized (`DepositTerms`, `WithdrawalTerms`) and what is proved about them.
- `dex.dfy`: the `Exchange` and `Factory` classes.
- `exchange_v2.dfy`: the `ExchangeV2` class.
- `scenarios.dfy`, `scenarios_v2.dfy`: each test replayed on fresh objects, with the test's expected values as postconditions.

An exchange's reserves are not separate fields. They are what the books say the exchange's own address holds, as `address(this).balance` and `balanceOf(address(this))` would report. An entry point computes everything first and commits only when it succeeds. A failing call therefore changes nothing, which is the revert semantics.

Three facts about the curve and the registry:

- The suites' vectors only come out with a 1% fee (99/100), not Uniswap V1's 0.3%. An example is `1.978041738678708079` tokens for 1 ether into (1000 ether, 2000 tokens), test/exchange.js:239-240.
- The factory maps each token to one exchange. It is not keyed by a pair of tokens.
- A swap never empties a pool whose two reserves are both positive (`Pricing.OutputBelowReserve`). This holds for every input. A pool with one reserve empty is different: any positive trade into it takes the whole other reserve (`Pricing.EmptyInputReserveDrains`, `Scenarios.DrainsOneSidedPool`).

## Model

| member | source | states |
|---|---|---|
| Pricing.GetAmount | test/exchange.js:230-268 | the quote for selling `inputAmount` against `(inputReserve, outputReserve)` with the 1% input fee; never more than the output reserve; selling nothing buys nothing |
| Pricing.OutputBelowFeeFreeCurve | test/exchange.js:230-248 | the quote never exceeds the fee-free constant-product output: `out·(I+in) <= in·O` |
| Pricing.SwapKeepsConstantProduct | test/exchange.js:187-213 | after any swap the product of the reserves is at least what it was, and strictly more for a non-zero swap on a funded pool: fees stay in the pool |
| Pricing.OutputBelowReserve | test/exchange.js:245-246 | a funded pool is never drained: the quote is strictly below the output reserve whatever the input |
| Pricing.EmptyInputReserveDrains | test/exchange.js:230-248 | the edge the bound above excludes: with an empty input reserve any positive input is quoted the whole output reserve |
| Pricing.MonotoneInInput | test/exchange.js:239-246 | selling more never buys less (1 < 100 < 1000 ether buy increasing amounts) |
| Pricing.MonotoneInReserves | test/exchange.js:341-351 | the same input buys no more from a pool with a larger input reserve and a smaller output reserve |
| Pricing.SwapWorsensNextQuote | test/exchange.js:341-425 | after a swap, the same swap in the same direction quotes no more than before (ether purchases at 341-351, token sales at 415-425) |
| Liquidity.DepositTerms | test/exchange.js:76-133 | an empty pool takes both amounts and mints the first asset's amount; a funded pool takes at most what is offered of the second asset; a funded pool with no first-asset reserve reverts |
| Liquidity.DepositRefusal | test/exchange.js:129-133 | a deposit into a funded pool reverts "insufficient token amount" exactly when the offer is short of `floor(amountIn·reservePaired/reserveIn)`, and succeeds exactly otherwise |
| Liquidity.DepositKeepsRate | test/exchange.js:115-120 | a deposit keeps the reserve ratio within one unit of rounding, in the pool's favour |
| Liquidity.DepositMintsProportionally | test/exchange.js:122-127 | minted LP tokens are `floor(supply·amountIn/reserveIn)` and never give a claim above what was deposited |
| Liquidity.WithdrawalTerms | test/exchange.js:145-185 | a withdrawal pays `floor(reserve·amount/supply)` of each reserve, and reverts exactly when the supply is 0 |
| Liquidity.WithdrawalCovered | test/exchange.js:166-185 | the payouts never exceed the reserves, and burning the whole supply pays out both reserves exactly |
| Liquidity.DepositThenWithdraw | test/exchange.js:137-185 | depositing into a funded pool and at once burning the minted LP tokens returns no more of either asset than was deposited |
| Custody.Move | test/exchange.js:280-304 | a transfer leaves allowances alone and changes no balance but the sender's and receiver's in that asset |
| Custody.MoveBalances | test/exchange.js:294-303 | the sender loses exactly the amount, the receiver gains it, every other balance is unchanged |
| Custody.MoveConserves | test/exchange.js:280-304 | a transfer creates and destroys nothing: the sum of all balances is kept |
| Custody.TryTransfer | test/exchange.js:381 | ERC20 `transfer` and sending ether succeed exactly when the sender holds enough, and then move the amount |
| Custody.Approved | test/exchange.js:77 | `approve` sets one allowance and changes no balance and no other allowance |
| Custody.TryTransferFrom | test/exchange.js:77-84 | `transferFrom` checks the allowance first ("insufficient allowance"), then the balance; on success it spends exactly that allowance and moves exactly that balance |
| Custody.Ledger.constructor | test/exchange.js:42-45 | the chain starts with the given books |
| Custody.Ledger.Approve | test/exchange.js:382 | the books become those of `approve` |
| Custody.Ledger.Transfer | test/exchange.js:381 | on success the books are those of the transfer; on failure unchanged; only the two parties' balances of that asset change |
| Shares.LpToken.constructor | test/exchange.js:65 | a new LP token has no holders and supply 0 |
| Shares.LpToken.Mint | test/exchange.js:86-94 | minting credits the holder and the supply alike, keeping share conservation |
| Shares.LpToken.Burn | test/exchange.js:215-227 | burning debits holder and supply alike, and reverts "burn amount exceeds balance" with nothing changed when the holder has too little |
| Shares.LpToken.Transfer | test/exchange.js:63-65 | ERC20 `transfer` of LP tokens: reverts "transfer amount exceeds balance" with nothing changed when the sender holds too little, otherwise moves exactly the amount; the supply, the allowances and share conservation are kept |
| Shares.LpToken.Approve | test/exchange.js:63-65 | ERC20 `approve` of LP tokens sets exactly that allowance and moves no share |
| Shares.LpToken.TransferFrom | test/exchange.js:63-65 | ERC20 `transferFrom` of LP tokens: "insufficient allowance" first, then the balance; on success spends exactly that allowance, moves exactly the amount between the two holders, leaves every other holder and the supply alone |
| Shares.HolderBelowSupply | test/exchange.js:223-227 | no holder owns more LP tokens than the supply |
| Dex.Exchange.constructor | test/exchange.js:58-68 | a new exchange has supply 0 and records its deployer as factory |
| Dex.Exchange.GetTokenAmount | test/exchange.js:230-248 | the token quote on the current reserves; reverts exactly when the pool has no ether and nothing is sold; below the token reserve on a funded pool |
| Dex.Exchange.GetEthAmount | test/exchange.js:250-268 | the ether quote on the current reserves, with the same revert and bound |
| Dex.Exchange.AddLiquidity | test/exchange.js:70-135 | succeeds exactly when the ether is there, the terms are met and the allowance and balance cover the tokens; pulls the tokens `DepositTerms` sets, mints its LP tokens to the sender, grows each reserve by what came in, reverts with nothing changed, touches no one else's balances; test/exchangeV1.js:70-143 asserts the same of `ExchangeV1` |
| Dex.Exchange.RemoveLiquidity | test/exchange.js:137-228 | succeeds exactly when there is a supply and the sender holds `amount`; burns exactly `amount`; pays the `WithdrawalTerms` payout out of the reserves; otherwise reverts with nothing changed; test/exchangeV1.js:145-238 asserts the same of `ExchangeV1` |
| Dex.Exchange.EthToTokenTransfer | test/exchange.js:270-305 | succeeds exactly when the ether is there, the quote is defined and meets `minTokens` ("insufficient output amount" otherwise); the ether reserve grows by the whole input, the recipient gains exactly the quote, which leaves the token reserve |
| Dex.Exchange.EthToTokenSwap | test/exchange.js:307-375 | `ethToTokenTransfer` paying the sender: the same conditions, the same revert reason for each failing one, and the same exact reserve changes, so a zero swap changes nothing; test/exchangeV1.js:363-384 asserts the same of `ExchangeV1` |
| Dex.Exchange.TokenToEthSwap | test/exchange.js:377-451 | succeeds exactly when the quote is defined, meets `minEth` and the allowance and balance cover the sale, each failure with its reason (a failing `transferFrom` with that call's own); the token reserve grows by the sale, the sender gains exactly the quoted ether; test/exchangeV1.js:437-462 asserts the same of `ExchangeV1` |
| Dex.Exchange.TokenToTokenSwap | test/exchange.js:453-506 | sells tokens here for ether at this pool's quote, sends that ether straight to the exchange the factory registers for the target token, and pays the sender that exchange's quote; succeeds exactly when both hops would; each failure reverts both with its own reason, including an exchange whose factory address holds no factory (`NoFactory`); gives both pools' new reserves; test/exchangeV1.js:465-519 asserts the same of `ExchangeV1` |
| Dex.Factory.constructor | test/factory.js:43-49 | a new factory has no exchanges |
| Dex.Factory.CreateExchange | test/factory.js:51-88 | reverts "invalid token address" for the zero address and "exchange already exists" for a registered token, otherwise registers a new empty exchange whose factory is this one; at most one exchange per token, each at its own address |
| Dex.Factory.GetExchange | test/factory.js:90-103 | finds an exchange exactly for registered tokens, and it is that token's |
| DexV2.ExchangeV2.constructor | test/exchangeV2.js:66-76 | a new two-token exchange has supply 0 and records its deployer as factory |
| DexV2.ExchangeV2.AddLiquidity | test/exchangeV2.js:78-143 | token1 sizes the deposit as ether does above; succeeds exactly when both `transferFrom`s would; pulls all of `amount1` and the `DepositTerms` share of `amount2`; mints to the sender; reverts with nothing changed |
| Scenarios.DeployAll | test/exchange.js:36-56 | the fixture: an empty exchange for the Ruble token deployed by the owner |
| Scenarios.IsDeployed | test/exchange.js:58-68 | supply 0, factory = deployer |
| Scenarios.AddsLiquidity | test/exchange.js:76-94 | (100 ether, 200 tokens) into an empty pool: reserves (100, 200), owner holds 100 LP = supply |
| Scenarios.AllowsZeroLiquidity | test/exchange.js:96-102 | an empty deposit succeeds, reserves stay 0 |
| Scenarios.Seeded | test/exchange.js:105-113 | the fixture: owner approves and seeds the pool |
| Scenarios.PreservesExchangeRate | test/exchange.js:115-127 | 50 ether offering 200 tokens into (100, 200) take 100 tokens: reserves (150, 300), supply 150 |
| Scenarios.RefusesTooFewTokens | test/exchange.js:129-133 | 50 tokens with 50 ether revert "insufficient token amount" |
| Scenarios.RemovesSomeLiquidity | test/exchange.js:145-221 | burning 25 of 100 LP pays (25 ether, 50 tokens), leaves reserves (75, 150), the owner 75 LP and the supply 75 (lines 145-164 and 215-221) |
| Scenarios.RemovesAllLiquidity | test/exchange.js:166-185 | burning all pays (100, 200) and empties the pool |
| Scenarios.PaysForProvidedLiquidity | test/exchange.js:187-213 | after a 10-ether purchase of 18.01637852593266606 tokens, burning all pays 110 ether and 181.98362147406733394 tokens |
| Scenarios.RefusesOverdrawnRemoval | test/exchange.js:223-227 | burning 100.1 of 100 reverts "burn amount exceeds balance" |
| Scenarios.QuotesTokens | test/exchange.js:230-248 | the three token quotes to the wei |
| Scenarios.QuotesEther | test/exchange.js:250-268 | the three ether quotes to the wei |
| Scenarios.TransfersTokensToRecipient | test/exchange.js:280-304 | 1 ether buys the recipient 1.978041738678708079 tokens; pool holds 1001 ether and 1998.021958261321291921 tokens |
| Scenarios.SwapsEtherForTokens | test/exchange.js:317-339 | the same numbers through `ethToTokenSwap` |
| Scenarios.PurchaseMovesTokenRate | test/exchange.js:341-351 | the 10-ether quote moves from 19.605901574413308248 to 19.223356774598792281 |
| Scenarios.PurchaseRefusesLowOutput | test/exchange.js:353-359 | a 2-token minimum for 1 ether reverts "insufficient output amount" |
| Scenarios.AllowsZeroPurchase | test/exchange.js:361-374 | a zero purchase returns 0 and leaves (1000, 2000) |
| Scenarios.SeededWithSeller | test/exchange.js:377-388 | the fixture: the user holds and approves 22 tokens |
| Scenarios.SwapsTokensForEther | test/exchange.js:390-413 | 2 tokens pay the user 0.989020869339354039 ether; pool holds 2002 tokens |
| Scenarios.SaleMovesEtherRate | test/exchange.js:415-425 | the 20-token quote moves from 9.802950787206654124 to 9.61167838729939614 |
| Scenarios.SaleRefusesLowOutput | test/exchange.js:427-431 | a 1-ether minimum for 2 tokens reverts "insufficient output amount" |
| Scenarios.AllowsZeroSale | test/exchange.js:433-450 | a zero sale returns 0 and leaves balances and reserves |
| Scenarios.DrainsOneSidedPool | test/exchange.js:96-102 | a deposit of tokens without ether mints no LP tokens, and a purchase with 1 wei then takes all 100 tokens |
| Scenarios.TwoExchanges | test/exchange.js:455-471 | the factory registers an exchange for each of two tokens |
| Scenarios.OnePoolSeeded | test/exchange.js:473-476 | the owner seeds the first exchange |
| Scenarios.TwoPools | test/exchange.js:478-483 | the user seeds the second; the owner holds no TokenB |
| Scenarios.FirstTokenSwap | test/exchange.js:485-494 | 10 TokenA buy the owner 4.852698493489877956 TokenB |
| Scenarios.SwapsTokenForToken | test/exchange.js:496-505 | then 10 TokenB buy the user 19.602080509528011079 TokenA |
| Scenarios.NewFactory | test/factory.js:23-41 | the fixture: an empty factory |
| Scenarios.DeploysExchange | test/factory.js:51-69 | the created exchange is the registered one and its factory is the factory |
| Scenarios.RefusesZeroAddress | test/factory.js:71-77 | the zero address reverts "invalid token address" and registers nothing |
| Scenarios.RefusesDuplicate | test/factory.js:79-87 | a second exchange for the token reverts "exchange already exists", the first stays |
| Scenarios.FindsExchange | test/factory.js:90-103 | `getExchange` returns the created exchange |
| ScenariosV2.DeployAll | test/exchangeV2.js:37-64 | the fixture: the owner holds both tokens and deploys the exchange |
| ScenariosV2.IsDeployed | test/exchangeV2.js:66-76 | supply 0, factory = deployer |
| ScenariosV2.AddsLiquidity | test/exchangeV2.js:84-91 | (200, 200) into an empty pool: reserves (200, 200) |
| ScenariosV2.MintsShares | test/exchangeV2.js:93-102 | (100, 200) into an empty pool: owner holds 100 LP = supply |
| ScenariosV2.AllowsZeroLiquidity | test/exchangeV2.js:104-111 | an empty deposit succeeds, reserves stay 0 |
| ScenariosV2.Seeded | test/exchangeV2.js:114-121 | the fixture: (100, 200) deposited |
| ScenariosV2.PreservesExchangeRate | test/exchangeV2.js:123-135 | (50, 200) into (100, 200) takes 100 token2: reserves (150, 300), supply 150 |
| ScenariosV2.RefusesTooFewTokens | test/exchangeV2.js:137-141 | (50, 50) reverts "insufficient token amount" |

## Left out

- The Solidity contracts are not part of this model. Where the test vectors force nothing, the model makes these choices:
  - a pool is empty when its LP supply is 0;
  - a zero divisor reverts (`DivisionByZero`, Solidity's checked-arithmetic panic);
  - `tokenToTokenSwap` reverts with `InvalidExchangeAddress` when no exchange is registered for the target token, or when the registered one is the calling exchange itself;
  - `tokenToTokenSwap` on an exchange deployed directly, whose factory address holds no factory, reverts (`NoFactory`);
  - when several checks fail, the revert reason is that of the first check in this order:
    - `addLiquidity`: the ether sent, then the deposit terms, then the token `transferFrom`;
    - `removeLiquidity`: the supply, then the burn;
    - `ethToTokenSwap`/`ethToTokenTransfer`: the ether sent, then the quote, then `minTokens`;
    - `tokenToEthSwap`: the quote, then `minEth`, then the `transferFrom`;
    - `tokenToTokenSwap`: the factory, then the registry, then the first quote, then the `transferFrom`, then the second hop;
  - `removeLiquidity(0)` on a funded pool succeeds, burns nothing and pays nothing;
  - a first deposit with no ether but with tokens mints 0 LP tokens and leaves the supply at 0: the tokens stay in the pool with no claim on them, the next deposit is treated as the first, and any trade that buys them drains the pool (`Scenarios.DrainsOneSidedPool`);
  - the LP token's `transfer`, `approve` and `transferFrom` are the plain ERC20 ones. The zero-address checks of an ERC20 implementation are not modelled, and neither are its `increaseAllowance`/`decreaseAllowance`.
- Gas: the suites' ether deltas "minus gas fees" are modelled as the exact payouts.
- test/swap.js: its only assertion is `expect(true)`, and it depends on an external price-feed mock.
- The LP token's name and symbol constants.
- Swaps and removal on `ExchangeV2`, and the factory's `createExchangeV2`: no test exercises them. `createExchangeV1` is `Dex.Factory.CreateExchange`, since the V1 suite asserts identical behaviour.
- Deployment plumbing:
  - the address a new exchange gets (CREATE address derivation) is the parameter `at` of `Dex.Factory.CreateExchange`. It must not be the zero address, the factory's address or another registered exchange's address. That it differs from every user account and token is not modelled;
  - the factory's own `tokenToExchange` getter is the field of the same name.
- uint256 overflow: amounts are unbounded naturals. Every test amount is far below 2^256.
- Reentrancy and concurrency: calls are sequential and atomic.
- "Infinite allowance" conventions of some ERC20s: every `transferFrom` spends its allowance.
- Dex.Exchange.AddLiquidity, RemoveLiquidity, EthToTokenTransfer, EthToTokenSwap, TokenToEthSwap, TokenToTokenSwap and DexV2.ExchangeV2.AddLiquidity: these require that the caller is not the exchange itself. A contract calling its own entry points is not modelled.
- Dex.Exchange.TokenToTokenSwap also requires that no registered exchange is the caller.
- Dex.Exchange.EthToTokenTransfer: when the recipient is the exchange itself, only the books equation is stated, not the per-holder changes.
- Dex.Exchange.TokenToTokenSwap: the sender's gain is stated only when the target token differs from this exchange's token; otherwise only the books equation is.
