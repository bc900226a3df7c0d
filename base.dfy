/** Shared vocabulary of the model: accounts, amounts in wei, and the
    revert reasons that the exchange contracts and their tokens raise. */
module Base {

  /** An account or contract address; 0 is the zero address. */
  type Address = nat

  const ZeroAddress: Address := 0

  /** One ether in wei (`parseEther(x)` is x * 10^18 wei). */
  const WeiPerEther: nat := 1_000_000_000_000_000_000

  /** The reasons a call reverts. */
  datatype Error =
    | InsufficientTokenAmount   // "insufficient token amount"
    | InsufficientOutputAmount  // "insufficient output amount"
    | BurnExceedsBalance        // "ERC20: burn amount exceeds balance"
    | InsufficientAllowance     // "ERC20: insufficient allowance"
    | TransferExceedsBalance    // "ERC20: transfer amount exceeds balance"
    | InsufficientEther         // the caller cannot fund the ether sent with the call
    | DivisionByZero            // checked integer division by zero
    | InvalidTokenAddress       // "invalid token address"
    | ExchangeAlreadyExists     // "exchange already exists"
    | InvalidExchangeAddress    // no other exchange is registered for the token
    | NoFactory                 // the exchange's factory address holds no factory to call

  datatype Option<T> = None | Some(value: T)

  /** A call either succeeds with a value or reverts with a reason. */
  datatype Result<T> = Ok(value: T) | Err(error: Error)

  /** A mapping read the way Solidity reads one: missing keys hold 0. */
  function Get<K>(m: map<K, nat>, k: K): nat {
    if k in m then m[k] else 0
  }
}
