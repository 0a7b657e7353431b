/** The entities shared by the router, the SDK and the solver, with the integer
    widths they use on the ledger.  Arithmetic is on unbounded integers; a width
    is always a condition written out where the source checks it. */
module Protocol {

  const I128_MAX: int := 0x7fff_ffff_ffff_ffff_ffff_ffff_ffff_ffff
  const I128_MIN: int := -0x8000_0000_0000_0000_0000_0000_0000_0000
  const U64_MAX: int := 0xffff_ffff_ffff_ffff
  const U32_MAX: int := 0xffff_ffff

  /** Basis points denominator: 100 bps is 1%. */
  const BPS_DENOMINATOR: int := 10_000

  predicate FitsI128(x: int) { I128_MIN <= x <= I128_MAX }
  predicate FitsU64(x: int) { 0 <= x <= U64_MAX }
  predicate FitsU32(x: int) { 0 <= x <= U32_MAX }

  type U64 = x: int | 0 <= x <= 0xffff_ffff_ffff_ffff
  newtype Byte = b: int | 0 <= b < 256
  type Bytes = seq<Byte>
  type Bytes32 = s: Bytes | |s| == 32 witness seq(32, _ => 0)
  type Hash = Bytes32

  datatype Option<+T> = None | Some(value: T) {
    predicate IsFailure() { None? }
    function PropagateFailure<U>(): Option<U> requires None? { None }
    function Extract(): T requires Some? { value }
  }

  /** An ed25519 account, a contract, or a muxed account. */
  datatype Address = Account(key: Bytes32) | Contract(id: Bytes32) | Muxed(memo: U64, key: Bytes32)

  type NonceKey = (Address, int)

  datatype TraderIntent = TraderIntent(
    trader: Address,
    sellToken: Address,
    buyToken: Address,
    sellAmount: int,
    minBuyAmount: int,
    maxSlippageBps: int,
    deadline: int,
    nonce: int,
    solverFeeBps: int)
  {
    /** Every field fits the integer type the contract declares for it. */
    predicate Representable() {
      && FitsI128(sellAmount) && FitsI128(minBuyAmount)
      && FitsU32(maxSlippageBps) && FitsU32(solverFeeBps)
      && FitsU64(deadline) && FitsU64(nonce)
    }

    function Key(): NonceKey { (trader, nonce) }
  }

  datatype IntentStatus = Active | Filled | Cancelled | Expired

  datatype FillReceipt = FillReceipt(intentHash: Hash, solver: Address, boughtAmount: int, timestamp: int)

  datatype SlipGuardError =
    | IntentExpired
    | InsufficientOutput
    | SlippageExceeded
    | UnauthorizedTrader
    | NonceAlreadyUsed
    | IntentNotActive
    | MathOverflow
    | InvalidSlippageBps
    | InvalidAmount
    | AlreadyInitialized

  /** What a fallible computation inside the router returns. */
  datatype Result<+T> = Ok(value: T) | Err(error: SlipGuardError) {
    predicate IsFailure() { Err? }
    function PropagateFailure<U>(): Result<U> requires Err? { Err(error) }
    function Extract(): T requires Ok? { value }
  }

  /** What one contract call comes to: a value, a declared error, or a trap
      (a panic or a missing authorization), which the host undoes. */
  datatype Outcome<+T> = Done(value: T) | Failed(error: SlipGuardError) | Trapped

  lemma Regroup<T>(a: seq<T>, b: seq<T>, c: seq<T>)
    ensures a + (b + c) == a + b + c
  {
  }
}
