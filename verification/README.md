# SlipGuard: a verified model

SlipGuard settles signed, off-chain orders on Stellar. A trader signs an intent: sell so much
of one token for at least so much of another, before a deadline, once. Any solver may fill it
through the router contract, which checks the order, records it as filled, moves the tokens
and writes a receipt. A solver bot polls a feed of intents, evaluates each and submits the
profitable ones.

This project models the router, the token contract it settles on, the canonical encoding that
identifies an order, its JSON form, and the bot's evaluator, watcher and main loop, and proves
what they promise: over every input, every run, every nesting of calls.

`dafny verify dfyconfig.toml` checks everything.

## How the model is laid out

| file | models |
|---|---|
| `Protocol.dfy` | intents, statuses, receipts, errors, integer widths |
| `FillMath.dfy` | the router's checked `i128` fee and slippage arithmetic |
| `Evaluator.dfy` | the bot's fill check and profit decision |
| `TokenLedger.dfy` | one token as a value: balances, allowances, every call |
| `MockToken.dfy` | the token contract as a class over its entries, proved against `TokenLedger` |
| `AllowanceHistory.dfy` | what a spender may move, from the history of a token |
| `RouterSpec.dfy` | the router's calls as functions of its storage and the ledgers |
| `Router.dfy` | storage, router and host as classes, proved against `RouterSpec` and `Transactions` |
| `Transactions.dfy` | transactions and runs of them |
| `Journal.dfy` | balances, supplies and promises over whole runs |
| `Confluence.dfy` | what the order of settlement can and cannot change |
| `Reentrancy.dfy` | the router under tokens that call back, with rollback |
| `HonestLedger.dfy` | the ledgers of honest tokens inside that machine |
| `HonestRuns.dfy` | ordinary runs are runs of that machine |
| `Xdr.dfy` | the canonical encoding of an intent, and a decoder |
| `Replay.dfy` | the replay guards under collision-free hashing |
| `Json.dfy` | an intent as JSON text |
| `FieldNames.dfy` | the names of an intent's fields in JSON and in the hashed map |
| `Watcher.dfy` | feed parsing and the `seen` set |
| `Solver.dfy` | the main loop |

Three decisions run through all of it.

*Two semantics of a fill.* With honest tokens a fill is a function from a world (router storage
and token ledgers) to a world, and a trap undoes the call. With hostile tokens it is a frame of
a small-step machine: while a transfer is pending the token may call the router again or run any
other contract, any frame may trap and be rolled back while its caller goes on, and nothing is
assumed of a hostile token's ledger. `HonestLedger` runs that machine with the ledgers of the honest
tokens beside the router's storage, and `HonestRuns` embeds the first semantics in the second.

*The hash is a parameter.* The router's rules hold for any digest function. Only `Replay`
assumes that the encodings it sees do not collide, and `Xdr` proves that different intents have
different encodings.

*The model follows the code.* In one place the documentation says less:

- `docs/02-protocol-mechanics.md:89-91` says that flooring basis points favours the solver by at
  most one unit. The shortfall is floored in basis points of the minimum, so what it hides is any
  amount below a ten-thousandth of the minimum: `FillMath.StrictToleranceFails` is a fill 50 units
  short, `FillMath.ShortByLessThanABasisPoint` the exact bound, and
  `FillMath.StrictToleranceExactly` the orders on which nothing is ever hidden.

Elsewhere the code does what a reader may not expect:

- The watcher marks a candidate seen before the loop handles it, so a candidate that an exception
  or a signal makes the loop skip is never handled again (`Solver.PassedOverIsLost`,
  `Solver.ThrowLosesTheRest`, `Solver.FeedLosesAProfit`).
- The bot always offers the minimum, and so misses a profit when the fee exceeds the tolerance
  (`Evaluator.ProfitMissed`, with the exact condition in `Evaluator.OfferingTheMinimum`).
- A token approval may name the current ledger as its expiration and can then never be spent
  (`AllowanceHistory.ApprovalForThisLedgerIsDead`).
- The SDK refuses an order that sells a token for itself; the router accepts it, and every
  statement about settlement here covers it.

## Model

| member | source | states |
|---|---|---|
| `Reentrancy.OneClaimPerNonce` | contracts/router/src/lib.rs:187-247 | in every state reachable with tokens that re-enter, to any depth and with rollbacks, each (trader, nonce) and each hash has at most one standing fill, done or in flight, or cancellation, and the used nonces are exactly the claimed ones |
| `Reentrancy.FilledWithoutReceiptIsInFlight` | contracts/router/src/lib.rs:216-247 | in every reachable state the hashes that read filled without a receipt are exactly those of the fills in flight, all different; at rest filled means a receipt exists |
| `Reentrancy.NoSecondClaim` | contracts/router/src/lib.rs:149-151 | while a claim on a (trader, nonce) stands, no call, nested or not, fills or cancels under it again |
| `Reentrancy.ReceiptsAreTrue` | contracts/router/src/lib.rs:241-247 | every receipt, written from the call's own locals, is filed under its own hash and attests a logged claim with exactly its solver, amount and time: authorized by both its parties, who are two, in time, in full and within the strict proceeds bound; only filled and cancelled are ever stored |
| `Reentrancy.CommittedStays` | contracts/router/src/lib.rs:216-247 | between transactions claims are final: no later call and no rollback changes a status, a receipt or a used nonce already there |
| `Reentrancy.ClaimsWhatIsCalled` | contracts/router/src/lib.rs:152-218 | a call claims exactly when it is admitted, and what it claims is its own intent under its own hash, with its solver, amount and authorizers and the ledger's clock at the call |
| `Reentrancy.FinishWritesTheReceipt` | contracts/router/src/lib.rs:241-247 | a finishing fill stores, under its intent's hash and nowhere else, the receipt of its own call |
| `Reentrancy.TrapLeavesNoTrace` | contracts/router/src/lib.rs:149-151 | a call that opens a frame and traps leaves the machine as it was, and can always trap |
| `Reentrancy.NestsToAnyDepth` | contracts/router/src/lib.rs:149-151 | nesting is real: as many fills as there are nonces can be in flight at once, each inside a transfer of the one before |
| `Reentrancy.NextKeeps` | contracts/router/src/lib.rs:152-260 | every step of the machine (calls, foreign calls, returns, receipts, traps with rollback) keeps the invariant that the store is the one the log of standing claims tells, now and after rolling back any frame |
| `Reentrancy.ClaimKeeps` | contracts/router/src/lib.rs:216-218 | a claim that passes the replay guards can be added to any consistent log |
| `Reentrancy.PopKeeps` | contracts/router/src/lib.rs:149-151 | taking a frame off, by return or rollback, leaves every frame below restorable |
| `HonestLedger.LedgersUnderReentry` | contracts/router/src/lib.rs:220-239 | in every state reachable among hostile tokens, with any nesting and rollback, each holding of every honest token plus what the fills in flight still have to move is its opening value plus the fills and token calls that stand; supplies are conserved, holdings stay in range, and the claims that stand are the router's log |
| `HonestLedger.LedgersAtRest` | contracts/router/src/lib.rs:220-239 | at rest each standing fill has moved both its honest tokens in full, and with the standing calls that is all that moved |
| `HonestLedger.DebitedOncePerNonce` | contracts/router/src/lib.rs:149-151 | of all that moved a trader's holding of an honest token, the part taken under one nonce is what the one order holding that nonce sells, and nothing while the nonce is unused |
| `HonestLedger.FloorUnderReentry` | contracts/router/src/lib.rs:194-214 | at rest, whatever re-entered, a trader's holding has risen beyond what other movements made of it by at least the strict floors of the trader's filled orders |
| `HonestLedger.NothingLeavesUnderReentry` | contracts/router/src/lib.rs:10-14 | in every state, however hostile tokens nest their calls, an address other than the router that neither authorized what stands nor had approved any who did has no less of any honest token than at the start |
| `HonestLedger.PossibleExactly` | contracts/router/src/lib.rs:220-239 | the ledgers hold up no step of the machine but a transfer that an honest token refuses |
| `HonestLedger.EventKeepsBooks` | contracts/router/src/lib.rs:216-247 | every step, transfer, direct call, return and rollback keeps the books of all honest tokens, now and after rolling back any frame |
| `HonestLedger.LegsAreTheFill` | contracts/router/src/lib.rs:220-239 | the three or four transfers of a fill add up to its delta, with nothing left to the router |
| `HonestRuns.TransactionIsMachineRun` | contracts/router/src/lib.rs:216-247 | each transaction on honest tokens leaves the store that some run of the machine leaves |
| `HonestRuns.HonestStoresAreReachable` | contracts/router/src/lib.rs:152-260 | every run of transactions ends in a store that the machine reaches at rest |
| `HonestRuns.FilledIffReceipt` | contracts/router/src/lib.rs:216-247 | after any run on honest tokens an intent is filled iff it has a receipt, filed under its own hash, and nothing but filled or cancelled is stored |
| `Replay.GuardsAskWhoHoldsTheNonce` | contracts/router/src/lib.rs:185-192 | in every reachable state, with no collision among the encodings seen, the replay guards answer: free if nobody holds the (trader, nonce), not active if this very order does, nonce used if another does |
| `Replay.ActiveUnlessClaimed` | contracts/router/src/storage.rs:43-50 | an order reads other than active exactly when it is itself among the claims |
| `Replay.HolderIsFinal` | contracts/router/src/storage.rs:82-97 | the map from (trader, nonce) to the order that consumed it is write-once |
| `RouterContract.SlipGuardRouter.ExecuteIntent` | contracts/router/src/lib.rs:152-260 | does what `ExecuteIn` says: on success the whole new storage and ledgers and the receipt; on every declared error nothing written at all, with no rollback needed |
| `RouterContract.SlipGuardRouter.AdmitFill` | contracts/router/src/lib.rs:158-214 | the guard chain in its order, against `Admit` |
| `RouterContract.SlipGuardRouter.SplitFill` | contracts/router/src/lib.rs:194-214 | the checked arithmetic step by step, against `Quote` |
| `RouterContract.SlipGuardRouter.CompleteFill` | contracts/router/src/lib.rs:216-247 | effects, then transfers, then receipt: storage and all ledgers afterwards, as `FinishFill`, whose writes `RouterSpec.ExecuteWrites` names |
| `RouterContract.SlipGuardRouter.SettleFill` | contracts/router/src/lib.rs:220-239 | the three or four transfers over the token objects leave exactly the ledgers of `Settle`, also when both tokens are one object |
| `RouterContract.SlipGuardRouter.CancelIntent` | contracts/router/src/lib.rs:118-139 | cancelling stores the cancellation and uses the nonce, or changes nothing, as `CancelIn`, whose answers `RouterSpec.CancelAnswers` fixes |
| `RouterContract.SlipGuardRouter.Initialize` | contracts/router/src/lib.rs:94-102 | the admin is set once; a second call fails and changes nothing |
| `RouterContract.Host.SubmitExecute` | contracts/router/src/lib.rs:152-260 | with the host's rollback a submitted fill takes the world to `Post`, and the returned receipt is the stored one |
| `RouterContract.Host.SubmitAll` | contracts/router/src/lib.rs:88-260 | the contracts driven transaction by transaction end in the world of `Run`, so every statement about runs is about the contracts |
| `RouterSpec.AdmittedExactly` | contracts/router/src/lib.rs:158-214 | a fill is admitted iff both parties authorize and differ, the order is sound, live, unclaimed, delivered in full, the fee product fits i128 and the proceeds meet the rounding-free bound; and then the trader's share is the fill less the floored fee |
| `RouterSpec.AdmitAnswers` | contracts/router/src/lib.rs:158-214 | the whole answer of the guard chain on the order's own fields: which error, trap or admission, in the order of precedence, and the split |
| `RouterSpec.ExecuteWrites` | contracts/router/src/lib.rs:216-247 | a successful fill stores and returns the receipt with the intent's hash, the caller's solver, the delivered amount and the ledger's clock, stores filled and the nonce, and nothing else |
| `RouterSpec.CancelAnswers` | contracts/router/src/lib.rs:118-139 | exactly when a cancellation goes through, is not active, has its nonce used or traps, and what it stores |
| `RouterSpec.InitAnswers` | contracts/router/src/lib.rs:94-102 | exactly when the admin is set, refused or traps, and what it stores |
| `RouterSpec.ArithmeticRefusalsExactly` | contracts/router/src/lib.rs:194-214 | `MathOverflow` iff the earlier guards pass and fill times fee exceeds i128; `SlippageExceeded` iff they pass, it fits and the bound is missed |
| `RouterSpec.SettlesExactly` | contracts/router/src/lib.rs:220-239 | with the router neither party, the transfers succeed iff trader and solver can pay (counting the first transfer when the tokens are equal) and recipients have room in i128 |
| `RouterSpec.PayoutsExactly` | contracts/router/src/lib.rs:231-239 | once paid, the router never lacks balance for its two payouts |
| `RouterSpec.SettleMoves` | contracts/router/src/lib.rs:220-239 | a settled fill changes every holding by exactly the fill's delta, whatever addresses and tokens coincide; the router's is zero |
| `RouterSpec.SettleTouches` | contracts/router/src/lib.rs:220-239 | a settled fill writes only the parties' and the router's balances on the order's tokens, conserves every supply and keeps every balance in range |
| `RouterSpec.ExecutesExactly` | contracts/router/src/lib.rs:152-260 | `execute_intent` succeeds iff the fill is admitted and can settle |
| `RouterSpec.BotRefinesRouter` | contracts/router/src/lib.rs:168-214 | for an active order with its nonce unused and two authorizing parties, the bot's check accepts and the fee product fits iff the router admits, with equal fee and proceeds |
| `Journal.HistoryDeterminesBalances` | contracts/router/src/lib.rs:220-239 | over any run every balance on every token is its opening value plus the deltas of the transactions that succeeded |
| `Journal.SupplyIsConserved` | contracts/mock_token/src/lib.rs:63-71 | over any run each token's balances sum to the opening sum plus minted less burned, with self-transfers and orders selling a token for itself |
| `Journal.RunsStaySolvent` | contracts/mock_token/src/lib.rs:199-206 | no run makes a balance negative or more than i128 holds |
| `Journal.RouterKeepsNothing` | contracts/router/src/lib.rs:231-239 | over any run in which nobody acts as the router, its balance on every token is unchanged |
| `Journal.SolverPaysTheProceeds` | contracts/router/src/lib.rs:231-239 | on a fill of two different tokens the solver loses, and the trader gains, exactly the proceeds the bot's check computed |
| `Journal.TraderFloorOverRun` | contracts/router/src/lib.rs:194-214 | over any run the trader's balance of a token rises, beyond what all other movements made of it, by at least the sum of the strict floors of the trader's filled orders |
| `Journal.TraderIsPaidInFull` | contracts/router/src/lib.rs:194-214 | a trader from whose balance nothing was otherwise taken over the run ends with at least that much more |
| `Journal.NothingLeavesWithoutConsent` | contracts/router/src/lib.rs:10-14 | over any run whose successful transactions are authorized by others, none of whom an address had approved, that address loses no unit of any token and no nonce |
| `Journal.SucceedsExactly` | contracts/router/src/lib.rs:88-260 | a transaction of any kind succeeds iff its arguments decode, its parties authorize it, and the stated conditions on storage and ledgers hold |
| `Confluence.OrderMattersToAllowancesOnly` | contracts/router/src/lib.rs:185-247 | two runs from one world in which the same transactions succeed, in whatever order, end with the same storage, balances and token admins, whatever traders, solvers and tokens they share, and in the same world exactly when their logs tell the same of every allowance |
| `Confluence.OrderDoesNotMatter` | contracts/router/src/lib.rs:185-247 | so they end in the same world whenever no approval meets another call on its allowance |
| `Confluence.RunRecords` | contracts/router/src/lib.rs:216-247 | a run leaves on each hash the record of the one claim that succeeded, or nothing; a hash that is not active is never claimed |
| `Confluence.RunNonces` | contracts/router/src/storage.rs:90-97 | after a run the used nonces are those used before and those of the claims that succeeded |
| `Confluence.RunSpends` | contracts/mock_token/src/lib.rs:226-242 | without approvals of a pair, a run leaves its allowance less what was spent, empty once a spend of nothing came after expiry, and spends no more than there was |
| `Confluence.RunEntry` | contracts/mock_token/src/lib.rs:90-107 | after any run an allowance entry is the last approval in the log of successful calls, or the opening entry where there is none, less what was spent after it |
| `Confluence.ApprovalAndSpendSwapExactly` | contracts/mock_token/src/lib.rs:226-242 | an approval and a spend that succeed in either order commute iff nothing is spent and the approval is of nothing or still live |
| `Confluence.ApprovalsSwapExactly` | contracts/mock_token/src/lib.rs:90-107 | two approvals of one allowance commute iff they approve the same |
| `Confluence.LastApprovalWins` | contracts/mock_token/src/lib.rs:90-107 | two approvals of one allowance that both succeed in either order and end differently |
| `TokenLedger.SupplySplit` | contracts/mock_token/src/lib.rs:184-189 | the sum of the balances does not depend on the order of summation |
| `TokenLedger.MoveConserves` | contracts/mock_token/src/lib.rs:199-206 | a transfer moves exactly its amount, conserves the supply and writes two entries, also from an address to itself |
| `TokenLedger.CallAccounts` | contracts/mock_token/src/lib.rs:62-153 | every successful call changes each balance by its delta, the supply by what it mints or burns, and only the entries it names |
| `TokenLedger.CallKeepsSolvent` | contracts/mock_token/src/lib.rs:62-153 | every successful call keeps all balances non-negative i128 values |
| `TokenLedger.TransferExactly` | contracts/mock_token/src/lib.rs:113-119 | a transfer succeeds iff authorized, not negative, covered, and the recipient has room |
| `TokenLedger.CallSucceedsExactly` | contracts/mock_token/src/lib.rs:46-153 | for each entry point, who must authorize it and what it needs besides; on a solvent ledger it succeeds iff so |
| `TokenLedger.CallLeaves` | contracts/mock_token/src/lib.rs:46-153 | what each call leaves of the admin and the allowances |
| `MockTokenContract.MockToken.MoveBalance` | contracts/mock_token/src/lib.rs:199-206 | the two writes in order, with the balance of the recipient read after the first |
| `MockTokenContract.MockToken.SpendAllowance` | contracts/mock_token/src/lib.rs:226-242 | an unexpired allowance is reduced by the amount, or the call traps |
| `MockTokenContract.MockToken.TransferFrom` | contracts/mock_token/src/lib.rs:121-128 | allowance and balances both change, or neither, as `Call`; who must authorize it is in `TokenLedger.CallSucceedsExactly` |
| `MockTokenContract.MockToken.BurnFrom` | contracts/mock_token/src/lib.rs:142-153 | allowance and balance both change, or neither |
| `MockTokenContract.MockToken.Receive` | contracts/mock_token/src/lib.rs:46-153 | every entry point leaves the token that `Call` says |
| `AllowanceHistory.AllowanceIsUnspentGrant` | contracts/mock_token/src/lib.rs:81-107 | over any run with ledgers in order, a pair never spends beyond its last approval, and the allowance reads as approved less spent until it expires and nothing after |
| `AllowanceHistory.SpendAllowedExactly` | contracts/mock_token/src/lib.rs:226-242 | a positive spend is allowed iff the last approval is unexpired and still covers it |
| `AllowanceHistory.ApprovalForThisLedgerIsDead` | contracts/mock_token/src/lib.rs:90-107 | an approval expiring at the current ledger is accepted and never spendable |
| `FillMath.QuoteExactly` | contracts/router/src/lib.rs:194-214 | overflow iff the fee product exceeds i128, acceptance iff the proceeds meet the strict bound, otherwise slippage; the fee and the proceeds |
| `FillMath.OverflowExactly` | contracts/router/src/lib.rs:284-287 | the subtraction, the scaling by 10,000 and the division can never overflow |
| `FillMath.ToleranceIsFlooredShortfall` | contracts/router/src/lib.rs:201-214 | a floored shortfall within the tolerance is the strict bound 10,000 * proceeds > (9,999 - tolerance) * minimum |
| `FillMath.ProceedsMonotone` | contracts/router/src/lib.rs:196-199 | a larger fill never leaves the trader less, and each unit adds at most one |
| `FillMath.AcceptedFromLeastFill` | contracts/router/src/lib.rs:194-214 | the acceptable fills of a fillable order are those from a computed least fill up, and an unfillable order has none; every fee up to 100% |
| `FillMath.FillableExactly` | contracts/router/src/lib.rs:194-214 | some fill is acceptable iff the fee is below 100% or the tolerance is 100% |
| `FillMath.MinimumSuffices` | contracts/router/src/lib.rs:194-214 | a fee within the tolerance makes the order fillable and its least fill exactly the minimum |
| `FillMath.LeastProceeds` | contracts/router/src/lib.rs:194-214 | what the trader gets from the least fill, in the order's own fields, and no acceptable fill brings less |
| `FillMath.RouterAcceptsAnInterval` | contracts/router/src/lib.rs:181-214 | the fills the router's arithmetic accepts are one interval with both ends given, empty when the order is unfillable; every fee up to 100% |
| `FillMath.StrictToleranceFails` | contracts/router/src/lib.rs:168-214 | an order and a fill 50 units below the minimum at no tolerance that pass the guards on terms, clock and delivery and the slippage check |
| `FillMath.StrictToleranceExactly` | contracts/router/src/lib.rs:201-214 | no acceptable fill falls short of the tolerance exactly when the order is unfillable, its fee on the minimum is within the tolerance, or its minimum is too small for the floor to hide a unit |
| `FillMath.ShortByLessThanABasisPoint` | contracts/router/src/lib.rs:201-214 | a fill is within tolerance exactly when it falls short of the strict reading by less than a ten-thousandth of the minimum |
| `Evaluator.BotMirrorsRouter` | packages/solver-bot/src/evaluator.ts:66-114 | the bot's check accepts and the fee product fits iff the router's guards and arithmetic accept, with the same split |
| `Evaluator.RejectionsMirrorRouter` | packages/solver-bot/src/evaluator.ts:79-113 | each router error is one reason of the bot and the reverse, apart from a negative fill and an overflow |
| `Evaluator.CheckIsTolerance` | packages/solver-bot/src/evaluator.ts:95-113 | on a live order the check is the strict bound, with exact fee and proceeds |
| `Evaluator.CheckAnswers` | packages/solver-bot/src/evaluator.ts:66-114 | the whole answer of the fill check for any integers: which reason in the order of precedence, the fee, the proceeds, the floored shortfall, and when it throws |
| `Evaluator.EvaluationAnswers` | packages/solver-bot/src/evaluator.ts:124-154 | every field of an evaluation from its check, the valuation, the cost and the margin |
| `Evaluator.BotAcceptsFromLeastFill` | packages/solver-bot/src/evaluator.ts:79-113 | the bot accepts a live order's fills from the least fill up and no others, and none when the order is unfillable; every fee up to 100% |
| `Evaluator.ProfitableExactly` | packages/solver-bot/src/evaluator.ts:124-173 | flooring the valuation loses nothing: profitable iff the check passes and sold amount times its price covers the buy price times proceeds, cost and margin |
| `Evaluator.PricingAnswers` | packages/solver-bot/src/evaluator.ts:176-208 | with either token unpriced the result is not profitable for a missing price; a buy price of zero throws; otherwise the sold amount is valued at the floored quotient of the prices |
| `Evaluator.ProfitableMeansPriced` | packages/solver-bot/src/evaluator.ts:162-208 | profitable iff both tokens are priced, the buy price is positive, the check accepts, and the sale pays for proceeds, cost and margin |
| `Evaluator.ProfitsExactly` | packages/solver-bot/src/evaluator.ts:124-154 | a live order's fill is profitable exactly when the order is fillable, the fill is at least the least one, and it nets the margin |
| `Evaluator.LeastFillIsBest` | packages/solver-bot/src/evaluator.ts:141-142 | over all acceptable fills of a live order the least one earns the most, so a profitable fill exists iff it is profitable; every fee up to 100% |
| `Evaluator.MinimumIsBestWhenAccepted` | packages/solver-bot/src/index.ts:44-51 | whenever the minimum is accepted, the bot's choice of it earns at least what any accepted fill does |
| `Evaluator.OfferingTheMinimum` | packages/solver-bot/src/index.ts:44-51 | offering the minimum misses a profit iff the order is fillable, the minimum is below the least acceptable fill and that fill would pay |
| `Evaluator.ProfitMissed` | packages/solver-bot/src/index.ts:44-51 | an order on which the bot misses a profit |
| `Xdr.EncodingRoundTrip` | packages/sdk/src/intent.ts:254-272 | decoding the encoding of any intent whose fields fit their types gives the intent back |
| `Xdr.EncodingCanonical` | packages/sdk/src/intent.ts:254-272 | bytes that decode to an intent are that intent's encoding |
| `Xdr.EncodingInjective` | packages/sdk/src/intent.ts:274-277 | distinct intents have distinct hash preimages |
| `Xdr.FieldOrderIsSorted` | packages/sdk/src/intent.ts:31-41 | the nine keys ascend strictly byte by byte |
| `Xdr.I128RoundTrip` | packages/sdk/src/intent.ts:233-235 | a signed 128-bit integer survives its two words, whatever follows |
| `Xdr.AddressRoundTrip` | packages/sdk/src/intent.ts:229-231 | an address of any kind survives its encoding, whatever follows |
| `Xdr.AllRoundTrip` | packages/sdk/src/intent.ts:267-271 | a sequence survives the concatenation of its elements' encodings, for any element codec that round-trips |
| `Xdr.MostSignificantFirst` | packages/sdk/src/intent.ts:229-247 | integers are encoded with the most significant byte first |
| `Xdr.TwosComplement` | packages/sdk/src/intent.ts:233-235 | a signed integer is its two's complement in sixteen bytes |
| `Xdr.TypeTags` | packages/sdk/src/intent.ts:229-247 | each value begins with its type's discriminant |
| `Xdr.SymbolLayout` | packages/sdk/src/intent.ts:245-247 | a symbol is its length, its characters and zeros up to a multiple of four |
| `Xdr.IntentLayout` | packages/sdk/src/intent.ts:254-272 | the hashed bytes are a present map of nine entries, each its key and value in order |
| `FieldNames.KeysAreSnakeCase` | packages/sdk/src/intent.ts:31-41 | each key of the map is the JSON property's name in snake case |
| `FieldNames.EveryPropertyIsHashed` | packages/sdk/src/intent.ts:254-272 | each JSON property of an intent is in the hashed map under its name in snake case, in the contract's declared type and with its value |
| `Json.IntentRoundTrip` | packages/sdk/src/intent.ts:290-323 | a valid intent with a safe-integer deadline comes back from its JSON text |
| `Json.ObjectReadsBack` | packages/sdk/src/intent.ts:297-323 | a valid intent is read back from an object that has other members beside its own |
| `Json.CoercesExactly` | packages/sdk/src/intent.ts:308-319 | what is read from an object's members, property name by property name |
| `Json.DeserializesExactly` | packages/sdk/src/intent.ts:297-323 | an intent is read from a printed object iff its members coerce to it and it is valid |
| `Json.DeserializeIntent` | packages/sdk/src/intent.ts:297-323 | whatever is returned is valid |
| `Json.ObjectRoundTrip` | packages/sdk/src/intent.ts:290-294 | every flat object of plain strings and safe integers comes back from its text |
| `Json.ValueCanonical` | packages/sdk/src/intent.ts:297-306 | nothing but the printed form of a value is read as it, apart from the minus sign of a zero |
| `Json.IntRoundTrip` | packages/sdk/src/intent.ts:44-59 | an integer of any size comes back from its decimal digits |
| `Json.IntegersInText` | packages/sdk/src/intent.ts:44-59 | digits are an integer, none of them zero, and text that neither is digits nor begins with a minus sign is none |
| `Watcher.IntentWatcher.ParseFeed` | packages/solver-bot/src/watcher.ts:90-117 | the readable entries of a payload in order, from a list or a list under `intents`, with the intent as text, under `intent` or as the record itself, malformed entries skipped |
| `Watcher.PayloadIsRead` | packages/solver-bot/src/watcher.ts:90-117 | a payload of either shape yields its entries read in order, one candidate for each readable one and nothing for an unreadable one or another payload |
| `Watcher.AuthorizationIsTheRecords` | packages/solver-bot/src/watcher.ts:100-109 | the candidate's authorization is the record's string under `traderAuthEntry`, and there is none without one |
| `Watcher.IntentWatcher.Poll` | packages/solver-bot/src/watcher.ts:49-69 | returns the unseen candidates and marks all discovered hashes seen |
| `Watcher.FreshJoins` | packages/solver-bot/src/watcher.ts:59-68 | two polls return what one poll over both feeds would |
| `Watcher.PollsReturnFirstOccurrences` | packages/solver-bot/src/watcher.ts:49-69 | over any sequence of polls the outputs together are the first occurrences by hash in all feeds together, each hash once and none missed |
| `Watcher.EveryShapeKeepsTheHash` | packages/solver-bot/src/watcher.ts:94-113 | a valid intent becomes the same candidate from every shape of entry, each field the wire intent's own, under its own hash and with the record's authorization |
| `Watcher.CandidateIsRead` | packages/solver-bot/src/watcher.ts:94-113 | every candidate is a valid wire intent read field for field, with the hash of its encoding and the entry's authorization |
| `Watcher.ValidIsSound` | packages/sdk/src/intent.ts:87-110 | the SDK accepts an intent with resolvable addresses iff its terms pass the router's guards on amounts and basis points, its tokens differ, its deadline is positive and its nonce not negative |
| `Solver.SolverLoop.HandleAll` | packages/solver-bot/src/index.ts:74-79 | the candidates in order until a signal or an exception, against `HandleFrom` |
| `Solver.SolverLoop.RunLoop` | packages/solver-bot/src/index.ts:82-94 | the loop makes exactly the calls of `Session`, through exceptions and signals |
| `Solver.ExecutesAtMostOnce` | packages/solver-bot/src/index.ts:44-80 | over a whole session `execute` is called at most once per hash, never for a hash already seen, only after that hash was judged profitable, and for a candidate of the session's feeds |
| `Solver.ExecutionsAreAdmissible` | packages/solver-bot/src/index.ts:44-66 | each call offers the trader's minimum, and the router admits it while the order is active with its nonce unused, both parties authorize and the fee product fits |
| `Solver.JudgedExactly` | packages/solver-bot/src/index.ts:44-64 | the bot judges a candidate profitable iff both tokens are priced, its minimum is an acceptable fill, and the sale pays for proceeds, cost and margin |
| `Solver.ExecutionsPay` | packages/solver-bot/src/index.ts:44-66 | every execution of a session is, at the clock of its evaluation, of an order that so pays, at its minimum |
| `Solver.ExecutedUnderRouterHash` | packages/sdk/src/intent.ts:279-287 | the hash the bot keeps for a candidate it executes is the hash the router computes for that intent |
| `Solver.ExecutedExactly` | packages/solver-bot/src/index.ts:74-79 | a fresh candidate is executed iff the loop reaches it and it is profitable |
| `Solver.SessionExecutesExactly` | packages/solver-bot/src/index.ts:44-94 | over a whole session a hash is executed iff the session gets to the turn that first discovers it, that turn gets to its candidate, and it is profitable then |
| `Solver.CallsAreInOrder` | packages/solver-bot/src/index.ts:74-79 | the calls of a turn are in the order of the poll, each at the clock of its own evaluation |
| `Solver.GoesOnExactly` | packages/solver-bot/src/index.ts:82-94 | the session goes on after a turn iff no signal came in it; a poll or a candidate that throws does not end it |
| `Solver.SignalEndsSession` | packages/solver-bot/src/index.ts:74-94 | after a signal nothing is executed: not the candidate it came before, none behind it, and nothing later |
| `Solver.PassedOverIsLost` | packages/solver-bot/src/index.ts:74-93 | a candidate not executed in the turn that discovered it is never executed later |
| `Solver.ThrowLosesTheRest` | packages/solver-bot/src/index.ts:74-93 | a profitable candidate never executed because the evaluation of the one before it throws |
| `Solver.FeedLosesAProfit` | packages/solver-bot/src/index.ts:74-93 | two intents as the SDK prints them, read by the bot's own parser from one feed, of which the second is profitable and never executed |

## Left out

- Stellar RPC and HTTP: the client, the executor, `fetch`, transaction assembly, signing and polling are calls into libraries outside the repository; a poll that throws and an `execute` that throws are inputs of the loop.
- SHA-256: a parameter; `Replay` assumes only that it separates the encodings it is asked about.
- Authorization internals: `require_auth` is membership in a set of authorizing addresses, and the router authorizes its own payouts.
- TTL and archival: storage is durable.
- Events, and the cursor of `pollEvents`: they feed logs only.
- Floating-point prices and `Math.round`: the evaluator starts from prices already scaled to natural numbers, so a price of exactly zero, which throws, is not told apart from one that scales to zero.
- Strkey validation: reading an address is a parameter, and accepted texts are assumed to need no JSON escape where the round trip is stated; the price table and the check that the two tokens differ go by address rather than by text in the bot's model.
- Muxed addresses: the encoding covers them, and the router model treats them like any other address.
- JSON beyond flat objects of unescaped strings and integers: whitespace, escapes, nesting, fractions, exponents, literals and integers past 2^53 - 1 are refused by the model's parser.
- Number syntax: `BigInt(string)` and `Number(string)` are modelled on decimal digits with an optional minus sign, exactly; hexadecimal, blanks, exponents and the rounding of large numbers are not.
- `IntentBuilder`: its setters only collect the fields that `build` validates.
- Feed values that cannot be intents: null, numbers and arrays as entries, and records with nested values beside their intent, are one unreadable case.
- Token metadata, configuration, logging, scripts and the documentation site.
- ScVal and ScAddress discriminants: they are those of Stellar's published XDR definitions, which are not part of the repository.
- Ledgers of hostile tokens: they obey no rule, so the re-entrancy machine has none; it also allows re-entry in cases the Soroban host refuses, so what it proves covers more runs than can happen.
- Confluence.OrderDoesNotMatter: asks that no approval meets another call on its allowance; `Confluence.OrderMattersToAllowancesOnly` asks nothing and says exactly when the order shows.
- RouterSpec.SettlesExactly: assumes the router is neither trader nor solver, which authorization guarantees; the balance laws in `RouterSpec.SettleMoves` and `Journal` do not need it.
- Solver.ExecutionsAreAdmissible: speaks of the router at the clock of the evaluation; between evaluation and submission the ledger may move on.
