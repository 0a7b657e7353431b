/** Whole runs of transactions, told from the log of those that succeeded: what every balance
    is, what every supply is, and what the traders were paid. */
module Journal {
  import opened Protocol
  import opened FillMath
  import opened TokenLedger
  import opened RouterSpec
  import opened Transactions
  import Evaluator

  // ----- balances -----

  /** What a successful transaction adds to the holding of `a`. */
  function Delta(tx: Tx, t: Address, a: Address): int {
    match tx.invocation
    case Execute(solver, i, amount) => FillDelta(solver, i, Proceeds(amount, i.solverFeeBps), t, a)
    case OnToken(token, call) => if t == token then CallDelta(call, a) else 0
    case _ => 0
  }

  function SumDelta(log: seq<Tx>, t: Address, a: Address): int {
    if log == [] then 0 else Delta(log[0], t, a) + SumDelta(log[1..], t, a)
  }

  function Minted(tx: Tx, t: Address): int {
    if tx.invocation.OnToken? && tx.invocation.token == t then SupplyDelta(tx.invocation.call) else 0
  }

  function MintedLessBurned(log: seq<Tx>, t: Address): int {
    if log == [] then 0 else Minted(log[0], t) + MintedLessBurned(log[1..], t)
  }

  ghost function SupplyOf(w: World, t: Address): int {
    if t in w.tokens then Supply(w.tokens[t].balances) else 0
  }

  lemma AttemptMoves(chain: Chain, w: World, tx: Tx, t: Address, a: Address)
    requires Attempt(chain, w, tx).Done?
    ensures Holding(Attempt(chain, w, tx).value.tokens, t, a) == Holding(w.tokens, t, a) + Delta(tx, t, a)
  {
    match tx.invocation
    case Execute(solver, i, amount) =>
      ExecuteSettles(chain, w, tx);
      var split := Admit(chain, w.store, tx.auths, tx.now, solver, i, amount).value.split;
      SettleMoves(chain, w.tokens, tx.auths, solver, i, amount, split, t, a);
    case OnToken(token, call) => CallAccounts(w.tokens[token], tx.auths, tx.sequence, call);
    case _ =>
  }

  /** The settlement inside a successful fill, with its split. */
  lemma ExecuteSettles(chain: Chain, w: World, tx: Tx)
    requires tx.invocation.Execute? && Attempt(chain, w, tx).Done?
    ensures var Execute(solver, i, amount) := tx.invocation;
            var admitted := Admit(chain, w.store, tx.auths, tx.now, solver, i, amount);
            && i.Representable() && FitsI128(amount) && admitted.Done?
            && admitted.value.split
              == Split(amount - Proceeds(amount, i.solverFeeBps), Proceeds(amount, i.solverFeeBps))
            && 0 <= Proceeds(amount, i.solverFeeBps) <= amount
            && Settle(chain, w.tokens, tx.auths, solver, i, amount, admitted.value.split)
              == Some(Attempt(chain, w, tx).value.tokens)
  {
    var Execute(solver, i, amount) := tx.invocation;
    AdmittedExactly(chain, w.store, tx.auths, tx.now, solver, i, amount);
    FeeFacts(amount, i.solverFeeBps);
  }

  /** Every balance is its opening value plus the logged deltas: a fill moves the sold amount
      one way and the proceeds the other, and leaves nothing with the router. */
  lemma {:induction false} HistoryDeterminesBalances(chain: Chain, w: World, txs: seq<Tx>, t: Address, a: Address)
    ensures Holding(Run(chain, w, txs).tokens, t, a)
         == Holding(w.tokens, t, a) + SumDelta(Applied(chain, w, txs), t, a)
    decreases |txs|
  {
    if txs != [] {
      HistoryDeterminesBalances(chain, Post(chain, w, txs[0]), txs[1..], t, a);
      if Attempt(chain, w, txs[0]).Done? {
        AttemptMoves(chain, w, txs[0], t, a);
        AppliedFirst(chain, w, txs);
      } else {
        AppliedSkips(chain, w, txs);
      }
    }
  }

  lemma AppliedFirst(chain: Chain, w: World, txs: seq<Tx>)
    requires txs != [] && Attempt(chain, w, txs[0]).Done?
    ensures var log := Applied(chain, w, txs);
            log != [] && log[0] == txs[0] && log[1..] == Applied(chain, Post(chain, w, txs[0]), txs[1..])
  {
  }

  lemma AppliedSkips(chain: Chain, w: World, txs: seq<Tx>)
    requires txs != [] && !Attempt(chain, w, txs[0]).Done?
    ensures Applied(chain, w, txs) == Applied(chain, w, txs[1..]) && Post(chain, w, txs[0]) == w
  {
  }

  lemma ExecuteKeepsLedgers(chain: Chain, w: World, tx: Tx)
    requires tx.invocation.Execute? && Attempt(chain, w, tx).Done?
    ensures var w' := Attempt(chain, w, tx).value;
            && w'.tokens.Keys == w.tokens.Keys
            && (SolventTokens(w.tokens) ==> SolventTokens(w'.tokens))
            && forall t :: Touches(w.tokens, w'.tokens, t,
                                   FillTouches(chain, tx.invocation.solver, tx.invocation.intent, t))
  {
    var Execute(solver, i, amount) := tx.invocation;
    ExecuteSettles(chain, w, tx);
    var split := Admit(chain, w.store, tx.auths, tx.now, solver, i, amount).value.split;
    SettleTouches(chain, w.tokens, tx.auths, solver, i, amount, split);
  }

  lemma AttemptKeepsSolvent(chain: Chain, w: World, tx: Tx)
    requires Attempt(chain, w, tx).Done?
    ensures var w' := Attempt(chain, w, tx).value;
            w'.tokens.Keys == w.tokens.Keys && (SolventTokens(w.tokens) ==> SolventTokens(w'.tokens))
  {
    match tx.invocation
    case Execute(_, _, _) => ExecuteKeepsLedgers(chain, w, tx);
    case OnToken(token, call) =>
      if SolventTokens(w.tokens) { CallKeepsSolvent(w.tokens[token], tx.auths, tx.sequence, call); }
    case _ =>
  }

  lemma AttemptMints(chain: Chain, w: World, tx: Tx, t: Address)
    requires Attempt(chain, w, tx).Done?
    ensures SupplyOf(Attempt(chain, w, tx).value, t) == SupplyOf(w, t) + Minted(tx, t)
  {
    match tx.invocation
    case Execute(solver, i, _) =>
      ExecuteKeepsLedgers(chain, w, tx);
      assert Touches(w.tokens, Attempt(chain, w, tx).value.tokens, t, FillTouches(chain, solver, i, t));
    case OnToken(token, call) => CallAccounts(w.tokens[token], tx.auths, tx.sequence, call);
    case _ =>
  }

  /** Each token's balances sum to what they summed to at the start plus what was minted less
      what was burned, through transfers to oneself and orders selling a token for itself. */
  lemma {:induction false} SupplyIsConserved(chain: Chain, w: World, txs: seq<Tx>, t: Address)
    ensures SupplyOf(Run(chain, w, txs), t) == SupplyOf(w, t) + MintedLessBurned(Applied(chain, w, txs), t)
    decreases |txs|
  {
    if txs != [] {
      SupplyIsConserved(chain, Post(chain, w, txs[0]), txs[1..], t);
      if Attempt(chain, w, txs[0]).Done? {
        AttemptMints(chain, w, txs[0], t);
        AppliedFirst(chain, w, txs);
      } else {
        AppliedSkips(chain, w, txs);
      }
    }
  }

  /** No run makes a balance negative or lets it leave i128. */
  lemma {:induction false} RunsStaySolvent(chain: Chain, w: World, txs: seq<Tx>)
    requires SolventTokens(w.tokens)
    ensures SolventTokens(Run(chain, w, txs).tokens)
    decreases |txs|
  {
    if txs != [] {
      if Attempt(chain, w, txs[0]).Done? { AttemptKeepsSolvent(chain, w, txs[0]); }
      RunsStaySolvent(chain, Post(chain, w, txs[0]), txs[1..]);
    }
  }

  /** The transaction names the router as a party or as a token holder. */
  predicate Involves(tx: Tx, a: Address) {
    match tx.invocation
    case Execute(solver, i, _) => a == solver || a == i.trader
    case OnToken(_, call) => a in CallTouches(call)
    case _ => false
  }

  /** The router passes every delivery on: over any run in which nobody acts as the router,
      what it holds does not change. */
  lemma RouterKeepsNothing(chain: Chain, w: World, txs: seq<Tx>, t: Address)
    requires forall tx :: tx in Applied(chain, w, txs) ==> !Involves(tx, chain.self)
    ensures Holding(Run(chain, w, txs).tokens, t, chain.self) == Holding(w.tokens, t, chain.self)
  {
    HistoryDeterminesBalances(chain, w, txs, t, chain.self);
    UninvolvedSum(Applied(chain, w, txs), t, chain.self);
  }

  lemma {:induction false} UninvolvedSum(log: seq<Tx>, t: Address, a: Address)
    requires forall tx :: tx in log ==> !Involves(tx, a)
    ensures SumDelta(log, t, a) == 0
  {
    if log != [] {
      assert !Involves(log[0], a) && Delta(log[0], t, a) == 0;
      UninvolvedSum(log[1..], t, a);
    }
  }

  /** On one fill of different tokens the solver is down, on the bought token, exactly what
      the bot's check calls the trader's proceeds. */
  lemma SolverPaysTheProceeds(chain: Chain, w: World, tx: Tx)
    requires tx.invocation.Execute? && Attempt(chain, w, tx).Done?
    requires tx.invocation.intent.sellToken != tx.invocation.intent.buyToken
    ensures var Execute(solver, i, amount) := tx.invocation;
            var check := Evaluator.CheckFill(i, amount, tx.now);
            && check.Value? && check.value.ok
            && Holding(Attempt(chain, w, tx).value.tokens, i.buyToken, solver)
               == Holding(w.tokens, i.buyToken, solver) - check.value.traderProceeds
            && Holding(Attempt(chain, w, tx).value.tokens, i.buyToken, i.trader)
               == Holding(w.tokens, i.buyToken, i.trader) + check.value.traderProceeds
  {
    var Execute(solver, i, amount) := tx.invocation;
    AttemptMoves(chain, w, tx, i.buyToken, solver);
    AttemptMoves(chain, w, tx, i.buyToken, i.trader);
    AdmittedExactly(chain, w.store, tx.auths, tx.now, solver, i, amount);
    BotRefinesRouter(chain, w.store, tx.auths, tx.now, solver, i, amount);
  }

  // ----- the trader's floor over a run -----

  /** What a trader has been paid in a token by the logged fills. */
  function PaidTo(log: seq<Tx>, trader: Address, t: Address): int {
    if log == [] then 0
    else PaidBy(log[0], trader, t) + PaidTo(log[1..], trader, t)
  }

  function PaidBy(tx: Tx, trader: Address, t: Address): int {
    match tx.invocation
    case Execute(_, i, amount) => if i.trader == trader && i.buyToken == t then Proceeds(amount, i.solverFeeBps) else 0
    case _ => 0
  }

  /** What else the logged transactions did to a holding: transfers, mints and burns, what the
      address sold, and what it sold for and paid as a solver. */
  function OtherTo(log: seq<Tx>, a: Address, t: Address): int {
    if log == [] then 0
    else OtherBy(log[0], a, t) + OtherTo(log[1..], a, t)
  }

  function OtherBy(tx: Tx, a: Address, t: Address): int {
    match tx.invocation
    case Execute(solver, i, amount) =>
      (if t == i.sellToken then On(a, solver, i.sellAmount) - On(a, i.trader, i.sellAmount) else 0)
      - (if t == i.buyToken then On(a, solver, Proceeds(amount, i.solverFeeBps)) else 0)
    case OnToken(token, call) => if t == token then CallDelta(call, a) else 0
    case _ => 0
  }

  lemma {:induction false} PaidAndOther(log: seq<Tx>, a: Address, t: Address)
    ensures SumDelta(log, t, a) == PaidTo(log, a, t) + OtherTo(log, a, t)
  {
    if log != [] {
      PaidAndOther(log[1..], a, t);
      assert Delta(log[0], t, a) == PaidBy(log[0], a, t) + OtherBy(log[0], a, t);
    }
  }

  /** What the tolerances of the trader's logged orders promise at the least, scaled by 10,000. */
  function PromisedTo(log: seq<Tx>, trader: Address, t: Address): int {
    if log == [] then 0
    else PromisedBy(log[0], trader, t) + PromisedTo(log[1..], trader, t)
  }

  function PromisedBy(tx: Tx, trader: Address, t: Address): int {
    match tx.invocation
    case Execute(_, i, _) =>
      if i.trader == trader && i.buyToken == t then (9_999 - i.maxSlippageBps) * i.minBuyAmount + 1 else 0
    case _ => 0
  }

  predicate Fair(tx: Tx) {
    tx.invocation.Execute? ==> WithinTolerance(tx.invocation.intent, tx.invocation.amount)
  }

  lemma AttemptIsFair(chain: Chain, w: World, tx: Tx)
    requires Attempt(chain, w, tx).Done?
    ensures Fair(tx)
  {
    if tx.invocation.Execute? {
      var Execute(solver, i, amount) := tx.invocation;
      AdmittedExactly(chain, w.store, tx.auths, tx.now, solver, i, amount);
    }
  }

  lemma {:induction false} AppliedIsFair(chain: Chain, w: World, txs: seq<Tx>)
    ensures forall tx :: tx in Applied(chain, w, txs) ==> Fair(tx)
    decreases |txs|
  {
    if txs != [] {
      AppliedIsFair(chain, Post(chain, w, txs[0]), txs[1..]);
      if Attempt(chain, w, txs[0]).Done? { AttemptIsFair(chain, w, txs[0]); }
    }
  }

  lemma {:induction false} FloorOfLog(log: seq<Tx>, trader: Address, t: Address)
    requires forall tx :: tx in log ==> Fair(tx)
    ensures 10_000 * PaidTo(log, trader, t) >= PromisedTo(log, trader, t)
  {
    if log != [] {
      FloorOfLog(log[1..], trader, t);
      assert Fair(log[0]);
    }
  }

  /** Over any run a trader's holding of a token rises, beyond what other movements made of it,
      by at least what the trader's filled orders promised. */
  lemma TraderFloorOverRun(chain: Chain, w: World, txs: seq<Tx>, trader: Address, t: Address)
    ensures var log := Applied(chain, w, txs);
            var gained := Holding(Run(chain, w, txs).tokens, t, trader) - Holding(w.tokens, t, trader);
            10_000 * (gained - OtherTo(log, trader, t)) >= PromisedTo(log, trader, t)
  {
    var log := Applied(chain, w, txs);
    AppliedIsFair(chain, w, txs);
    FloorOfLog(log, trader, t);
    HistoryDeterminesBalances(chain, w, txs, t, trader);
    PaidAndOther(log, trader, t);
  }

  /** So a trader from whose holding nothing was otherwise taken has that much more in the end. */
  lemma TraderIsPaidInFull(chain: Chain, w: World, txs: seq<Tx>, trader: Address, t: Address)
    requires forall tx :: tx in Applied(chain, w, txs) ==> 0 <= OtherBy(tx, trader, t)
    ensures 10_000 * (Holding(Run(chain, w, txs).tokens, t, trader) - Holding(w.tokens, t, trader))
         >= PromisedTo(Applied(chain, w, txs), trader, t)
  {
    TraderFloorOverRun(chain, w, txs, trader, t);
    OthersAdd(Applied(chain, w, txs), trader, t);
  }

  lemma {:induction false} OthersAdd(log: seq<Tx>, a: Address, t: Address)
    requires forall tx :: tx in log ==> 0 <= OtherBy(tx, a, t)
    ensures 0 <= OtherTo(log, a, t)
  {
    if log != [] {
      assert log[0] in log;
      OthersAdd(log[1..], a, t);
    }
  }

  // ----- consent -----

  /** None of these addresses may move the tokens of `a` for it. */
  ghost predicate Unapproved(tokens: Tokens, a: Address, actors: set<Address>) {
    forall t, spender :: t in tokens && spender in actors ==> AllowanceOf(tokens[t].allowances, a, spender).amount <= 0
  }

  lemma IdleCall(t: Token, auths: set<Address>, sequence: int, c: TokenCall, a: Address, actors: set<Address>)
    requires Call(t, auths, sequence, c).Some? && auths <= actors && a !in actors
    requires forall spender :: spender in actors ==> AllowanceOf(t.allowances, a, spender).amount <= 0
    ensures 0 <= CallDelta(c, a)
    ensures forall spender :: spender in actors ==>
              AllowanceOf(Call(t, auths, sequence, c).value.allowances, a, spender).amount <= 0
  {
    forall spender | spender in actors
      ensures AllowanceOf(Call(t, auths, sequence, c).value.allowances, a, spender).amount <= 0
    {
      assert AllowanceOf(t.allowances, a, spender).amount <= 0;
    }
  }

  /** A transaction that neither the address nor anyone it approved authorizes takes nothing from it
      and uses none of its nonces. */
  lemma IdleAttempt(chain: Chain, w: World, tx: Tx, a: Address, actors: set<Address>)
    requires Attempt(chain, w, tx).Done? && tx.auths <= actors && a !in actors && Unapproved(w.tokens, a, actors)
    ensures var w' := Attempt(chain, w, tx).value;
            && Unapproved(w'.tokens, a, actors)
            && (forall t :: 0 <= Delta(tx, t, a))
            && forall nonce :: (a, nonce) in w'.store.usedNonces <==> (a, nonce) in w.store.usedNonces
  {
    match tx.invocation
    case Execute(_, _, _) => IdleExecute(chain, w, tx, a, actors);
    case OnToken(token, call) => IdleCall(w.tokens[token], tx.auths, tx.sequence, call, a, actors);
    case _ =>
  }

  lemma IdleExecute(chain: Chain, w: World, tx: Tx, a: Address, actors: set<Address>)
    requires tx.invocation.Execute? && Attempt(chain, w, tx).Done? && a !in tx.auths
    ensures a != tx.invocation.solver && a != tx.invocation.intent.trader
    ensures Unapproved(w.tokens, a, actors) ==> Unapproved(Attempt(chain, w, tx).value.tokens, a, actors)
  {
    ExecuteKeepsLedgers(chain, w, tx);
    var w' := Attempt(chain, w, tx).value;
    forall t | t in w.tokens ensures t in w'.tokens && w'.tokens[t].allowances == w.tokens[t].allowances {
      assert Touches(w.tokens, w'.tokens, t, FillTouches(chain, tx.invocation.solver, tx.invocation.intent, t));
    }
  }

  /** The router is no custodian: over any run whose successful transactions are authorized by others,
      none of whom the address had approved, it loses no unit of any token and no nonce. */
  lemma {:induction false} NothingLeavesWithoutConsent(chain: Chain, w: World, txs: seq<Tx>, a: Address,
                                                       actors: set<Address>)
    requires a !in actors && Unapproved(w.tokens, a, actors)
    requires forall tx :: tx in Applied(chain, w, txs) ==> tx.auths <= actors
    ensures var w' := Run(chain, w, txs);
            && Unapproved(w'.tokens, a, actors)
            && (forall t :: Holding(w.tokens, t, a) <= Holding(w'.tokens, t, a))
            && forall nonce :: (a, nonce) in w'.store.usedNonces <==> (a, nonce) in w.store.usedNonces
    decreases |txs|
  {
    if txs != [] {
      if Attempt(chain, w, txs[0]).Done? {
        AppliedFirst(chain, w, txs);
        IdleAttempt(chain, w, txs[0], a, actors);
        forall t ensures Holding(w.tokens, t, a) <= Holding(Post(chain, w, txs[0]).tokens, t, a) {
          AttemptMoves(chain, w, txs[0], t, a);
        }
      } else {
        AppliedSkips(chain, w, txs);
      }
      NothingLeavesWithoutConsent(chain, Post(chain, w, txs[0]), txs[1..], a, actors);
    }
  }

  // ----- when a transaction succeeds -----

  /** A transaction succeeds exactly when its arguments decode, its parties authorize it, the router's
      guards and the ledgers let it through; nothing else stops it. */
  lemma SucceedsExactly(chain: Chain, w: World, tx: Tx)
    requires SolventTokens(w.tokens)
    requires tx.invocation.Execute? ==>
               tx.invocation.solver != chain.self && tx.invocation.intent.trader != chain.self
    ensures Attempt(chain, w, tx).Done? <==>
            match tx.invocation
            case Init(admin) => w.store.admin.None? && admin in tx.auths
            case Execute(solver, i, amount) =>
              && i.Representable() && FitsI128(amount)
              && PassesGuards(chain, w.store, tx.auths, tx.now, solver, i, amount)
              && amount * i.solverFeeBps <= I128_MAX && WithinTolerance(i, amount)
              && var fee := amount * i.solverFeeBps / 10_000;
                 CanSettle(chain, w.tokens, solver, i, amount, Split(fee, amount - fee))
            case Cancel(i) =>
              && i.Representable() && i.trader in tx.auths
              && StatusOf(w.store.statuses, chain.hash(i)) == Active && (i.trader, i.nonce) !in w.store.usedNonces
            case OnToken(token, call) =>
              token in w.tokens && Call(w.tokens[token], tx.auths, tx.sequence, call).Some?
  {
    match tx.invocation
    case Execute(solver, i, amount) =>
      if i.Representable() && FitsI128(amount) {
        ExecutesExactly(chain, w, tx.auths, tx.now, solver, i, amount);
        AdmittedExactly(chain, w.store, tx.auths, tx.now, solver, i, amount);
      }
    case _ =>
  }
}
