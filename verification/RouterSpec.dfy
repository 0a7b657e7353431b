/** What the router's calls compute, as functions of its storage and of the token ledgers. */
module RouterSpec {
  import opened Protocol
  import opened FillMath
  import opened TokenLedger
  import Evaluator

  /** The router's own address and the intent hash of the host, about which nothing is assumed
      here. */
  datatype Chain = Chain(self: Address, hash: TraderIntent -> Hash)

  datatype Store = Store(
    admin: Option<Address>,
    statuses: map<Hash, IntentStatus>,
    receipts: map<Hash, FillReceipt>,
    usedNonces: set<NonceKey>)

  const EMPTY_STORE := Store(None, map[], map[], {})

  /** Unknown intents are active. */
  function StatusOf(statuses: map<Hash, IntentStatus>, h: Hash): IntentStatus {
    if h in statuses then statuses[h] else Active
  }

  function IntentHash(chain: Chain, i: TraderIntent): Hash
    requires i.Representable()
  {
    chain.hash(i)
  }

  /** An admitted fill: its hash and its split. */
  datatype Ticket = Ticket(hash: Hash, split: Split)

  /** The replay guards: status first, then nonce. */
  function ReplayGuard(s: Store, h: Hash, i: TraderIntent): Result<()> {
    if StatusOf(s.statuses, h) != Active then Err(IntentNotActive)
    else if i.Key() in s.usedNonces then Err(NonceAlreadyUsed)
    else Ok(())
  }

  function Checks(chain: Chain, s: Store, now: int, i: TraderIntent, amount: int): Result<Ticket>
    requires i.Representable()
  {
    var _ :- CheckTerms(i, now, amount);
    var h := IntentHash(chain, i);
    var _ :- ReplayGuard(s, h, i);
    var split :- Quote(i, amount);
    Ok(Ticket(h, split))
  }

  /** Everything `execute_intent` checks before it writes. */
  function Admit(chain: Chain, s: Store, auths: set<Address>, now: int, solver: Address, i: TraderIntent, amount: int)
    : Outcome<Ticket>
    requires i.Representable()
  {
    if solver !in auths then Trapped
    else if solver == i.trader then Failed(UnauthorizedTrader)
    else if i.trader !in auths then Trapped
    else
      match Checks(chain, s, now, i, amount)
      case Ok(ticket) => Done(ticket)
      case Err(e) => Failed(e)
  }

  /** The effects written before any token moves. */
  function Commit(s: Store, h: Hash, i: TraderIntent): Store {
    s.(statuses := s.statuses[h := Filled], usedNonces := s.usedNonces + {i.Key()})
  }

  function ReceiptOf(h: Hash, solver: Address, amount: int, now: int): FillReceipt {
    FillReceipt(h, solver, amount, now)
  }

  function StoreReceipt(s: Store, receipt: FillReceipt): Store {
    s.(receipts := s.receipts[receipt.intentHash := receipt])
  }

  function CancelIn(chain: Chain, s: Store, auths: set<Address>, i: TraderIntent): Outcome<Store>
    requires i.Representable()
  {
    if i.trader !in auths then Trapped
    else
      var h := IntentHash(chain, i);
      match ReplayGuard(s, h, i)
      case Err(e) => Failed(e)
      case Ok(_) => Done(s.(statuses := s.statuses[h := Cancelled], usedNonces := s.usedNonces + {i.Key()}))
  }

  function InitIn(s: Store, auths: set<Address>, admin: Address): Outcome<Store> {
    if s.admin.Some? then Failed(AlreadyInitialized)
    else if admin !in auths then Trapped
    else Done(s.(admin := Some(admin)))
  }

  // ----- settlement on honest tokens -----

  type Tokens = map<Address, Token>

  /** A transfer on the token contract at an address; a call to anything else traps. */
  function TransferOn(tokens: Tokens, auths: set<Address>, token: Address, from: Address, to: Address, amount: int)
    : Option<Tokens>
  {
    if token !in tokens then None
    else
      var t :- TransferIn(tokens[token], auths, from, to, amount);
      Some(tokens[token := t])
  }

  /** The transfers of a fill: the sold tokens to the solver, the delivery into the router,
      and out of it the proceeds and, when there is one, the fee. */
  function Settle(chain: Chain, tokens: Tokens, auths: set<Address>, solver: Address, i: TraderIntent, amount: int,
                  split: Split)
    : Option<Tokens>
  {
    var signers := auths + {chain.self};
    var t1 :- TransferOn(tokens, signers, i.sellToken, i.trader, solver, i.sellAmount);
    var t2 :- TransferOn(t1, signers, i.buyToken, solver, chain.self, amount);
    var t3 :- TransferOn(t2, signers, i.buyToken, chain.self, i.trader, split.proceeds);
    if split.fee > 0 then TransferOn(t3, signers, i.buyToken, chain.self, solver, split.fee) else Some(t3)
  }

  datatype World = World(store: Store, tokens: Tokens)

  /** An admitted fill from its first write on: effects, then transfers, then the receipt. */
  function FinishFill(chain: Chain, w: World, auths: set<Address>, now: int, solver: Address, i: TraderIntent,
                      amount: int, ticket: Ticket)
    : Outcome<(World, FillReceipt)>
  {
    match Settle(chain, w.tokens, auths, solver, i, amount, ticket.split)
    case None => Trapped
    case Some(tokens) =>
      var receipt := ReceiptOf(ticket.hash, solver, amount, now);
      Done((World(StoreReceipt(Commit(w.store, ticket.hash, i), receipt), tokens), receipt))
  }

  /** One call of `execute_intent`: the world it leaves and the receipt it returns. */
  function ExecuteIn(chain: Chain, w: World, auths: set<Address>, now: int, solver: Address, i: TraderIntent,
                     amount: int)
    : Outcome<(World, FillReceipt)>
    requires i.Representable()
  {
    match Admit(chain, w.store, auths, now, solver, i, amount)
    case Trapped => Trapped
    case Failed(e) => Failed(e)
    case Done(ticket) => FinishFill(chain, w, auths, now, solver, i, amount, ticket)
  }

  // ----- what the guards let through -----

  /** Past the guards on terms, clock, delivery and replay. */
  predicate PassesGuards(chain: Chain, s: Store, auths: set<Address>, now: int, solver: Address, i: TraderIntent,
                         amount: int)
    requires i.Representable()
  {
    && solver in auths && i.trader in auths && solver != i.trader
    && SoundTerms(i) && now <= i.deadline && i.minBuyAmount <= amount
    && StatusOf(s.statuses, IntentHash(chain, i)) == Active && i.Key() !in s.usedNonces
  }

  /** An admitted fill, said without the guards: the order is sound, live, unclaimed and
      delivered in full, the parties are two and both authorize, the fee product fits, and
      the trader stays within tolerance. */
  lemma AdmittedExactly(chain: Chain, s: Store, auths: set<Address>, now: int, solver: Address, i: TraderIntent,
                        amount: int)
    requires i.Representable() && FitsI128(amount)
    ensures Admit(chain, s, auths, now, solver, i, amount).Done?
       <==> && PassesGuards(chain, s, auths, now, solver, i, amount)
            && amount * i.solverFeeBps <= I128_MAX && WithinTolerance(i, amount)
    ensures Admit(chain, s, auths, now, solver, i, amount).Done? ==>
              Admit(chain, s, auths, now, solver, i, amount).value
              == Ticket(IntentHash(chain, i),
                        Split(amount - Proceeds(amount, i.solverFeeBps), Proceeds(amount, i.solverFeeBps)))
  {
    if CheckTerms(i, now, amount).Ok? { QuoteExactly(i, amount); }
  }

  /** The whole answer of the guards, on the order's own fields: the first of these that applies. */
  lemma AdmitAnswers(chain: Chain, s: Store, auths: set<Address>, now: int, solver: Address, i: TraderIntent,
                     amount: int)
    requires i.Representable() && FitsI128(amount)
    ensures Admit(chain, s, auths, now, solver, i, amount) ==
            if solver !in auths then Trapped
            else if solver == i.trader then Failed(UnauthorizedTrader)
            else if i.trader !in auths then Trapped
            else if i.sellAmount <= 0 || i.minBuyAmount <= 0 then Failed(InvalidAmount)
            else if i.maxSlippageBps > 10_000 || i.solverFeeBps > 10_000 then Failed(InvalidSlippageBps)
            else if i.deadline < now then Failed(IntentExpired)
            else if amount < i.minBuyAmount then Failed(InsufficientOutput)
            else if chain.hash(i) in s.statuses && s.statuses[chain.hash(i)] != Active then Failed(IntentNotActive)
            else if (i.trader, i.nonce) in s.usedNonces then Failed(NonceAlreadyUsed)
            else if amount * i.solverFeeBps > I128_MAX then Failed(MathOverflow)
            else if !WithinTolerance(i, amount) then Failed(SlippageExceeded)
            else
              var fee := amount * i.solverFeeBps / 10_000;
              Done(Ticket(chain.hash(i), Split(fee, amount - fee)))
  {
    if CheckTerms(i, now, amount).Ok? { QuoteExactly(i, amount); }
  }

  /** What a successful fill stores and returns: the status, the receipt with the caller's solver,
      the delivery and the ledger's clock, and the nonce; nothing else. */
  lemma ExecuteWrites(chain: Chain, w: World, auths: set<Address>, now: int, solver: Address, i: TraderIntent,
                      amount: int)
    requires i.Representable() && ExecuteIn(chain, w, auths, now, solver, i, amount).Done?
    ensures var (w', receipt) := ExecuteIn(chain, w, auths, now, solver, i, amount).value;
            var h := chain.hash(i);
            && receipt == FillReceipt(h, solver, amount, now)
            && w'.store == Store(w.store.admin, w.store.statuses[h := Filled], w.store.receipts[h := receipt],
                                 w.store.usedNonces + {(i.trader, i.nonce)})
  {
  }

  /** When a cancellation goes through, what it stores, and which refusal it gives otherwise. */
  lemma CancelAnswers(chain: Chain, s: Store, auths: set<Address>, i: TraderIntent)
    requires i.Representable()
    ensures var h := chain.hash(i);
            var active, used := h !in s.statuses || s.statuses[h] == Active, (i.trader, i.nonce) in s.usedNonces;
            var out := CancelIn(chain, s, auths, i);
            && (out.Trapped? <==> i.trader !in auths)
            && (out == Failed(IntentNotActive) <==> i.trader in auths && !active)
            && (out == Failed(NonceAlreadyUsed) <==> i.trader in auths && active && used)
            && (out.Done? <==> i.trader in auths && active && !used)
            && (out.Done? ==>
                  out.value == Store(s.admin, s.statuses[h := Cancelled], s.receipts,
                                     s.usedNonces + {(i.trader, i.nonce)}))
  {
  }

  /** The admin is set once, with the new admin's authorization, and nothing else changes. */
  lemma InitAnswers(s: Store, auths: set<Address>, admin: Address)
    ensures var out := InitIn(s, auths, admin);
            && (out == Failed(AlreadyInitialized) <==> s.admin.Some?)
            && (out.Trapped? <==> s.admin.None? && admin !in auths)
            && (out.Done? <==> s.admin.None? && admin in auths)
            && (out.Done? ==> out.value == Store(Some(admin), s.statuses, s.receipts, s.usedNonces))
  {
  }

  /** The two refusals of the arithmetic, exactly: past the guards a fill overflows only by its
      fee product, and is out of tolerance only when the product fits. */
  lemma ArithmeticRefusalsExactly(chain: Chain, s: Store, auths: set<Address>, now: int, solver: Address,
                                  i: TraderIntent, amount: int)
    requires i.Representable() && FitsI128(amount)
    ensures Admit(chain, s, auths, now, solver, i, amount) == Failed(MathOverflow)
       <==> PassesGuards(chain, s, auths, now, solver, i, amount) && amount * i.solverFeeBps > I128_MAX
    ensures Admit(chain, s, auths, now, solver, i, amount) == Failed(SlippageExceeded)
       <==> && PassesGuards(chain, s, auths, now, solver, i, amount) && amount * i.solverFeeBps <= I128_MAX
            && !WithinTolerance(i, amount)
  {
    if CheckTerms(i, now, amount).Ok? { QuoteExactly(i, amount); }
  }

  /** For an order that is active with its nonce unused, and two authorizing parties, the
      router admits what the bot's check accepts, at the same split, unless the fee product
      overflows. */
  lemma BotRefinesRouter(chain: Chain, s: Store, auths: set<Address>, now: int, solver: Address, i: TraderIntent,
                         amount: int)
    requires i.Representable() && FitsI128(amount)
    requires StatusOf(s.statuses, IntentHash(chain, i)) == Active && i.Key() !in s.usedNonces
    requires solver in auths && i.trader in auths && solver != i.trader
    ensures Evaluator.CheckFill(i, amount, now).Value?
    ensures var check := Evaluator.CheckFill(i, amount, now).value;
            var admitted := Admit(chain, s, auths, now, solver, i, amount);
            && (check.ok && FitsI128(amount * i.solverFeeBps) <==> admitted.Done?)
            && (admitted.Done? ==> admitted.value.split == Split(check.solverFee, check.traderProceeds))
  {
    Evaluator.BotMirrorsRouter(i, amount, now);
  }

  // ----- when settlement succeeds -----

  function Holding(tokens: Tokens, token: Address, a: Address): int {
    if token in tokens then BalanceOf(tokens[token].balances, a) else 0
  }

  ghost predicate SolventTokens(tokens: Tokens) {
    forall token :: token in tokens ==> Solvent(tokens[token].balances)
  }

  /** After the sold tokens have moved, what `a` holds of the bought token. */
  function BuyHolding(tokens: Tokens, solver: Address, i: TraderIntent, a: Address): int {
    Holding(tokens, i.buyToken, a)
    + if i.sellToken == i.buyToken then On(a, solver, i.sellAmount) - On(a, i.trader, i.sellAmount) else 0
  }

  /** Both parties can pay and every recipient has room for what it gets. */
  predicate CanSettle(chain: Chain, tokens: Tokens, solver: Address, i: TraderIntent, amount: int, split: Split) {
    && i.sellToken in tokens && i.buyToken in tokens
    && i.sellAmount <= Holding(tokens, i.sellToken, i.trader)
    && Holding(tokens, i.sellToken, solver) + i.sellAmount <= I128_MAX
    && amount <= BuyHolding(tokens, solver, i, solver)
    && BuyHolding(tokens, solver, i, chain.self) + amount <= I128_MAX
    && BuyHolding(tokens, solver, i, i.trader) + split.proceeds <= I128_MAX
  }

  lemma TransferOnExactly(tokens: Tokens, auths: set<Address>, token: Address, from: Address, to: Address, amount: int)
    requires SolventTokens(tokens) && from in auths && from != to
    ensures TransferOn(tokens, auths, token, from, to, amount).Some?
       <==> && token in tokens && 0 <= amount <= Holding(tokens, token, from)
            && Holding(tokens, token, to) + amount <= I128_MAX
  {
    if token in tokens { TransferExactly(tokens[token], auths, from, to, amount); }
  }

  /** A successful transfer moves its amount from one holding to the other. */
  lemma TransferOnMoves(tokens: Tokens, auths: set<Address>, token: Address, from: Address, to: Address, amount: int,
                        t: Address, a: Address)
    requires TransferOn(tokens, auths, token, from, to, amount).Some?
    ensures Holding(TransferOn(tokens, auths, token, from, to, amount).value, t, a)
         == Holding(tokens, t, a) + if t == token then On(a, to, amount) - On(a, from, amount) else 0
  {
    MoveConserves(tokens[token].balances, from, to, amount);
  }

  function MoveTouches(token: Address, from: Address, to: Address, t: Address): set<Address> {
    if t == token then {from, to} else {}
  }

  /** The balances written between two ledgers of `t` are those of `touched`, and the supply
      and everything else about the token stay. */
  ghost predicate Touches(tokens: Tokens, after: Tokens, t: Address, touched: set<Address>) {
    t in tokens ==>
      && t in after
      && after[t] == tokens[t].(balances := after[t].balances)
      && Supply(after[t].balances) == Supply(tokens[t].balances)
      && after[t].balances.Keys == tokens[t].balances.Keys + touched
  }

  /** A successful transfer touches two balances of one token. */
  lemma TransferOnTouches(tokens: Tokens, auths: set<Address>, token: Address, from: Address, to: Address, amount: int)
    requires TransferOn(tokens, auths, token, from, to, amount).Some?
    ensures var after := TransferOn(tokens, auths, token, from, to, amount).value;
            && after.Keys == tokens.Keys
            && (SolventTokens(tokens) ==> SolventTokens(after))
            && forall t :: Touches(tokens, after, t, MoveTouches(token, from, to, t))
  {
    MoveConserves(tokens[token].balances, from, to, amount);
    if SolventTokens(tokens) { MoveKeepsSolvent(tokens[token].balances, from, to, amount); }
  }

  /** Once admitted, with the router itself neither trader nor solver, a fill on honest tokens
      settles exactly when both parties can pay and the recipients have room: the router's own
      payouts never fail. */
  lemma SettlesExactly(chain: Chain, tokens: Tokens, auths: set<Address>, solver: Address, i: TraderIntent, amount: int,
                       split: Split)
    requires SolventTokens(tokens) && solver in auths && i.trader in auths
    requires solver != i.trader && solver != chain.self && i.trader != chain.self
    requires 0 <= i.sellAmount && 0 <= split.proceeds && 0 <= split.fee && split.proceeds + split.fee == amount
    ensures Settle(chain, tokens, auths, solver, i, amount, split).Some?
       <==> CanSettle(chain, tokens, solver, i, amount, split)
  {
    var signers, self := auths + {chain.self}, chain.self;
    var buy := i.buyToken;
    TransferOnExactly(tokens, signers, i.sellToken, i.trader, solver, i.sellAmount);
    var s1 := TransferOn(tokens, signers, i.sellToken, i.trader, solver, i.sellAmount);
    if s1.Some? {
      var t1 := s1.value;
      TransferOnTouches(tokens, signers, i.sellToken, i.trader, solver, i.sellAmount);
      TransferOnMoves(tokens, signers, i.sellToken, i.trader, solver, i.sellAmount, buy, solver);
      TransferOnMoves(tokens, signers, i.sellToken, i.trader, solver, i.sellAmount, buy, self);
      TransferOnMoves(tokens, signers, i.sellToken, i.trader, solver, i.sellAmount, buy, i.trader);
      TransferOnExactly(t1, signers, buy, solver, self, amount);
      if TransferOn(t1, signers, buy, solver, self, amount).Some? {
        PayoutsExactly(t1, signers, self, solver, i, amount, split);
      }
    }
  }

  /** Paid `amount`, the router can always pay the fee back, and the proceeds when the trader
      has room for them. */
  lemma PayoutsExactly(t1: Tokens, signers: set<Address>, self: Address, solver: Address, i: TraderIntent, amount: int,
                       split: Split)
    requires SolventTokens(t1) && self in signers
    requires solver != i.trader && solver != self && i.trader != self
    requires 0 <= split.proceeds && 0 <= split.fee && split.proceeds + split.fee == amount
    requires TransferOn(t1, signers, i.buyToken, solver, self, amount).Some?
    ensures var t2 := TransferOn(t1, signers, i.buyToken, solver, self, amount).value;
            var t3 := TransferOn(t2, signers, i.buyToken, self, i.trader, split.proceeds);
            && (t3.Some? <==> Holding(t1, i.buyToken, i.trader) + split.proceeds <= I128_MAX)
            && (t3.Some? ==> TransferOn(t3.value, signers, i.buyToken, self, solver, split.fee).Some?)
  {
    var buy := i.buyToken;
    var t2 := TransferOn(t1, signers, buy, solver, self, amount).value;
    TransferOnTouches(t1, signers, buy, solver, self, amount);
    TransferOnMoves(t1, signers, buy, solver, self, amount, buy, self);
    TransferOnMoves(t1, signers, buy, solver, self, amount, buy, solver);
    TransferOnMoves(t1, signers, buy, solver, self, amount, buy, i.trader);
    TransferOnExactly(t2, signers, buy, self, i.trader, split.proceeds);
    var s3 := TransferOn(t2, signers, buy, self, i.trader, split.proceeds);
    if s3.Some? {
      TransferOnTouches(t2, signers, buy, self, i.trader, split.proceeds);
      TransferOnMoves(t2, signers, buy, self, i.trader, split.proceeds, buy, self);
      TransferOnMoves(t2, signers, buy, self, i.trader, split.proceeds, buy, solver);
      TransferOnExactly(s3.value, signers, buy, self, solver, split.fee);
    }
  }

  /** What a settled fill adds to the holding of `a`: the trader pays the sold amount for the
      proceeds, the solver the other way round, and the router keeps nothing. */
  function FillDelta(solver: Address, i: TraderIntent, proceeds: int, token: Address, a: Address): int {
    (if token == i.sellToken then On(a, solver, i.sellAmount) - On(a, i.trader, i.sellAmount) else 0)
    + (if token == i.buyToken then On(a, i.trader, proceeds) - On(a, solver, proceeds) else 0)
  }

  /** The addresses whose balance entries a settled fill writes. */
  function FillTouches(chain: Chain, solver: Address, i: TraderIntent, token: Address): set<Address> {
    (if token == i.sellToken then {i.trader, solver} else {})
    + (if token == i.buyToken then {i.trader, solver, chain.self} else {})
  }

  /** The ledgers between the transfers of a settled fill. */
  lemma SettleSteps(chain: Chain, tokens: Tokens, auths: set<Address>, solver: Address, i: TraderIntent, amount: int,
                    split: Split)
    returns (t1: Tokens, t2: Tokens, t3: Tokens)
    requires Settle(chain, tokens, auths, solver, i, amount, split).Some?
    ensures var signers, self := auths + {chain.self}, chain.self;
            && TransferOn(tokens, signers, i.sellToken, i.trader, solver, i.sellAmount) == Some(t1)
            && TransferOn(t1, signers, i.buyToken, solver, self, amount) == Some(t2)
            && TransferOn(t2, signers, i.buyToken, self, i.trader, split.proceeds) == Some(t3)
            && Settle(chain, tokens, auths, solver, i, amount, split)
               == if split.fee > 0 then TransferOn(t3, signers, i.buyToken, self, solver, split.fee) else Some(t3)
  {
    var signers, self := auths + {chain.self}, chain.self;
    t1 := TransferOn(tokens, signers, i.sellToken, i.trader, solver, i.sellAmount).value;
    t2 := TransferOn(t1, signers, i.buyToken, solver, self, amount).value;
    t3 := TransferOn(t2, signers, i.buyToken, self, i.trader, split.proceeds).value;
  }

  lemma PayInMoves(tokens: Tokens, signers: set<Address>, self: Address, solver: Address, i: TraderIntent, amount: int,
                   t1: Tokens, t2: Tokens, t: Address, a: Address)
    requires TransferOn(tokens, signers, i.sellToken, i.trader, solver, i.sellAmount) == Some(t1)
    requires TransferOn(t1, signers, i.buyToken, solver, self, amount) == Some(t2)
    ensures Holding(t2, t, a) == Holding(tokens, t, a)
              + (if t == i.sellToken then On(a, solver, i.sellAmount) - On(a, i.trader, i.sellAmount) else 0)
              + (if t == i.buyToken then On(a, self, amount) - On(a, solver, amount) else 0)
  {
    TransferOnMoves(tokens, signers, i.sellToken, i.trader, solver, i.sellAmount, t, a);
    TransferOnMoves(t1, signers, i.buyToken, solver, self, amount, t, a);
  }

  lemma PayOutMoves(t2: Tokens, signers: set<Address>, self: Address, solver: Address, i: TraderIntent, split: Split,
                    t3: Tokens, t4: Tokens, t: Address, a: Address)
    requires TransferOn(t2, signers, i.buyToken, self, i.trader, split.proceeds) == Some(t3)
    requires if split.fee > 0 then TransferOn(t3, signers, i.buyToken, self, solver, split.fee) == Some(t4)
             else t4 == t3 && split.fee == 0
    ensures Holding(t4, t, a) == Holding(t2, t, a)
              + (if t == i.buyToken then
                   On(a, i.trader, split.proceeds) + On(a, solver, split.fee) - On(a, self, split.proceeds + split.fee)
                 else 0)
  {
    TransferOnMoves(t2, signers, i.buyToken, self, i.trader, split.proceeds, t, a);
    if split.fee > 0 { TransferOnMoves(t3, signers, i.buyToken, self, solver, split.fee, t, a); }
  }

  /** Whatever the addresses and tokens have in common, a settled fill changes holdings by
      exactly `FillDelta`. */
  lemma SettleMoves(chain: Chain, tokens: Tokens, auths: set<Address>, solver: Address, i: TraderIntent, amount: int,
                    split: Split, t: Address, a: Address)
    requires Settle(chain, tokens, auths, solver, i, amount, split).Some?
    requires 0 <= split.fee && split.proceeds + split.fee == amount
    ensures Holding(Settle(chain, tokens, auths, solver, i, amount, split).value, t, a)
         == Holding(tokens, t, a) + FillDelta(solver, i, split.proceeds, t, a)
  {
    var signers, self := auths + {chain.self}, chain.self;
    var t1, t2, t3 := SettleSteps(chain, tokens, auths, solver, i, amount, split);
    var t4 := Settle(chain, tokens, auths, solver, i, amount, split).value;
    PayInMoves(tokens, signers, self, solver, i, amount, t1, t2, t, a);
    PayOutMoves(t2, signers, self, solver, i, split, t3, t4, t, a);
  }

  /** Only balances on the order's two tokens are written, of the parties and the router, and
      every token's supply is conserved. */
  lemma SettleTouches(chain: Chain, tokens: Tokens, auths: set<Address>, solver: Address, i: TraderIntent, amount: int,
                      split: Split)
    requires Settle(chain, tokens, auths, solver, i, amount, split).Some?
    ensures var after := Settle(chain, tokens, auths, solver, i, amount, split).value;
            && after.Keys == tokens.Keys
            && (SolventTokens(tokens) ==> SolventTokens(after))
            && forall t :: Touches(tokens, after, t, FillTouches(chain, solver, i, t))
  {
    var signers, self := auths + {chain.self}, chain.self;
    var t1, t2, t3 := SettleSteps(chain, tokens, auths, solver, i, amount, split);
    var after := Settle(chain, tokens, auths, solver, i, amount, split).value;
    TransferOnTouches(tokens, signers, i.sellToken, i.trader, solver, i.sellAmount);
    TransferOnTouches(t1, signers, i.buyToken, solver, self, amount);
    TransferOnTouches(t2, signers, i.buyToken, self, i.trader, split.proceeds);
    if split.fee > 0 { TransferOnTouches(t3, signers, i.buyToken, self, solver, split.fee); }
    forall t ensures Touches(tokens, after, t, FillTouches(chain, solver, i, t)) {
      TouchesFill(chain, tokens, t1, t2, t3, after, solver, i, t);
    }
  }

  lemma TouchesFill(chain: Chain, tokens: Tokens, t1: Tokens, t2: Tokens, t3: Tokens, after: Tokens, solver: Address,
                    i: TraderIntent, t: Address)
    requires Touches(tokens, t1, t, MoveTouches(i.sellToken, i.trader, solver, t))
    requires Touches(t1, t2, t, MoveTouches(i.buyToken, solver, chain.self, t))
    requires Touches(t2, t3, t, MoveTouches(i.buyToken, chain.self, i.trader, t))
    requires after == t3 || Touches(t3, after, t, MoveTouches(i.buyToken, chain.self, solver, t))
    ensures Touches(tokens, after, t, FillTouches(chain, solver, i, t))
  {
    var a, b := MoveTouches(i.sellToken, i.trader, solver, t), MoveTouches(i.buyToken, solver, chain.self, t);
    var c, d := MoveTouches(i.buyToken, chain.self, i.trader, t), MoveTouches(i.buyToken, chain.self, solver, t);
    TouchesChain(tokens, t1, t2, t, a, b);
    TouchesChain(tokens, t2, t3, t, a + b, c);
    if after != t3 {
      TouchesChain(tokens, t3, after, t, a + b + c, d);
      assert a + b + c + d == a + b + c;
    }
    assert a + b + c == FillTouches(chain, solver, i, t);
  }

  lemma TouchesChain(a: Tokens, b: Tokens, c: Tokens, t: Address, first: set<Address>, second: set<Address>)
    requires Touches(a, b, t, first) && Touches(b, c, t, second)
    ensures Touches(a, c, t, first + second)
  {
  }

  /** A call that the router admits succeeds exactly when the fill can settle; what is left
      undone is never a partial settlement, since a trap is undone whole. */
  lemma ExecutesExactly(chain: Chain, w: World, auths: set<Address>, now: int, solver: Address, i: TraderIntent,
                        amount: int)
    requires i.Representable() && FitsI128(amount) && SolventTokens(w.tokens)
    requires solver != chain.self && i.trader != chain.self
    ensures ExecuteIn(chain, w, auths, now, solver, i, amount).Done?
       <==> var admitted := Admit(chain, w.store, auths, now, solver, i, amount);
            admitted.Done? && CanSettle(chain, w.tokens, solver, i, amount, admitted.value.split)
  {
    AdmittedExactly(chain, w.store, auths, now, solver, i, amount);
    var admitted := Admit(chain, w.store, auths, now, solver, i, amount);
    if admitted.Done? {
      FeeFacts(amount, i.solverFeeBps);
      SettlesExactly(chain, w.tokens, auths, solver, i, amount, admitted.value.split);
    }
  }
}
