/** The router contract over its persistent storage and the deployed tokens, and the host that
    undoes a call that traps. */
module RouterContract {
  import opened Protocol
  import opened FillMath
  import opened TokenLedger
  import opened RouterSpec
  import opened MockTokenContract
  import opened Transactions

  /** The router's entries: the admin in instance storage, the rest persistent. */
  class Storage {
    var admin: Option<Address>
    var statuses: map<Hash, IntentStatus>
    var receipts: map<Hash, FillReceipt>
    var usedNonces: set<NonceKey>

    constructor ()
      ensures State() == EMPTY_STORE
    {
      admin, statuses, receipts, usedNonces := None, map[], map[], {};
    }

    function State(): Store
      reads this
    {
      Store(admin, statuses, receipts, usedNonces)
    }

    function GetIntentStatus(h: Hash): (status: IntentStatus)
      reads this
      ensures status == StatusOf(State().statuses, h)
    {
      if h in statuses then statuses[h] else Active
    }

    predicate IsNonceUsed(trader: Address, nonce: int)
      reads this
    {
      (trader, nonce) in usedNonces
    }

    method SetAdmin(newAdmin: Address)
      modifies this
      ensures State() == old(State()).(admin := Some(newAdmin))
    {
      admin := Some(newAdmin);
    }

    method SetIntentStatus(h: Hash, status: IntentStatus)
      modifies this
      ensures State() == old(State()).(statuses := old(statuses)[h := status])
    {
      statuses := statuses[h := status];
    }

    method SetFillReceipt(h: Hash, receipt: FillReceipt)
      modifies this
      ensures State() == old(State()).(receipts := old(receipts)[h := receipt])
    {
      receipts := receipts[h := receipt];
    }

    method SetNonceUsed(trader: Address, nonce: int)
      modifies this
      ensures State() == old(State()).(usedNonces := old(usedNonces) + {(trader, nonce)})
    {
      usedNonces := usedNonces + {(trader, nonce)};
    }
  }

  /** The token contracts by address: two addresses are two contracts. */
  type Registry = map<Address, MockToken>

  ghost predicate Distinct(registry: Registry) {
    forall a, b :: a in registry && b in registry && registry[a] == registry[b] ==> a == b
  }

  function Ledgers(registry: Registry): Tokens
    reads registry.Values
  {
    map a | a in registry :: registry[a].State()
  }

  class SlipGuardRouter {
    const chain: Chain
    const storage: Storage

    constructor (chain: Chain)
      ensures fresh(storage) && this.chain == chain && storage.State() == EMPTY_STORE
    {
      this.chain := chain;
      this.storage := new Storage();
    }

    method Initialize(auths: set<Address>, admin: Address) returns (out: Outcome<()>)
      modifies storage
      ensures match InitIn(old(storage.State()), auths, admin)
              case Done(store) => out == Done(()) && storage.State() == store
              case Failed(e) => out == Failed(e) && unchanged(storage)
              case Trapped => out == Trapped && unchanged(storage)
    {
      if storage.admin.Some? { return Failed(AlreadyInitialized); }
      if admin !in auths { return Trapped; }
      storage.SetAdmin(admin);
      return Done(());
    }

    method CancelIntent(auths: set<Address>, intent: TraderIntent) returns (out: Outcome<()>)
      requires intent.Representable()
      modifies storage
      ensures match CancelIn(chain, old(storage.State()), auths, intent)
              case Done(store) => out == Done(()) && storage.State() == store
              case Failed(e) => out == Failed(e) && unchanged(storage)
              case Trapped => out == Trapped && unchanged(storage)
    {
      if intent.trader !in auths { return Trapped; }
      var h := IntentHash(chain, intent);
      if storage.GetIntentStatus(h) != Active { return Failed(IntentNotActive); }
      if storage.IsNonceUsed(intent.trader, intent.nonce) { return Failed(NonceAlreadyUsed); }
      storage.SetIntentStatus(h, Cancelled);
      storage.SetNonceUsed(intent.trader, intent.nonce);
      return Done(());
    }

    /** A call of `transfer` on the token contract at an address. */
    method TransferOn(registry: Registry, auths: set<Address>, token: Address, from: Address, to: Address, amount: int)
      returns (ok: bool)
      requires Distinct(registry)
      modifies registry.Values
      ensures var after := RouterSpec.TransferOn(old(Ledgers(registry)), auths, token, from, to, amount);
              ok == after.Some? && Ledgers(registry) == if ok then after.value else old(Ledgers(registry))
    {
      if token !in registry { return false; }
      ghost var before := Ledgers(registry);
      ok := registry[token].Transfer(auths, from, to, amount);
      forall a | a in registry && a != token ensures registry[a].State() == old(registry[a].State()) {
        assert registry[a] != registry[token];
      }
      assert Ledgers(registry) == before[token := registry[token].State()];
    }

    /** The split computed step by step, with every operation checked. */
    method SplitFill(intent: TraderIntent, amount: int) returns (split: Result<Split>)
      ensures split == Quote(intent, amount)
    {
      var fee := MulBps(amount, intent.solverFeeBps);
      if fee.Err? { return Err(fee.error); }
      var proceeds := CheckedSub(amount, fee.value);
      if proceeds.Err? { return Err(proceeds.error); }
      if proceeds.value < intent.minBuyAmount {
        var shortfall := CheckedSub(intent.minBuyAmount, proceeds.value);
        if shortfall.Err? { return Err(shortfall.error); }
        var scaled := CheckedMul(shortfall.value, BPS_DENOMINATOR);
        if scaled.Err? { return Err(scaled.error); }
        var shortfallBps := CheckedDiv(scaled.value, intent.minBuyAmount);
        if shortfallBps.Err? { return Err(shortfallBps.error); }
        if shortfallBps.value > intent.maxSlippageBps { return Err(SlippageExceeded); }
      }
      return Ok(Split(fee.value, proceeds.value));
    }

    /** The checks of `execute_intent`, in order; they write nothing. */
    method AdmitFill(auths: set<Address>, now: int, solver: Address, intent: TraderIntent, amount: int)
      returns (out: Outcome<Ticket>)
      requires intent.Representable()
      ensures out == Admit(chain, storage.State(), auths, now, solver, intent, amount)
    {
      if solver !in auths { return Trapped; }
      if solver == intent.trader { return Failed(UnauthorizedTrader); }
      if intent.trader !in auths { return Trapped; }
      if intent.sellAmount <= 0 || intent.minBuyAmount <= 0 { return Failed(InvalidAmount); }
      if intent.maxSlippageBps > BPS_DENOMINATOR || intent.solverFeeBps > BPS_DENOMINATOR {
        return Failed(InvalidSlippageBps);
      }
      if now > intent.deadline { return Failed(IntentExpired); }
      if amount < intent.minBuyAmount { return Failed(InsufficientOutput); }

      var h := IntentHash(chain, intent);
      if storage.GetIntentStatus(h) != Active { return Failed(IntentNotActive); }
      if storage.IsNonceUsed(intent.trader, intent.nonce) { return Failed(NonceAlreadyUsed); }
      var quote := SplitFill(intent, amount);
      if quote.Err? { return Failed(quote.error); }
      return Done(Ticket(h, quote.value));
    }

    /** Settles an intent.  A declared error leaves every entry as it was with nothing to undo;
        after a trap the entries are whatever the call had written, for the host to discard. */
    method ExecuteIntent(registry: Registry, auths: set<Address>, now: int, solver: Address, intent: TraderIntent,
                         amount: int)
      returns (out: Outcome<FillReceipt>)
      requires intent.Representable() && Distinct(registry)
      modifies storage, registry.Values
      ensures var before := World(old(storage.State()), old(Ledgers(registry)));
              match ExecuteIn(chain, before, auths, now, solver, intent, amount)
              case Done(r) => out == Done(r.1) && World(storage.State(), Ledgers(registry)) == r.0
              case Failed(e) =>
                out == Failed(e) && unchanged(storage) && forall t :: t in registry.Values ==> unchanged(t)
              case Trapped => out == Trapped
    {
      var admitted := AdmitFill(auths, now, solver, intent, amount);
      if admitted.Trapped? { return Trapped; }
      if admitted.Failed? { return Failed(admitted.error); }
      out := CompleteFill(registry, auths, now, solver, intent, amount, admitted.value);
    }

    /** Effects first, then the transfers, then the receipt. */
    method CompleteFill(registry: Registry, auths: set<Address>, now: int, solver: Address, intent: TraderIntent,
                        amount: int, ticket: Ticket)
      returns (out: Outcome<FillReceipt>)
      requires Distinct(registry)
      modifies storage, registry.Values
      ensures var before := World(old(storage.State()), old(Ledgers(registry)));
              match FinishFill(chain, before, auths, now, solver, intent, amount, ticket)
              case Done(r) => out == Done(r.1) && World(storage.State(), Ledgers(registry)) == r.0
              case _ => out == Trapped
    {
      storage.SetIntentStatus(ticket.hash, Filled);
      storage.SetNonceUsed(intent.trader, intent.nonce);

      var settled := SettleFill(registry, auths, solver, intent, amount, ticket.split);
      if !settled { return Trapped; }

      var receipt := FillReceipt(ticket.hash, solver, amount, now);
      storage.SetFillReceipt(ticket.hash, receipt);
      return Done(receipt);
    }

    /** The three or four transfers of a fill, stopping at the first that traps. */
    method SettleFill(registry: Registry, auths: set<Address>, solver: Address, intent: TraderIntent, amount: int,
                      split: Split)
      returns (ok: bool)
      requires Distinct(registry)
      modifies registry.Values
      ensures var after := Settle(chain, old(Ledgers(registry)), auths, solver, intent, amount, split);
              ok == after.Some? && (ok ==> Ledgers(registry) == after.value)
    {
      var signers, self := auths + {chain.self}, chain.self;
      ok := TransferOn(registry, signers, intent.sellToken, intent.trader, solver, intent.sellAmount);
      if !ok { return; }
      ok := TransferOn(registry, signers, intent.buyToken, solver, self, amount);
      if !ok { return; }
      ok := TransferOn(registry, signers, intent.buyToken, self, intent.trader, split.proceeds);
      if !ok { return; }
      if split.fee > 0 {
        ok := TransferOn(registry, signers, intent.buyToken, self, solver, split.fee);
      }
    }
  }

  /** The host: it keeps the contracts and gives each call an all-or-nothing frame. */
  class Host {
    const router: SlipGuardRouter
    const registry: Registry

    constructor (router: SlipGuardRouter, registry: Registry)
      requires Distinct(registry)
      ensures Valid() && this.router == router && this.registry == registry
    {
      this.router, this.registry := router, registry;
    }

    ghost predicate Valid() { Distinct(registry) }

    function State(): World
      reads router.storage, registry.Values
    {
      World(router.storage.State(), Ledgers(registry))
    }

    /** Puts every entry back to what it was when the frame was entered. */
    method Rollback(entry: World)
      requires Valid() && entry.tokens.Keys == registry.Keys
      modifies router.storage, registry.Values
      ensures State() == entry
    {
      var storage := router.storage;
      storage.admin, storage.statuses := entry.store.admin, entry.store.statuses;
      storage.receipts, storage.usedNonces := entry.store.receipts, entry.store.usedNonces;
      forall a | a in registry.Keys { registry[a].admin := entry.tokens[a].admin; }
      forall a | a in registry.Keys { registry[a].balances := entry.tokens[a].balances; }
      forall a | a in registry.Keys { registry[a].allowances := entry.tokens[a].allowances; }
    }

    /** Submits a fill: the world becomes what the transaction makes of it. */
    method SubmitExecute(tx: Tx) returns (out: Outcome<FillReceipt>)
      requires Valid() && tx.invocation.Execute? && tx.WellTyped()
      modifies router.storage, registry.Values
      ensures State() == Post(router.chain, old(State()), tx)
      ensures match Attempt(router.chain, old(State()), tx)
              case Done(w) =>
                && out.Done? && out.value.intentHash in w.store.receipts
                && w.store.receipts[out.value.intentHash] == out.value
              case Failed(e) => out == Failed(e)
              case Trapped => out == Trapped
    {
      var entry := State();
      var Execute(solver, intent, amount) := tx.invocation;
      out := router.ExecuteIntent(registry, tx.auths, tx.now, solver, intent, amount);
      if out.Trapped? { Rollback(entry); }
    }

    /** Submits any transaction; tells whether it succeeded. */
    method Submit(tx: Tx) returns (ok: bool)
      requires Valid()
      modifies router.storage, registry.Values
      ensures State() == Post(router.chain, old(State()), tx)
      ensures ok == Attempt(router.chain, old(State()), tx).Done?
    {
      if !tx.WellTyped() { return false; }
      match tx.invocation
      case Init(admin) =>
        var out := router.Initialize(tx.auths, admin);
        return out.Done?;
      case Execute(_, _, _) =>
        var out := SubmitExecute(tx);
        return out.Done?;
      case Cancel(intent) =>
        var out := router.CancelIntent(tx.auths, intent);
        return out.Done?;
      case OnToken(token, call) =>
        ok := SubmitToken(tx.auths, tx.sequence, token, call);
    }

    method SubmitToken(auths: set<Address>, sequence: int, token: Address, call: TokenCall) returns (ok: bool)
      requires Valid()
      modifies registry.Values
      ensures var tokens := old(State().tokens);
              var after := if token in tokens then Call(tokens[token], auths, sequence, call) else None;
              && ok == after.Some?
              && State() == old(State()).(tokens := if ok then tokens[token := after.value] else tokens)
    {
      if token !in registry { return false; }
      ghost var before := Ledgers(registry);
      ok := registry[token].Receive(auths, sequence, call);
      forall a | a in registry && a != token ensures registry[a].State() == old(registry[a].State()) {
        assert registry[a] != registry[token];
      }
      assert Ledgers(registry) == before[token := registry[token].State()];
    }

    /** Transactions one after another: the world becomes that of the run. */
    method SubmitAll(txs: seq<Tx>)
      requires Valid()
      modifies router.storage, registry.Values
      ensures State() == Run(router.chain, old(State()), txs)
    {
      assert txs[0..] == txs;
      for k := 0 to |txs|
        invariant Run(router.chain, State(), txs[k..]) == Run(router.chain, old(State()), txs)
      {
        assert txs[k..][0] == txs[k] && txs[k..][1..] == txs[k + 1..];
        var _ := Submit(txs[k]);
      }
    }
  }
}
