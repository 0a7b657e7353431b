/** Runs on honest tokens are runs of the machine under hostile ones in which no token calls
    back, so what holds in every state of the machine holds after every such run. */
module HonestRuns {
  import opened Protocol
  import opened RouterSpec
  import opened Transactions
  import opened Journal
  import opened Reentrancy

  lemma {:induction false} StepsJoin(chain: Chain, m: Machine, first: seq<Action>, second: seq<Action>)
    requires Steps(chain, m, first).Some?
    ensures Steps(chain, m, first + second) == Steps(chain, Steps(chain, m, first).value, second)
  {
    if second == [] {
      assert first + second == first;
    } else {
      var earlier := second[..|second| - 1];
      StepsJoin(chain, m, first, earlier);
      assert (first + second)[..|first + second| - 1] == first + earlier;
    }
  }

  lemma OneStep(chain: Chain, m: Machine, a: Action)
    requires Enabled(m, a)
    ensures Steps(chain, m, [a]) == Some(Next(chain, m, a))
  {
    assert [a][..0] == [];
  }

  /** The transfers of the frame on top return one after another. */
  lemma {:induction false} TransfersReturn(chain: Chain, m: Machine, n: nat) returns (actions: seq<Action>)
    requires m.frames != [] && Top(m).FillFrame? && Top(m).pending == n
    ensures Steps(chain, m, actions) == Some(m.(frames := Below(m) + [Top(m).(pending := 0)]))
    decreases n
  {
    if n == 0 {
      actions := [];
      assert m.frames == Below(m) + [Top(m)];
    } else {
      OneStep(chain, m, TransferReturns);
      var others := TransfersReturn(chain, ReturnStep(m), n - 1);
      actions := [TransferReturns] + others;
      StepsJoin(chain, m, [TransferReturns], others);
    }
  }

  /** The fill on top runs to its end: its transfers return and it writes its receipt. */
  lemma TopRunsThrough(chain: Chain, m: Machine) returns (actions: seq<Action>)
    requires m.frames != [] && Top(m).FillFrame?
    ensures var fill := Top(m).fill;
            var receipt := ReceiptOf(fill.ticket.hash, fill.solver, fill.amount, fill.now);
            Steps(chain, m, actions) == Some(m.(store := StoreReceipt(m.store, receipt), frames := Below(m)))
  {
    var returned := TransfersReturn(chain, m, Top(m).pending);
    var m' := m.(frames := Below(m) + [Top(m).(pending := 0)]);
    assert Below(m') == Below(m) && Finishes(m');
    OneStep(chain, m', FillFinishes);
    StepsJoin(chain, m, returned, [FillFinishes]);
    actions := returned + [FillFinishes];
  }

  /** A fill whose transfers all return leaves the store that the honest fill leaves. */
  lemma FillRunsThrough(chain: Chain, m: Machine, auths: set<Address>, solver: Address, i: TraderIntent, amount: int)
    returns (actions: seq<Action>)
    requires m.frames == [] && i.Representable() && FitsI128(amount)
    requires Admit(chain, m.store, auths, m.clock, solver, i, amount).Done?
    ensures var ticket := Admit(chain, m.store, auths, m.clock, solver, i, amount).value;
            var end := Steps(chain, m, actions);
            && end.Some? && end.value.frames == []
            && end.value.store
              == StoreReceipt(Commit(m.store, ticket.hash, i), ReceiptOf(ticket.hash, solver, amount, m.clock))
  {
    var call := CallExecute(auths, solver, i, amount);
    var m1 := ExecuteStep(chain, m, auths, solver, i, amount);
    OneStep(chain, m, call);
    var others := TopRunsThrough(chain, m1);
    StepsJoin(chain, m, [call], others);
    actions := [call] + others;
  }

  lemma ClockRuns(chain: Chain, m: Machine, now: int, actions: seq<Action>)
    requires m.frames == [] && Steps(chain, m.(clock := now), actions).Some?
    ensures Steps(chain, m, [LedgerCloses(now)] + actions) == Steps(chain, m.(clock := now), actions)
  {
    OneStep(chain, m, LedgerCloses(now));
    StepsJoin(chain, m, [LedgerCloses(now)], actions);
  }

  /** One transaction, seen by the machine at rest. */
  lemma TransactionIsMachineRun(chain: Chain, m: Machine, w: World, tx: Tx) returns (actions: seq<Action>)
    requires m.frames == [] && m.store == w.store
    ensures var end := Steps(chain, m, actions);
            end.Some? && end.value.frames == [] && end.value.store == Post(chain, w, tx).store
  {
    actions := [];
    if Attempt(chain, w, tx).Done? {
      match tx.invocation
      case Init(admin) =>
        actions := [CallInit(tx.auths, admin)];
        OneStep(chain, m, CallInit(tx.auths, admin));
      case Cancel(i) =>
        actions := [CallCancel(tx.auths, i)];
        OneStep(chain, m, CallCancel(tx.auths, i));
      case Execute(solver, i, amount) =>
        ExecuteSettles(chain, w, tx);
        var fill := FillRunsThrough(chain, m.(clock := tx.now), tx.auths, solver, i, amount);
        ClockRuns(chain, m, tx.now, fill);
        actions := [LedgerCloses(tx.now)] + fill;
      case OnToken(_, _) =>
    }
  }

  /** After any run on honest tokens from an empty store, the store is one the machine reaches
      at rest. */
  lemma {:induction false} HonestStoresAreReachable(chain: Chain, w: World, txs: seq<Tx>, m: Machine)
    returns (end: Machine)
    requires Reachable(chain, m) && m.frames == [] && m.store == w.store
    ensures Reachable(chain, end) && end.frames == [] && end.store == Run(chain, w, txs).store
    decreases |txs|
  {
    if txs == [] {
      end := m;
    } else {
      var actions := TransactionIsMachineRun(chain, m, w, txs[0]);
      var before :| Steps(chain, START, before) == Some(m);
      StepsJoin(chain, START, before, actions);
      end := HonestStoresAreReachable(chain, Post(chain, w, txs[0]), txs[1..], Steps(chain, m, actions).value);
    }
  }

  /** So after every run of transactions on honest tokens an intent reads filled exactly when
      it has a receipt, and every receipt is filed under its own hash. */
  lemma FilledIffReceipt(chain: Chain, tokens: Tokens, txs: seq<Tx>, h: Hash)
    ensures var store := Run(chain, World(EMPTY_STORE, tokens), txs).store;
            && (StatusOf(store.statuses, h) == Filled <==> h in store.receipts)
            && (h in store.receipts ==> store.receipts[h].intentHash == h)
            && (h in store.statuses ==> store.statuses[h] in {Filled, Cancelled})
  {
    assert Steps(chain, START, []) == Some(START);
    var end := HonestStoresAreReachable(chain, World(EMPTY_STORE, tokens), txs, START);
    FilledWithoutReceiptIsInFlight(chain, end);
    ReceiptsAreTrue(chain, end, h);
  }
}
