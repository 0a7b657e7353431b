/** The order in which transactions settle does not matter: two runs from one world whose
    successful transactions are the same, in whatever order, end with the same storage and
    the same balances, and in the same world unless an approval met another call on its
    allowance in another order. */
module Confluence {
  import opened Protocol
  import opened TokenLedger
  import opened RouterSpec
  import opened Transactions
  import opened Journal

  /** The intent a transaction claims. */
  predicate Claims(chain: Chain, tx: Tx, h: Hash) {
    && tx.WellTyped()
    && match tx.invocation
       case Execute(_, i, _) => IntentHash(chain, i) == h
       case Cancel(i) => IntentHash(chain, i) == h
       case _ => false
  }

  predicate ClaimsKey(tx: Tx, k: NonceKey) {
    match tx.invocation
    case Execute(_, i, _) => i.Key() == k
    case Cancel(i) => i.Key() == k
    case _ => false
  }

  /** What the router stores about one intent. */
  datatype Record = Record(status: Option<IntentStatus>, receipt: Option<FillReceipt>)

  function RecordOf(s: Store, h: Hash): Record {
    Record(if h in s.statuses then Some(s.statuses[h]) else None,
           if h in s.receipts then Some(s.receipts[h]) else None)
  }

  /** The record a successful claim leaves over what was there. */
  function Claimed(tx: Tx, h: Hash, before: Record): Record {
    match tx.invocation
    case Execute(solver, _, amount) => Record(Some(Filled), Some(ReceiptOf(h, solver, amount, tx.now)))
    case _ => before.(status := Some(Cancelled))
  }

  lemma AttemptRecords(chain: Chain, w: World, tx: Tx, h: Hash)
    requires Attempt(chain, w, tx).Done?
    ensures var before, after := RecordOf(w.store, h), RecordOf(Attempt(chain, w, tx).value.store, h);
            if Claims(chain, tx, h) then StatusOf(w.store.statuses, h) == Active && after == Claimed(tx, h, before)
            else after == before
  {
  }

  /** After a run an intent's record is what its one successful claim left, or untouched; an
      intent that is not active is never claimed again. */
  lemma {:induction false} RunRecords(chain: Chain, w: World, txs: seq<Tx>, h: Hash)
    ensures var log := Applied(chain, w, txs);
            var before, after := RecordOf(w.store, h), RecordOf(Run(chain, w, txs).store, h);
            && (forall tx :: tx in log && Claims(chain, tx, h) ==>
                  StatusOf(w.store.statuses, h) == Active && after == Claimed(tx, h, before))
            && ((forall tx :: tx in log ==> !Claims(chain, tx, h)) ==> after == before)
    decreases |txs|
  {
    if txs != [] {
      var tx, w' := txs[0], Post(chain, w, txs[0]);
      RunRecords(chain, w', txs[1..], h);
      if Attempt(chain, w, tx).Done? {
        AttemptRecords(chain, w, tx, h);
        AppliedFirst(chain, w, txs);
        assert forall x :: x in Applied(chain, w, txs) <==> x == tx || x in Applied(chain, w', txs[1..]);
      } else {
        AppliedSkips(chain, w, txs);
      }
    }
  }

  ghost predicate KeyIn(log: seq<Tx>, k: NonceKey) {
    exists tx :: tx in log && ClaimsKey(tx, k)
  }

  lemma AttemptNonces(chain: Chain, w: World, tx: Tx, k: NonceKey)
    requires Attempt(chain, w, tx).Done?
    ensures k in Attempt(chain, w, tx).value.store.usedNonces <==> k in w.store.usedNonces || ClaimsKey(tx, k)
  {
  }

  lemma {:induction false} RunNonces(chain: Chain, w: World, txs: seq<Tx>, k: NonceKey)
    ensures k in Run(chain, w, txs).store.usedNonces <==> k in w.store.usedNonces || KeyIn(Applied(chain, w, txs), k)
    decreases |txs|
  {
    if txs != [] {
      var tx, w' := txs[0], Post(chain, w, txs[0]);
      RunNonces(chain, w', txs[1..], k);
      if Attempt(chain, w, tx).Done? {
        AttemptNonces(chain, w, tx, k);
        AppliedFirst(chain, w, txs);
        var log, others := Applied(chain, w, txs), Applied(chain, w', txs[1..]);
        assert forall x :: x in log <==> x == tx || x in others;
        assert KeyIn(log, k) <==> ClaimsKey(tx, k) || KeyIn(others, k);
      } else {
        AppliedSkips(chain, w, txs);
      }
    }
  }

  lemma {:induction false} RunAdmin(chain: Chain, w: World, txs: seq<Tx>)
    ensures var log, before, after := Applied(chain, w, txs), w.store.admin, Run(chain, w, txs).store.admin;
            && (forall tx :: tx in log && tx.invocation.Init? ==> before.None? && after == Some(tx.invocation.admin))
            && ((forall tx :: tx in log ==> !tx.invocation.Init?) ==> after == before)
    decreases |txs|
  {
    if txs != [] {
      var tx, w' := txs[0], Post(chain, w, txs[0]);
      RunAdmin(chain, w', txs[1..]);
      if Attempt(chain, w, tx).Done? {
        AppliedFirst(chain, w, txs);
        assert forall x :: x in Applied(chain, w, txs) <==> x == tx || x in Applied(chain, w', txs[1..]);
      } else {
        AppliedSkips(chain, w, txs);
      }
    }
  }

  /** The balance entries a transaction writes on a token. */
  function Written(chain: Chain, tx: Tx, t: Address): set<Address> {
    match tx.invocation
    case Execute(solver, i, _) => FillTouches(chain, solver, i, t)
    case OnToken(token, call) => if t == token then CallTouches(call) else {}
    case _ => {}
  }

  /** Two sets of balances of a token, the second with the entries of `written` added. */
  ghost predicate Extends(tokens: Tokens, after: Tokens, t: Address, written: iset<Address>) {
    && (t in after <==> t in tokens)
    && (t in tokens ==> forall a :: a in after[t].balances <==> a in tokens[t].balances || a in written)
  }

  lemma AttemptExtends(chain: Chain, w: World, tx: Tx, t: Address)
    requires Attempt(chain, w, tx).Done?
    ensures Extends(w.tokens, Attempt(chain, w, tx).value.tokens, t, iset a | a in Written(chain, tx, t))
  {
    match tx.invocation
    case Execute(solver, i, amount) =>
      ExecuteKeepsLedgers(chain, w, tx);
      assert Touches(w.tokens, Attempt(chain, w, tx).value.tokens, t, FillTouches(chain, solver, i, t));
    case OnToken(token, call) => CallAccounts(w.tokens[token], tx.auths, tx.sequence, call);
    case _ =>
  }

  ghost function WrittenBy(chain: Chain, log: seq<Tx>, t: Address): iset<Address> {
    iset tx, a | tx in log && a in Written(chain, tx, t) :: a
  }

  lemma {:induction false} RunExtends(chain: Chain, w: World, txs: seq<Tx>, t: Address)
    ensures Extends(w.tokens, Run(chain, w, txs).tokens, t, WrittenBy(chain, Applied(chain, w, txs), t))
    decreases |txs|
  {
    if txs != [] {
      var tx, w' := txs[0], Post(chain, w, txs[0]);
      if Attempt(chain, w, tx).Done? {
        AppliedFirst(chain, w, txs);
        var log, others := Applied(chain, w, txs), Applied(chain, w', txs[1..]);
        assert forall x :: x in log <==> x == tx || x in others;
        RunExtends(chain, w', txs[1..], t);
        AttemptExtends(chain, w, tx, t);
        assert WrittenBy(chain, log, t) == (iset a | a in Written(chain, tx, t)) + WrittenBy(chain, others, t);
      } else {
        AppliedSkips(chain, w, txs);
        RunExtends(chain, w, txs[1..], t);
      }
    }
  }

  // ----- permutations -----

  function Sum<T>(s: seq<T>, f: T -> int): int {
    if s == [] then 0 else f(s[0]) + Sum(s[1..], f)
  }

  lemma {:induction false} SumSplit<T>(s: seq<T>, k: nat, f: T -> int)
    requires k < |s|
    ensures Sum(s, f) == f(s[k]) + Sum(s[..k] + s[k + 1..], f)
  {
    var others := s[..k] + s[k + 1..];
    if k == 0 {
      assert others == s[1..];
    } else {
      SumSplit(s[1..], k - 1, f);
      assert others[1..] == s[1..][..k - 1] + s[1..][k..] && others[0] == s[0];
    }
  }

  lemma Without<T>(s: seq<T>, k: nat)
    requires k < |s|
    ensures multiset(s[..k] + s[k + 1..]) == multiset(s) - multiset{s[k]}
  {
    assert s == s[..k] + [s[k]] + s[k + 1..];
  }

  lemma {:induction false} SumIsOrderFree<T>(s: seq<T>, other: seq<T>, f: T -> int)
    requires multiset(s) == multiset(other)
    ensures Sum(s, f) == Sum(other, f)
    decreases |s|
  {
    if s == [] {
      assert |multiset(other)| == 0;
    } else {
      assert s[0] in multiset(other);
      var k :| 0 <= k < |other| && other[k] == s[0];
      var others := other[..k] + other[k + 1..];
      assert multiset(s[1..]) == multiset(others) by {
        Without(s, 0);
        assert s[..0] + s[1..] == s[1..];
        Without(other, k);
      }
      SumIsOrderFree(s[1..], others, f);
      SumSplit(other, k, f);
    }
  }

  lemma {:induction false} DeltasAreSum(log: seq<Tx>, t: Address, a: Address, f: Tx -> int)
    requires forall tx :: f(tx) == Delta(tx, t, a)
    ensures SumDelta(log, t, a) == Sum(log, f)
  {
    if log != [] { DeltasAreSum(log[1..], t, a, f); }
  }

  lemma DeltasAreOrderFree(log: seq<Tx>, other: seq<Tx>, t: Address, a: Address)
    requires multiset(log) == multiset(other)
    ensures SumDelta(log, t, a) == SumDelta(other, t, a)
  {
    var f := (tx: Tx) => Delta(tx, t, a);
    DeltasAreSum(log, t, a, f);
    DeltasAreSum(other, t, a, f);
    SumIsOrderFree(log, other, f);
  }

  lemma SameTransactions(log: seq<Tx>, other: seq<Tx>)
    requires multiset(log) == multiset(other)
    ensures forall tx :: tx in log <==> tx in other
  {
    assert forall tx :: tx in log <==> tx in multiset(log);
    assert forall tx :: tx in other <==> tx in multiset(other);
  }

  // ----- admins and allowances of tokens -----

  function AdminOf(tokens: Tokens, t: Address): Option<Address> {
    if t in tokens then tokens[t].admin else None
  }

  predicate SetsUp(tx: Tx, t: Address) {
    tx.invocation.OnToken? && tx.invocation.token == t && tx.invocation.call.Initialize?
  }

  lemma AttemptTokenAdmin(chain: Chain, w: World, tx: Tx, t: Address)
    requires Attempt(chain, w, tx).Done?
    ensures var before, after := AdminOf(w.tokens, t), AdminOf(Attempt(chain, w, tx).value.tokens, t);
            if SetsUp(tx, t) then before.None? && after == Some(tx.invocation.call.admin) else after == before
  {
    if tx.invocation.Execute? {
      ExecuteKeepsLedgers(chain, w, tx);
      var Execute(solver, i, _) := tx.invocation;
      assert Touches(w.tokens, Attempt(chain, w, tx).value.tokens, t, FillTouches(chain, solver, i, t));
    }
  }

  lemma {:induction false} RunTokenAdmin(chain: Chain, w: World, txs: seq<Tx>, t: Address)
    ensures var log := Applied(chain, w, txs);
            var before, after := AdminOf(w.tokens, t), AdminOf(Run(chain, w, txs).tokens, t);
            && (forall tx :: tx in log && SetsUp(tx, t) ==> before.None? && after == Some(tx.invocation.call.admin))
            && ((forall tx :: tx in log ==> !SetsUp(tx, t)) ==> after == before)
    decreases |txs|
  {
    if txs != [] {
      var tx, w' := txs[0], Post(chain, w, txs[0]);
      RunTokenAdmin(chain, w', txs[1..], t);
      if Attempt(chain, w, tx).Done? {
        AttemptTokenAdmin(chain, w, tx, t);
        AppliedFirst(chain, w, txs);
        assert forall x :: x in Applied(chain, w, txs) <==> x == tx || x in Applied(chain, w', txs[1..]);
      } else {
        AppliedSkips(chain, w, txs);
      }
    }
  }

  /** The owner and the spender of an allowance. */
  type Pair = (Address, Address)

  /** The allowance on `t` that a transaction approves or spends. */
  function AllowanceUsed(tx: Tx, t: Address): Option<Pair> {
    match tx.invocation
    case OnToken(token, call) =>
      if token != t then None
      else
        (match call
         case TransferFrom(spender, from, _, _) => Some((from, spender))
         case BurnFrom(spender, from, _) => Some((from, spender))
         case Approve(from, spender, _, _) => Some((from, spender))
         case _ => None)
    case _ => None
  }

  predicate Uses(tx: Tx, t: Address, p: Pair) { AllowanceUsed(tx, t) == Some(p) }

  predicate IsApproval(tx: Tx) { tx.invocation.OnToken? && tx.invocation.call.Approve? }

  function Approved(tx: Tx): AllowanceData
    requires IsApproval(tx)
  {
    AllowanceData(tx.invocation.call.amount, tx.invocation.call.expirationLedger)
  }

  /** What a transaction spends of an allowance. */
  function SpentBy(tx: Tx, t: Address, p: Pair): int {
    if !Uses(tx, t, p) then 0
    else
      match tx.invocation.call
      case TransferFrom(_, _, _, amount) => amount
      case BurnFrom(_, _, amount) => amount
      case _ => 0
  }

  function EntryOf(tokens: Tokens, t: Address, p: Pair): Option<AllowanceData> {
    if t in tokens && p in tokens[t].allowances then Some(tokens[t].allowances[p]) else None
  }

  function DataOf(e: Option<AllowanceData>): AllowanceData {
    if e.Some? then e.value else AllowanceData(0, 0)
  }

  /** The entry `after` is what one successful transaction leaves of `before`. */
  predicate Leaves(before: Option<AllowanceData>, tx: Tx, after: Option<AllowanceData>, t: Address, p: Pair) {
    if !Uses(tx, t, p) then after == before
    else if IsApproval(tx) then after == Some(Approved(tx))
    else
      var data := DataOf(before);
      var left := if data.expirationLedger > tx.sequence then data.amount else 0;
      && 0 <= SpentBy(tx, t, p) <= left
      && after == Some(AllowanceData(left - SpentBy(tx, t, p), data.expirationLedger))
  }

  lemma ExecuteLeavesAllowances(chain: Chain, w: World, tx: Tx, t: Address, p: Pair)
    requires tx.invocation.Execute? && Attempt(chain, w, tx).Done?
    ensures EntryOf(Attempt(chain, w, tx).value.tokens, t, p) == EntryOf(w.tokens, t, p)
  {
    ExecuteKeepsLedgers(chain, w, tx);
    var Execute(solver, i, _) := tx.invocation;
    assert Touches(w.tokens, Attempt(chain, w, tx).value.tokens, t, FillTouches(chain, solver, i, t));
  }

  lemma CallLeavesAllowances(chain: Chain, w: World, tx: Tx, t: Address, p: Pair)
    requires tx.invocation.OnToken? && Attempt(chain, w, tx).Done?
    ensures Leaves(EntryOf(w.tokens, t, p), tx, EntryOf(Attempt(chain, w, tx).value.tokens, t, p), t, p)
  {
  }

  lemma AttemptAllowance(chain: Chain, w: World, tx: Tx, t: Address, p: Pair)
    requires Attempt(chain, w, tx).Done?
    ensures Leaves(EntryOf(w.tokens, t, p), tx, EntryOf(Attempt(chain, w, tx).value.tokens, t, p), t, p)
  {
    match tx.invocation
    case Execute(_, _, _) => ExecuteLeavesAllowances(chain, w, tx, t, p);
    case OnToken(_, _) => CallLeavesAllowances(chain, w, tx, t, p);
    case _ =>
  }

  function Spent(log: seq<Tx>, t: Address, p: Pair): int {
    if log == [] then 0 else SpentBy(log[0], t, p) + Spent(log[1..], t, p)
  }

  ghost predicate UsedIn(log: seq<Tx>, t: Address, p: Pair) {
    exists tx :: tx in log && Uses(tx, t, p)
  }

  /** A spend, of nothing then, from the expiration on: it empties the entry. */
  ghost predicate LapsesIn(log: seq<Tx>, t: Address, p: Pair, expiration: int) {
    exists tx :: tx in log && Uses(tx, t, p) && expiration <= tx.sequence
  }

  /** The entry after these spends. */
  ghost function AfterSpends(before: Option<AllowanceData>, log: seq<Tx>, t: Address, p: Pair): Option<AllowanceData> {
    var data := DataOf(before);
    if !UsedIn(log, t, p) then before
    else
      var left := if LapsesIn(log, t, p, data.expirationLedger) then 0 else data.amount - Spent(log, t, p);
      Some(AllowanceData(left, data.expirationLedger))
  }

  /** One spend more at the front. */
  lemma SpendsStep(before: Option<AllowanceData>, mid: Option<AllowanceData>, tx: Tx, log: seq<Tx>, t: Address, p: Pair)
    requires Uses(tx, t, p)
    requires !IsApproval(tx) && Leaves(before, tx, mid, t, p)
    requires 0 <= Spent(log, t, p) && (Spent(log, t, p) == 0 || Spent(log, t, p) <= DataOf(mid).amount)
    ensures AfterSpends(mid, log, t, p) == AfterSpends(before, [tx] + log, t, p)
  {
    var all, expiration := [tx] + log, DataOf(before).expirationLedger;
    assert all[0] == tx && all[1..] == log;
    assert forall x :: x in all <==> x == tx || x in log;
    assert UsedIn(all, t, p);
    assert LapsesIn(all, t, p, expiration) <==> expiration <= tx.sequence || LapsesIn(log, t, p, expiration);
    if !UsedIn(log, t, p) { UnusedIsUnspent(log, t, p); }
  }

  lemma {:induction false} UnusedIsUnspent(log: seq<Tx>, t: Address, p: Pair)
    requires !UsedIn(log, t, p)
    ensures Spent(log, t, p) == 0
  {
    if log != [] {
      assert log[0] in log;
      UnusedIsUnspent(log[1..], t, p);
    }
  }

  /** A run without approvals of a pair leaves its entry less what was spent, and never spends
      more than there was. */
  lemma {:induction false} RunSpends(chain: Chain, w: World, txs: seq<Tx>, t: Address, p: Pair)
    requires forall tx :: tx in Applied(chain, w, txs) && Uses(tx, t, p) ==> !IsApproval(tx)
    ensures var log, before := Applied(chain, w, txs), EntryOf(w.tokens, t, p);
            && EntryOf(Run(chain, w, txs).tokens, t, p) == AfterSpends(before, log, t, p)
            && 0 <= Spent(log, t, p) && (Spent(log, t, p) == 0 || Spent(log, t, p) <= DataOf(before).amount)
    decreases |txs|
  {
    if txs != [] {
      var tx, w' := txs[0], Post(chain, w, txs[0]);
      if Attempt(chain, w, tx).Done? {
        AppliedFirst(chain, w, txs);
        var log, others := Applied(chain, w, txs), Applied(chain, w', txs[1..]);
        assert log == [tx] + others;
        RunSpends(chain, w', txs[1..], t, p);
        AttemptAllowance(chain, w, tx, t, p);
        if Uses(tx, t, p) {
          SpendsStep(EntryOf(w.tokens, t, p), EntryOf(w'.tokens, t, p), tx, others, t, p);
        } else {
          SpendsSkip(EntryOf(w.tokens, t, p), tx, others, t, p);
        }
      } else {
        AppliedSkips(chain, w, txs);
        RunSpends(chain, w, txs[1..], t, p);
      }
    }
  }

  lemma SpendsSkip(before: Option<AllowanceData>, tx: Tx, log: seq<Tx>, t: Address, p: Pair)
    requires !Uses(tx, t, p)
    ensures AfterSpends(before, [tx] + log, t, p) == AfterSpends(before, log, t, p)
    ensures Spent([tx] + log, t, p) == Spent(log, t, p)
  {
    var all, expiration := [tx] + log, DataOf(before).expirationLedger;
    assert all[0] == tx && all[1..] == log;
    assert forall x :: x in all <==> x == tx || x in log;
    assert UsedIn(all, t, p) <==> UsedIn(log, t, p);
    assert LapsesIn(all, t, p, expiration) <==> LapsesIn(log, t, p, expiration);
  }

  ghost predicate ApprovedIn(log: seq<Tx>, t: Address, p: Pair) {
    exists tx :: tx in log && Uses(tx, t, p) && IsApproval(tx)
  }

  /** The entry as a log tells it: the last approval, or the opening entry where there is none, less
      what was spent after it. */
  ghost function Standing(before: Option<AllowanceData>, log: seq<Tx>, t: Address, p: Pair): Option<AllowanceData> {
    if !ApprovedIn(log, t, p) then AfterSpends(before, log, t, p)
    else if ApprovedIn(log[1..], t, p) then Standing(before, log[1..], t, p)
    else AfterSpends(Some(Approved(log[0])), log[1..], t, p)
  }

  lemma ApprovedInStep(log: seq<Tx>, t: Address, p: Pair)
    requires log != []
    ensures ApprovedIn(log, t, p) <==> (Uses(log[0], t, p) && IsApproval(log[0])) || ApprovedIn(log[1..], t, p)
  {
    assert forall x :: x in log <==> x == log[0] || x in log[1..];
  }

  /** What was there before an approval does not matter. */
  lemma {:induction false} ApprovalForgets(before: Option<AllowanceData>, other: Option<AllowanceData>, log: seq<Tx>,
                                           t: Address, p: Pair)
    requires ApprovedIn(log, t, p)
    ensures Standing(before, log, t, p) == Standing(other, log, t, p)
  {
    if ApprovedIn(log[1..], t, p) { ApprovalForgets(before, other, log[1..], t, p); }
  }

  /** After any run an allowance entry is what the log of its successful calls tells. */
  lemma {:induction false} RunEntry(chain: Chain, w: World, txs: seq<Tx>, t: Address, p: Pair)
    ensures EntryOf(Run(chain, w, txs).tokens, t, p)
         == Standing(EntryOf(w.tokens, t, p), Applied(chain, w, txs), t, p)
    decreases |txs|
  {
    var log := Applied(chain, w, txs);
    if !ApprovedIn(log, t, p) {
      RunSpends(chain, w, txs, t, p);
    } else {
      var tx, w' := txs[0], Post(chain, w, txs[0]);
      RunEntry(chain, w', txs[1..], t, p);
      if Attempt(chain, w, tx).Done? {
        AppliedFirst(chain, w, txs);
        ApprovedInStep(log, t, p);
        if ApprovedIn(log[1..], t, p) {
          ApprovalForgets(EntryOf(w'.tokens, t, p), EntryOf(w.tokens, t, p), log[1..], t, p);
        } else {
          AttemptAllowance(chain, w, tx, t, p);
        }
      } else {
        AppliedSkips(chain, w, txs);
      }
    }
  }

  lemma {:induction false} SpentIsSum(log: seq<Tx>, t: Address, p: Pair, f: Tx -> int)
    requires forall tx :: f(tx) == SpentBy(tx, t, p)
    ensures Spent(log, t, p) == Sum(log, f)
  {
    if log != [] { SpentIsSum(log[1..], t, p, f); }
  }

  lemma SpentIsOrderFree(log: seq<Tx>, other: seq<Tx>, t: Address, p: Pair)
    requires multiset(log) == multiset(other)
    ensures Spent(log, t, p) == Spent(other, t, p)
  {
    var f := (tx: Tx) => SpentBy(tx, t, p);
    SpentIsSum(log, t, p, f);
    SpentIsSum(other, t, p, f);
    SumIsOrderFree(log, other, f);
  }

  /** No approval meets another call on its allowance, other than the same approval again. */
  ghost predicate ApprovalsStandAlone(log: seq<Tx>) {
    forall tx, tx' :: tx in log && tx' in log && IsApproval(tx) && SameAllowance(tx, tx') ==>
      tx'.invocation == tx.invocation
  }

  predicate SameAllowance(tx: Tx, tx': Tx) {
    && tx.invocation.OnToken?
    && AllowanceUsed(tx, tx.invocation.token).Some?
    && AllowanceUsed(tx', tx.invocation.token) == AllowanceUsed(tx, tx.invocation.token)
  }

  lemma AfterSpendsIsOrderFree(before: Option<AllowanceData>, log: seq<Tx>, other: seq<Tx>, t: Address, p: Pair)
    requires multiset(log) == multiset(other)
    ensures AfterSpends(before, log, t, p) == AfterSpends(before, other, t, p)
  {
    var expiration := DataOf(before).expirationLedger;
    SameTransactions(log, other);
    SpentIsOrderFree(log, other, t, p);
    assert UsedIn(log, t, p) <==> UsedIn(other, t, p);
    assert LapsesIn(log, t, p, expiration) <==> LapsesIn(other, t, p, expiration);
  }

  lemma {:induction false} StandingAlone(before: Option<AllowanceData>, log: seq<Tx>, t: Address, p: Pair, approval: Tx)
    requires IsApproval(approval) && ApprovedIn(log, t, p)
    requires forall tx :: tx in log && Uses(tx, t, p) ==> tx.invocation == approval.invocation
    ensures Standing(before, log, t, p) == Some(Approved(approval))
  {
    ApprovedInStep(log, t, p);
    if ApprovedIn(log[1..], t, p) {
      StandingAlone(before, log[1..], t, p, approval);
    } else {
      forall tx | tx in log[1..] ensures !Uses(tx, t, p) { assert tx in log; }
    }
  }

  /** With approvals that stand alone the order of the log does not matter to an entry. */
  lemma StandingIsOrderFree(before: Option<AllowanceData>, log: seq<Tx>, other: seq<Tx>, t: Address, p: Pair)
    requires ApprovalsStandAlone(log) && multiset(log) == multiset(other)
    ensures Standing(before, log, t, p) == Standing(before, other, t, p)
  {
    SameTransactions(log, other);
    if approval :| approval in log && Uses(approval, t, p) && IsApproval(approval) {
      forall tx | tx in log && Uses(tx, t, p) ensures tx.invocation == approval.invocation {
        assert SameAllowance(approval, tx);
      }
      assert approval in other;
      StandingAlone(before, log, t, p, approval);
      StandingAlone(before, other, t, p, approval);
    } else {
      AfterSpendsIsOrderFree(before, log, other, t, p);
    }
  }

  // ----- the theorem -----

  lemma SameRecord(chain: Chain, w: World, txs: seq<Tx>, other: seq<Tx>, h: Hash)
    requires forall tx :: tx in Applied(chain, w, txs) <==> tx in Applied(chain, w, other)
    ensures RecordOf(Run(chain, w, txs).store, h) == RecordOf(Run(chain, w, other).store, h)
  {
    RunRecords(chain, w, txs, h);
    RunRecords(chain, w, other, h);
  }

  /** A store is its admin, its used nonces and its records. */
  lemma StoreIsItsRecords(s: Store, s': Store)
    requires s.admin == s'.admin && (forall k :: k in s.usedNonces <==> k in s'.usedNonces)
    requires forall h :: RecordOf(s, h) == RecordOf(s', h)
    ensures s == s'
  {
    forall h ensures (h in s.statuses <==> h in s'.statuses) && (h in s.receipts <==> h in s'.receipts) {
      assert RecordOf(s, h) == RecordOf(s', h);
    }
    forall h | h in s.statuses ensures s.statuses[h] == s'.statuses[h] { assert RecordOf(s, h) == RecordOf(s', h); }
    forall h | h in s.receipts ensures s.receipts[h] == s'.receipts[h] { assert RecordOf(s, h) == RecordOf(s', h); }
    assert s.statuses == s'.statuses && s.receipts == s'.receipts && s.usedNonces == s'.usedNonces;
  }

  lemma SameStore(chain: Chain, w: World, txs: seq<Tx>, other: seq<Tx>)
    requires multiset(Applied(chain, w, txs)) == multiset(Applied(chain, w, other))
    ensures Run(chain, w, txs).store == Run(chain, w, other).store
  {
    var log, log' := Applied(chain, w, txs), Applied(chain, w, other);
    var s, s' := Run(chain, w, txs).store, Run(chain, w, other).store;
    SameTransactions(log, log');
    forall h ensures RecordOf(s, h) == RecordOf(s', h) { SameRecord(chain, w, txs, other, h); }
    forall k ensures k in s.usedNonces <==> k in s'.usedNonces {
      RunNonces(chain, w, txs, k);
      RunNonces(chain, w, other, k);
      assert KeyIn(log, k) <==> KeyIn(log', k);
    }
    RunAdmin(chain, w, txs);
    RunAdmin(chain, w, other);
    StoreIsItsRecords(s, s');
  }

  lemma SameBalances(chain: Chain, w: World, txs: seq<Tx>, other: seq<Tx>, t: Address)
    requires multiset(Applied(chain, w, txs)) == multiset(Applied(chain, w, other))
    ensures var tokens, tokens' := Run(chain, w, txs).tokens, Run(chain, w, other).tokens;
            (t in tokens <==> t in tokens') && (t in tokens ==> tokens[t].balances == tokens'[t].balances)
  {
    var log, log' := Applied(chain, w, txs), Applied(chain, w, other);
    var tokens, tokens' := Run(chain, w, txs).tokens, Run(chain, w, other).tokens;
    SameTransactions(log, log');
    RunExtends(chain, w, txs, t);
    RunExtends(chain, w, other, t);
    assert WrittenBy(chain, log, t) == WrittenBy(chain, log', t);
    if t in tokens {
      var b, b' := tokens[t].balances, tokens'[t].balances;
      assert b.Keys == b'.Keys;
      forall a | a in b ensures b[a] == b'[a] {
        HistoryDeterminesBalances(chain, w, txs, t, a);
        HistoryDeterminesBalances(chain, w, other, t, a);
        DeltasAreOrderFree(log, log', t, a);
        assert Holding(tokens, t, a) == b[a] && Holding(tokens', t, a) == b'[a];
      }
      assert b == b';
    }
  }

  lemma EntriesAreAll(tokens: Tokens, tokens': Tokens, t: Address)
    requires t in tokens && t in tokens' && forall p :: EntryOf(tokens, t, p) == EntryOf(tokens', t, p)
    ensures tokens[t].allowances == tokens'[t].allowances
  {
    var m, m' := tokens[t].allowances, tokens'[t].allowances;
    forall p ensures (p in m <==> p in m') && (p in m ==> m[p] == m'[p]) {
      assert EntryOf(tokens, t, p) == EntryOf(tokens', t, p);
    }
  }

  lemma SameTokenAdmin(chain: Chain, w: World, txs: seq<Tx>, other: seq<Tx>, t: Address)
    requires multiset(Applied(chain, w, txs)) == multiset(Applied(chain, w, other))
    ensures AdminOf(Run(chain, w, txs).tokens, t) == AdminOf(Run(chain, w, other).tokens, t)
  {
    SameTransactions(Applied(chain, w, txs), Applied(chain, w, other));
    RunTokenAdmin(chain, w, txs, t);
    RunTokenAdmin(chain, w, other, t);
  }

  /** The logs tell the same of every allowance. */
  ghost predicate SameStanding(w: World, log: seq<Tx>, other: seq<Tx>) {
    forall t, p :: Standing(EntryOf(w.tokens, t, p), log, t, p) == Standing(EntryOf(w.tokens, t, p), other, t, p)
  }

  /** The storage and every token but for its allowances. */
  ghost predicate SameButAllowances(w: World, w': World) {
    && w.store == w'.store
    && (forall t :: t in w.tokens <==> t in w'.tokens)
    && forall t :: t in w.tokens ==> w'.tokens[t] == w.tokens[t].(allowances := w'.tokens[t].allowances)
  }

  /** Whatever succeeds in both, and in whatever order, two runs from one world in which the same
      transactions succeed end with the same storage, the same balances and the same admins;
      and in the same world exactly when their logs tell the same of every allowance. */
  lemma OrderMattersToAllowancesOnly(chain: Chain, w: World, txs: seq<Tx>, other: seq<Tx>)
    requires multiset(Applied(chain, w, txs)) == multiset(Applied(chain, w, other))
    ensures SameButAllowances(Run(chain, w, txs), Run(chain, w, other))
    ensures Run(chain, w, txs) == Run(chain, w, other)
       <==> SameStanding(w, Applied(chain, w, txs), Applied(chain, w, other))
  {
    var end, end' := Run(chain, w, txs), Run(chain, w, other);
    SameStore(chain, w, txs, other);
    forall t
      ensures t in end.tokens <==> t in end'.tokens
      ensures t in end.tokens ==> end'.tokens[t] == end.tokens[t].(allowances := end'.tokens[t].allowances)
    {
      SameBalances(chain, w, txs, other, t);
      SameTokenAdmin(chain, w, txs, other, t);
    }
    forall t, p
      ensures EntryOf(end.tokens, t, p) == Standing(EntryOf(w.tokens, t, p), Applied(chain, w, txs), t, p)
      ensures EntryOf(end'.tokens, t, p) == Standing(EntryOf(w.tokens, t, p), Applied(chain, w, other), t, p)
    {
      RunEntry(chain, w, txs, t, p);
      RunEntry(chain, w, other, t, p);
    }
    if forall t, p :: EntryOf(end.tokens, t, p) == EntryOf(end'.tokens, t, p) { SameEntriesSameWorld(end, end'); }
  }

  lemma SameEntriesSameWorld(w: World, w': World)
    requires SameButAllowances(w, w') && forall t, p :: EntryOf(w.tokens, t, p) == EntryOf(w'.tokens, t, p)
    ensures w == w'
  {
    forall t | t in w.tokens ensures w.tokens[t] == w'.tokens[t] { EntriesAreAll(w.tokens, w'.tokens, t); }
    assert w.tokens == w'.tokens;
  }

  /** So fills, cancellations and token calls settle to the same world in any order in which the
      same ones succeed, as long as no approval meets another call on its allowance. */
  lemma OrderDoesNotMatter(chain: Chain, w: World, txs: seq<Tx>, other: seq<Tx>)
    requires ApprovalsStandAlone(Applied(chain, w, txs))
    requires multiset(Applied(chain, w, txs)) == multiset(Applied(chain, w, other))
    ensures Run(chain, w, txs) == Run(chain, w, other)
  {
    var log, log' := Applied(chain, w, txs), Applied(chain, w, other);
    OrderMattersToAllowancesOnly(chain, w, txs, other);
    forall t, p ensures Standing(EntryOf(w.tokens, t, p), log, t, p) == Standing(EntryOf(w.tokens, t, p), log', t, p) {
      StandingIsOrderFree(EntryOf(w.tokens, t, p), log, log', t, p);
    }
  }

  // ----- two calls on one allowance -----

  lemma StandingOfTwo(before: Option<AllowanceData>, first: Tx, last: Tx, t: Address, p: Pair)
    ensures Standing(before, [first, last], t, p)
         == if Uses(last, t, p) && IsApproval(last) then Some(Approved(last))
            else if Uses(first, t, p) && IsApproval(first) then AfterSpends(Some(Approved(first)), [last], t, p)
            else AfterSpends(before, [first, last], t, p)
  {
    assert [first, last][1..] == [last] && [last][1..] == [];
    ApprovedInStep([first, last], t, p);
    ApprovedInStep([last], t, p);
  }

  lemma UnusedStands(before: Option<AllowanceData>, first: Tx, last: Tx, t: Address, p: Pair)
    requires !Uses(first, t, p) && !Uses(last, t, p)
    ensures Standing(before, [first, last], t, p) == before
  {
    StandingOfTwo(before, first, last, t, p);
  }

  lemma SwapIsPermutation(x: Tx, y: Tx)
    ensures multiset([x, y]) == multiset([y, x])
  {
    assert [x, y] == [x] + [y] && [y, x] == [y] + [x];
  }

  /** Two calls on one allowance that succeed in either order commute exactly when their orders tell
      the same of it. */
  lemma SwapsExactly(chain: Chain, w: World, x: Tx, y: Tx, t: Address, p: Pair)
    requires Applied(chain, w, [x, y]) == [x, y] && Applied(chain, w, [y, x]) == [y, x]
    requires Uses(x, t, p) && Uses(y, t, p)
    ensures var before := EntryOf(w.tokens, t, p);
            Run(chain, w, [x, y]) == Run(chain, w, [y, x])
            <==> Standing(before, [x, y], t, p) == Standing(before, [y, x], t, p)
  {
    SwapIsPermutation(x, y);
    OrderMattersToAllowancesOnly(chain, w, [x, y], [y, x]);
    forall t', p' | (t', p') != (t, p)
      ensures Standing(EntryOf(w.tokens, t', p'), [x, y], t', p') == Standing(EntryOf(w.tokens, t', p'), [y, x], t', p')
    {
      var before := EntryOf(w.tokens, t', p');
      UnusedStands(before, x, y, t', p');
      UnusedStands(before, y, x, t', p');
    }
  }

  /** Two approvals commute exactly when they approve the same. */
  lemma ApprovalsSwapExactly(chain: Chain, w: World, x: Tx, y: Tx, t: Address, p: Pair)
    requires Applied(chain, w, [x, y]) == [x, y] && Applied(chain, w, [y, x]) == [y, x]
    requires Uses(x, t, p) && Uses(y, t, p) && IsApproval(x) && IsApproval(y)
    ensures Run(chain, w, [x, y]) == Run(chain, w, [y, x]) <==> Approved(x) == Approved(y)
  {
    SwapsExactly(chain, w, x, y, t, p);
    StandingOfTwo(EntryOf(w.tokens, t, p), x, y, t, p);
    StandingOfTwo(EntryOf(w.tokens, t, p), y, x, t, p);
  }

  /** An approval and a spend commute exactly when nothing is spent and the approval is of nothing
      or still live at the spend. */
  lemma ApprovalAndSpendSwapExactly(chain: Chain, w: World, approval: Tx, spend: Tx, t: Address, p: Pair)
    requires Applied(chain, w, [approval, spend]) == [approval, spend]
    requires Applied(chain, w, [spend, approval]) == [spend, approval]
    requires Uses(approval, t, p) && Uses(spend, t, p) && IsApproval(approval) && !IsApproval(spend)
    ensures Run(chain, w, [approval, spend]) == Run(chain, w, [spend, approval])
       <==> SpentBy(spend, t, p) == 0
            && (Approved(approval).amount == 0 || spend.sequence < Approved(approval).expirationLedger)
  {
    var before, data := EntryOf(w.tokens, t, p), Approved(approval);
    SwapsExactly(chain, w, approval, spend, t, p);
    StandingOfTwo(before, approval, spend, t, p);
    StandingOfTwo(before, spend, approval, t, p);
    SpendOfOne(data, spend, t, p);
    SpendFits(chain, w, approval, spend, t, p);
  }

  lemma SpendOfOne(data: AllowanceData, spend: Tx, t: Address, p: Pair)
    requires Uses(spend, t, p)
    ensures AfterSpends(Some(data), [spend], t, p)
         == Some(data.(amount :=
              if data.expirationLedger <= spend.sequence then 0 else data.amount - SpentBy(spend, t, p)))
  {
    var log := [spend];
    assert log[0] == spend && log[1..] == [] && spend in log;
    assert UsedIn(log, t, p);
    assert LapsesIn(log, t, p, data.expirationLedger) <==> data.expirationLedger <= spend.sequence;
    assert Spent(log, t, p) == SpentBy(spend, t, p) + Spent([], t, p);
  }

  /** A spend right after an approval is of no more than it approved, and of nothing once expired. */
  lemma SpendFits(chain: Chain, w: World, approval: Tx, spend: Tx, t: Address, p: Pair)
    requires Applied(chain, w, [approval, spend]) == [approval, spend]
    requires Uses(approval, t, p) && Uses(spend, t, p) && IsApproval(approval) && !IsApproval(spend)
    ensures 0 <= SpentBy(spend, t, p)
    ensures Approved(approval).expirationLedger <= spend.sequence ==> SpentBy(spend, t, p) == 0
  {
    BothSucceed(chain, w, approval, spend);
    var w' := Post(chain, w, approval);
    AttemptAllowance(chain, w, approval, t, p);
    AttemptAllowance(chain, w', spend, t, p);
  }

  lemma BothSucceed(chain: Chain, w: World, first: Tx, last: Tx)
    requires Applied(chain, w, [first, last]) == [first, last]
    ensures Attempt(chain, w, first).Done? && Attempt(chain, Post(chain, w, first), last).Done?
  {
    assert [first, last][1..] == [last] && [last][1..] == [];
    var w' := Post(chain, w, first);
    assert Applied(chain, Post(chain, w', last), []) == [];
    assert |Applied(chain, w', [last])| <= 1;
    assert |Applied(chain, w, [first, last])| == 2;
  }

  /** Two approvals of one allowance do not commute: the last one wins. */
  lemma LastApprovalWins(chain: Chain, token: Address, owner: Address, spender: Address)
    ensures var w := World(EMPTY_STORE, map[token := Token(None, map[], map[])]);
            var one := Tx({owner}, 0, 0, OnToken(token, Approve(owner, spender, 1, 9)));
            var two := Tx({owner}, 0, 0, OnToken(token, Approve(owner, spender, 2, 9)));
            && multiset(Applied(chain, w, [one, two])) == multiset(Applied(chain, w, [two, one]))
            && Run(chain, w, [one, two]) != Run(chain, w, [two, one])
  {
    var w := World(EMPTY_STORE, map[token := Token(None, map[], map[])]);
    var one := Tx({owner}, 0, 0, OnToken(token, Approve(owner, spender, 1, 9)));
    var two := Tx({owner}, 0, 0, OnToken(token, Approve(owner, spender, 2, 9)));
    LastApprovalStands(chain, w, one, two);
    LastApprovalStands(chain, w, two, one);
    assert [one, two] == [one] + [two] && [two, one] == [two] + [one];
  }

  lemma LastApprovalStands(chain: Chain, w: World, first: Tx, last: Tx)
    requires IsApproval(first) && IsApproval(last) && SameAllowance(first, last)
    requires Attempt(chain, w, first).Done? && Attempt(chain, Post(chain, w, first), last).Done?
    ensures Applied(chain, w, [first, last]) == [first, last]
    ensures var t := last.invocation.token;
            EntryOf(Run(chain, w, [first, last]).tokens, t, AllowanceUsed(last, t).value) == Some(Approved(last))
  {
    var w' := Post(chain, w, first);
    RunOfOne(chain, w', last);
    assert [first, last][1..] == [last];
    AttemptAllowance(chain, w', last, last.invocation.token, AllowanceUsed(last, last.invocation.token).value);
  }

  lemma RunOfOne(chain: Chain, w: World, tx: Tx)
    requires Attempt(chain, w, tx).Done?
    ensures Applied(chain, w, [tx]) == [tx] && Run(chain, w, [tx]) == Post(chain, w, tx)
  {
    var none: seq<Tx> := [];
    assert [tx][1..] == none;
    assert Run(chain, Post(chain, w, tx), none) == Post(chain, w, tx);
    assert Applied(chain, Post(chain, w, tx), none) == none;
  }
}
