/** What a spender may move, told from the history of one token instead of its entries. */
module AllowanceHistory {
  import opened Protocol
  import opened TokenLedger

  /** One attempted call at a ledger sequence; a call that traps changes nothing. */
  datatype Attempt = Attempt(auths: set<Address>, sequence: nat, call: TokenCall)

  function After(t: Token, a: Attempt): Token {
    var next := Call(t, a.auths, a.sequence, a.call);
    if next.Some? then next.value else t
  }

  function Final(t: Token, run: seq<Attempt>): Token {
    if run == [] then t else After(Final(t, run[..|run| - 1]), run[|run| - 1])
  }

  ghost predicate Ordered(run: seq<Attempt>, now: int) {
    && (forall k :: 0 <= k < |run| ==> run[k].sequence <= now)
    && (forall j, k :: 0 <= j < k < |run| ==> run[j].sequence <= run[k].sequence)
  }

  /** The last approval of a pair and what has been spent under it since. */
  datatype Grant = Grant(approved: int, expirationLedger: int, spent: int)

  predicate Spends(c: TokenCall, from: Address, spender: Address) {
    match c
    case TransferFrom(s, f, _, _) => s == spender && f == from
    case BurnFrom(s, f, _) => s == spender && f == from
    case _ => false
  }

  predicate Approves(c: TokenCall, from: Address, spender: Address) {
    c.Approve? && c.from == from && c.spender == spender
  }

  /** The grant as the log of successful calls tells it. */
  function GrantOf(t: Token, run: seq<Attempt>, from: Address, spender: Address): Grant {
    if run == [] then Grant(0, 0, 0)
    else
      var earlier, last := run[..|run| - 1], run[|run| - 1];
      var grant := GrantOf(t, earlier, from, spender);
      if Call(Final(t, earlier), last.auths, last.sequence, last.call).None? then grant
      else if Approves(last.call, from, spender) then Grant(last.call.amount, last.call.expirationLedger, 0)
      else if Spends(last.call, from, spender) then grant.(spent := grant.spent + last.call.amount)
      else grant
  }

  /** At ledger `now` the entry of a pair agrees with its grant. */
  ghost predicate Agrees(m: Allowances, grant: Grant, now: int, from: Address, spender: Address) {
    var entry := AllowanceOf(m, from, spender);
    && entry.expirationLedger == grant.expirationLedger
    && 0 <= grant.spent
    && 0 <= entry.amount <= grant.approved - grant.spent
    && (now < grant.expirationLedger ==> entry.amount == grant.approved - grant.spent)
  }

  lemma SpendKeepsAgreement(m: Allowances, grant: Grant, now: int, from: Address, spender: Address,
                            f: Address, s: Address, amount: int)
    requires Agrees(m, grant, now, from, spender) && 0 <= amount
    requires SpendAllowance(m, now, f, s, amount).Some?
    ensures var m' := SpendAllowance(m, now, f, s, amount).value;
            var grant' := if (f, s) == (from, spender) then grant.(spent := grant.spent + amount) else grant;
            Agrees(m', grant', now, from, spender)
  {
  }

  lemma StepKeepsAgreement(t: Token, run: seq<Attempt>, from: Address, spender: Address)
    requires run != []
    requires var earlier, last := run[..|run| - 1], run[|run| - 1];
             Agrees(Final(t, earlier).allowances, GrantOf(t, earlier, from, spender), last.sequence, from, spender)
    ensures Agrees(Final(t, run).allowances, GrantOf(t, run, from, spender), run[|run| - 1].sequence, from, spender)
  {
    var earlier, last := run[..|run| - 1], run[|run| - 1];
    var before, grant := Final(t, earlier), GrantOf(t, earlier, from, spender);
    if Call(before, last.auths, last.sequence, last.call).Some? {
      match last.call
      case TransferFrom(s, f, _, amount) =>
        SpendKeepsAgreement(before.allowances, grant, last.sequence, from, spender, f, s, amount);
      case BurnFrom(s, f, amount) =>
        SpendKeepsAgreement(before.allowances, grant, last.sequence, from, spender, f, s, amount);
      case _ =>
    }
  }

  lemma {:induction false} RunKeepsAgreement(t: Token, run: seq<Attempt>, now: int, from: Address, spender: Address)
    requires t.allowances == map[] && Ordered(run, now) && 0 <= now
    ensures Agrees(Final(t, run).allowances, GrantOf(t, run, from, spender), now, from, spender)
  {
    if run != [] {
      RunKeepsAgreement(t, run[..|run| - 1], run[|run| - 1].sequence, from, spender);
      StepKeepsAgreement(t, run, from, spender);
    }
  }

  /** Over any run with ledgers in order, from a token nobody has approved on: a pair never
      spends beyond its last approval, and the allowance it reads is the approval less what
      was spent while it lasts and nothing from the expiration ledger on. */
  lemma AllowanceIsUnspentGrant(t: Token, run: seq<Attempt>, now: int, from: Address, spender: Address)
    requires t.allowances == map[] && Ordered(run, now) && 0 <= now
    ensures var grant := GrantOf(t, run, from, spender);
            && 0 <= grant.spent <= grant.approved
            && Spendable(Final(t, run).allowances, from, spender, now)
               == if grant.expirationLedger > now then grant.approved - grant.spent else 0
  {
    RunKeepsAgreement(t, run, now, from, spender);
  }

  /** So a positive spend is allowed exactly when the last approval has not expired and
      still covers it, whatever ran before. */
  lemma SpendAllowedExactly(t: Token, run: seq<Attempt>, now: int, from: Address, spender: Address, amount: int)
    requires t.allowances == map[] && Ordered(run, now) && 0 <= now && 0 < amount
    ensures var grant := GrantOf(t, run, from, spender);
            SpendAllowance(Final(t, run).allowances, now, from, spender, amount).Some?
            <==> now < grant.expirationLedger && grant.spent + amount <= grant.approved
  {
    AllowanceIsUnspentGrant(t, run, now, from, spender);
  }

  /** The two expiry rules differ by one ledger: an approval may name the current ledger as
      its expiration, and is then never spendable. */
  lemma ApprovalForThisLedgerIsDead(t: Token, auths: set<Address>, now: nat, from: Address, spender: Address,
                                    amount: int)
    requires from in auths && 0 < amount
    ensures var t' := Call(t, auths, now, Approve(from, spender, amount, now));
            && t'.Some?
            && forall later, spend :: now <= later && 0 < spend ==>
                 SpendAllowance(t'.value.allowances, later, from, spender, spend).None?
  {
  }
}
