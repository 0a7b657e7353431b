/** The token contract: its persistent entries and the calls that overwrite them.  A call
    that traps leaves the entries as they were, since the host discards its writes. */
module MockTokenContract {
  import opened Protocol
  import opened TokenLedger

  class MockToken {
    var admin: Option<Address>
    var balances: Balances
    var allowances: Allowances

    constructor ()
      ensures State() == Token(None, map[], map[])
    {
      admin, balances, allowances := None, map[], map[];
    }

    function State(): Token
      reads this
    {
      Token(admin, balances, allowances)
    }

    /** The token follows `after`, or stays put when that call trapped. */
    ghost predicate Follows(before: Token, after: Option<Token>, ok: bool)
      reads this
    {
      ok == after.Some? && State() == if ok then after.value else before
    }

    method Balance(id: Address) returns (balance: int)
      ensures balance == BalanceOf(State().balances, id)
    {
      if id in balances { return balances[id]; }
      return 0;
    }

    method Allowance(sequence: int, from: Address, spender: Address) returns (amount: int)
      ensures amount == Spendable(State().allowances, from, spender, sequence)
    {
      var allowance := ReadAllowance(from, spender);
      if allowance.expirationLedger > sequence { return allowance.amount; }
      return 0;
    }

    method ReadAllowance(from: Address, spender: Address) returns (allowance: AllowanceData)
      ensures allowance == AllowanceOf(State().allowances, from, spender)
    {
      if (from, spender) in allowances { return allowances[(from, spender)]; }
      return AllowanceData(0, 0);
    }

    method Initialize(auths: set<Address>, newAdmin: Address) returns (ok: bool)
      modifies this
      ensures Follows(old(State()), Call(old(State()), auths, 0, TokenCall.Initialize(newAdmin)), ok)
    {
      if admin.Some? || newAdmin !in auths { return false; }
      admin := Some(newAdmin);
      return true;
    }

    method Mint(auths: set<Address>, to: Address, amount: int) returns (ok: bool)
      modifies this
      ensures Follows(old(State()), Call(old(State()), auths, 0, TokenCall.Mint(to, amount)), ok)
    {
      if admin.None? || admin.value !in auths || amount < 0 { return false; }
      var balance := Balance(to);
      if !FitsI128(balance + amount) { return false; }
      balances := balances[to := balance + amount];
      return true;
    }

    method MoveBalance(from: Address, to: Address, amount: int) returns (ok: bool)
      modifies this`balances
      ensures var after := TokenLedger.MoveBalance(old(balances), from, to, amount);
              ok == after.Some? && balances == if ok then after.value else old(balances)
    {
      var entry := balances;
      var fromBalance := Balance(from);
      if fromBalance < amount { return false; }
      balances := balances[from := fromBalance - amount];
      var toBalance := Balance(to);
      if !FitsI128(toBalance + amount) {
        balances := entry;
        return false;
      }
      balances := balances[to := toBalance + amount];
      return true;
    }

    method BurnBalance(from: Address, amount: int) returns (ok: bool)
      modifies this`balances
      ensures var after := TokenLedger.BurnBalance(old(balances), from, amount);
              ok == after.Some? && balances == if ok then after.value else old(balances)
    {
      var balance := Balance(from);
      if balance < amount { return false; }
      balances := balances[from := balance - amount];
      return true;
    }

    method SpendAllowance(sequence: int, from: Address, spender: Address, amount: int) returns (ok: bool)
      modifies this`allowances
      ensures var after := TokenLedger.SpendAllowance(old(allowances), sequence, from, spender, amount);
              ok == after.Some? && allowances == if ok then after.value else old(allowances)
    {
      var allowance := ReadAllowance(from, spender);
      var unexpired := allowance.expirationLedger > sequence;
      var spendable := if unexpired then allowance.amount else 0;
      if spendable < amount { return false; }
      allowances := allowances[(from, spender) := AllowanceData(spendable - amount, allowance.expirationLedger)];
      return true;
    }

    method Transfer(auths: set<Address>, from: Address, to: Address, amount: int) returns (ok: bool)
      modifies this
      ensures Follows(old(State()), TransferIn(old(State()), auths, from, to, amount), ok)
    {
      if from !in auths || amount < 0 { return false; }
      ok := MoveBalance(from, to, amount);
    }

    method TransferFrom(auths: set<Address>, sequence: int, spender: Address, from: Address, to: Address, amount: int)
      returns (ok: bool)
      modifies this
      ensures Follows(old(State()),
                      Call(old(State()), auths, sequence, TokenCall.TransferFrom(spender, from, to, amount)), ok)
    {
      if spender !in auths || amount < 0 { return false; }
      var entry := allowances;
      ok := SpendAllowance(sequence, from, spender, amount);
      if ok {
        ok := MoveBalance(from, to, amount);
        if !ok { allowances := entry; }
      }
    }

    method Burn(auths: set<Address>, from: Address, amount: int) returns (ok: bool)
      modifies this
      ensures Follows(old(State()), Call(old(State()), auths, 0, TokenCall.Burn(from, amount)), ok)
    {
      if from !in auths || amount < 0 { return false; }
      ok := BurnBalance(from, amount);
    }

    method BurnFrom(auths: set<Address>, sequence: int, spender: Address, from: Address, amount: int) returns (ok: bool)
      modifies this
      ensures Follows(old(State()), Call(old(State()), auths, sequence, TokenCall.BurnFrom(spender, from, amount)), ok)
    {
      if spender !in auths || amount < 0 { return false; }
      var entry := allowances;
      ok := SpendAllowance(sequence, from, spender, amount);
      if ok {
        ok := BurnBalance(from, amount);
        if !ok { allowances := entry; }
      }
    }

    method Approve(auths: set<Address>, sequence: int, from: Address, spender: Address, amount: int,
                   expirationLedger: int)
      returns (ok: bool)
      modifies this
      ensures Follows(old(State()),
                      Call(old(State()), auths, sequence,
                           TokenCall.Approve(from, spender, amount, expirationLedger)), ok)
    {
      if from !in auths || amount < 0 { return false; }
      if amount > 0 && expirationLedger < sequence { return false; }
      allowances := allowances[(from, spender) := AllowanceData(amount, expirationLedger)];
      return true;
    }

    /** An invocation as the host hands it to the contract. */
    method Receive(auths: set<Address>, sequence: int, call: TokenCall) returns (ok: bool)
      modifies this
      ensures Follows(old(State()), Call(old(State()), auths, sequence, call), ok)
    {
      match call
      case Initialize(admin) => ok := Initialize(auths, admin);
      case Mint(to, amount) => ok := Mint(auths, to, amount);
      case Transfer(from, to, amount) => ok := Transfer(auths, from, to, amount);
      case TransferFrom(spender, from, to, amount) => ok := TransferFrom(auths, sequence, spender, from, to, amount);
      case Burn(from, amount) => ok := Burn(auths, from, amount);
      case BurnFrom(spender, from, amount) => ok := BurnFrom(auths, sequence, spender, from, amount);
      case Approve(from, spender, amount, expiration) =>
        ok := Approve(auths, sequence, from, spender, amount, expiration);
    }
  }
}
