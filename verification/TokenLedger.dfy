/** The state of one SEP-41 token and what each of its entry points does to it. */
module TokenLedger {
  import opened Protocol

  datatype AllowanceData = AllowanceData(amount: int, expirationLedger: int)

  type Balances = map<Address, int>
  type Allowances = map<(Address, Address), AllowanceData>

  datatype Token = Token(admin: Option<Address>, balances: Balances, allowances: Allowances)

  datatype TokenCall =
    | Initialize(admin: Address)
    | Mint(to: Address, amount: int)
    | Transfer(from: Address, to: Address, amount: int)
    | TransferFrom(spender: Address, from: Address, to: Address, amount: int)
    | Burn(from: Address, amount: int)
    | BurnFrom(spender: Address, from: Address, amount: int)
    | Approve(from: Address, spender: Address, amount: int, expirationLedger: int)

  function BalanceOf(b: Balances, a: Address): int {
    if a in b then b[a] else 0
  }

  function AllowanceOf(m: Allowances, from: Address, spender: Address): AllowanceData {
    if (from, spender) in m then m[(from, spender)] else AllowanceData(0, 0)
  }

  /** What the spender may still move at ledger `sequence`: nothing from the expiration on. */
  function Spendable(m: Allowances, from: Address, spender: Address, sequence: int): int {
    var allowance := AllowanceOf(m, from, spender);
    if allowance.expirationLedger > sequence then allowance.amount else 0
  }

  /** A balance leaves `from` before it is read again for `to`, so a self-transfer is seen
      as such; a recipient's balance beyond i128 traps. */
  function MoveBalance(b: Balances, from: Address, to: Address, amount: int): Option<Balances> {
    if BalanceOf(b, from) < amount then None
    else
      var debited := b[from := BalanceOf(b, from) - amount];
      if FitsI128(BalanceOf(debited, to) + amount)
      then Some(debited[to := BalanceOf(debited, to) + amount])
      else None
  }

  function BurnBalance(b: Balances, from: Address, amount: int): Option<Balances> {
    if BalanceOf(b, from) < amount then None else Some(b[from := BalanceOf(b, from) - amount])
  }

  function SpendAllowance(m: Allowances, sequence: int, from: Address, spender: Address, amount: int)
    : Option<Allowances>
  {
    var spendable := Spendable(m, from, spender, sequence);
    if spendable < amount then None
    else Some(m[(from, spender) := AllowanceData(spendable - amount, AllowanceOf(m, from, spender).expirationLedger)])
  }

  function TransferIn(t: Token, auths: set<Address>, from: Address, to: Address, amount: int): Option<Token> {
    if from !in auths || amount < 0 then None
    else
      var balances :- MoveBalance(t.balances, from, to, amount);
      Some(t.(balances := balances))
  }

  /** The token after a call, or nothing when the call traps. */
  function Call(t: Token, auths: set<Address>, sequence: int, c: TokenCall): Option<Token> {
    match c
    case Initialize(admin) =>
      if t.admin.Some? || admin !in auths then None else Some(t.(admin := Some(admin)))
    case Mint(to, amount) =>
      if t.admin.None? || t.admin.value !in auths || amount < 0
        || !FitsI128(BalanceOf(t.balances, to) + amount) then None
      else Some(t.(balances := t.balances[to := BalanceOf(t.balances, to) + amount]))
    case Transfer(from, to, amount) => TransferIn(t, auths, from, to, amount)
    case TransferFrom(spender, from, to, amount) =>
      if spender !in auths || amount < 0 then None
      else
        var allowances :- SpendAllowance(t.allowances, sequence, from, spender, amount);
        var balances :- MoveBalance(t.balances, from, to, amount);
        Some(t.(allowances := allowances, balances := balances))
    case Burn(from, amount) =>
      if from !in auths || amount < 0 then None
      else
        var balances :- BurnBalance(t.balances, from, amount);
        Some(t.(balances := balances))
    case BurnFrom(spender, from, amount) =>
      if spender !in auths || amount < 0 then None
      else
        var allowances :- SpendAllowance(t.allowances, sequence, from, spender, amount);
        var balances :- BurnBalance(t.balances, from, amount);
        Some(t.(allowances := allowances, balances := balances))
    case Approve(from, spender, amount, expiration) =>
      if from !in auths || amount < 0 || (amount > 0 && expiration < sequence) then None
      else Some(t.(allowances := t.allowances[(from, spender) := AllowanceData(amount, expiration)]))
  }

  // ----- balances as a ledger -----

  /** `n` on the row of `y`, nothing elsewhere. */
  function On(x: Address, y: Address, n: int): int { if x == y then n else 0 }

  /** What a successful call adds to the balance of `a`. */
  function CallDelta(c: TokenCall, a: Address): int {
    match c
    case Mint(to, amount) => On(a, to, amount)
    case Transfer(from, to, amount) => On(a, to, amount) - On(a, from, amount)
    case TransferFrom(_, from, to, amount) => On(a, to, amount) - On(a, from, amount)
    case Burn(from, amount) => -On(a, from, amount)
    case BurnFrom(_, from, amount) => -On(a, from, amount)
    case _ => 0
  }

  /** What a successful call adds to the token's supply. */
  function SupplyDelta(c: TokenCall): int {
    match c
    case Mint(_, amount) => amount
    case Burn(_, amount) => -amount
    case BurnFrom(_, _, amount) => -amount
    case _ => 0
  }

  /** The addresses whose balance entry a successful call writes. */
  function CallTouches(c: TokenCall): set<Address> {
    match c
    case Mint(to, _) => {to}
    case Transfer(from, to, _) => {from, to}
    case TransferFrom(_, from, to, _) => {from, to}
    case Burn(from, _) => {from}
    case BurnFrom(_, from, _) => {from}
    case _ => {}
  }

  /** Every stored balance is a non-negative i128. */
  ghost predicate Solvent(b: Balances) {
    forall a :: 0 <= BalanceOf(b, a) <= I128_MAX
  }

  ghost function Supply(b: Balances): int
    decreases |b|
  {
    if b == map[] then 0
    else
      var a :| a in b;
      b[a] + Supply(b - {a})
  }

  lemma {:induction false} SupplySplit(b: Balances, a: Address)
    requires a in b
    ensures Supply(b) == b[a] + Supply(b - {a})
    decreases |b|
  {
    var first :| first in b && Supply(b) == b[first] + Supply(b - {first});
    if first != a {
      SupplySplit(b - {first}, a);
      SupplySplit(b - {a}, first);
      assert b - {first} - {a} == b - {a} - {first};
    }
  }

  /** Writing one balance moves the supply by the change of that balance. */
  lemma SupplyWrite(b: Balances, a: Address, amount: int)
    ensures Supply(b[a := amount]) == Supply(b) + amount - BalanceOf(b, a)
  {
    SupplySplit(b[a := amount], a);
    assert b[a := amount] - {a} == b - {a};
    if a in b { SupplySplit(b, a); } else { assert b - {a} == b; }
  }

  /** A transfer conserves the supply and moves exactly `amount`, from an address to itself too. */
  lemma MoveConserves(b: Balances, from: Address, to: Address, amount: int)
    requires MoveBalance(b, from, to, amount).Some?
    ensures var b' := MoveBalance(b, from, to, amount).value;
            && Supply(b') == Supply(b)
            && b'.Keys == b.Keys + {from, to}
            && forall a :: BalanceOf(b', a) == BalanceOf(b, a) + On(a, to, amount) - On(a, from, amount)
  {
    var debited := b[from := BalanceOf(b, from) - amount];
    SupplyWrite(b, from, BalanceOf(b, from) - amount);
    SupplyWrite(debited, to, BalanceOf(debited, to) + amount);
  }

  lemma WriteConserves(b: Balances, a: Address, amount: int)
    ensures var b' := b[a := BalanceOf(b, a) + amount];
            && Supply(b') == Supply(b) + amount
            && b'.Keys == b.Keys + {a}
            && forall x :: BalanceOf(b', x) == BalanceOf(b, x) + On(x, a, amount)
  {
    SupplyWrite(b, a, BalanceOf(b, a) + amount);
  }

  /** The books of `b'` are those of `b` after the call `c`. */
  ghost predicate Books(b: Balances, c: TokenCall, b': Balances) {
    && Supply(b') == Supply(b) + SupplyDelta(c)
    && b'.Keys == b.Keys + CallTouches(c)
    && forall a :: BalanceOf(b', a) == BalanceOf(b, a) + CallDelta(c, a)
  }

  lemma WriteAccounts(b: Balances, c: TokenCall, a: Address, amount: int)
    requires match c
             case Mint(to, n) => to == a && n == amount
             case Burn(from, n) => from == a && n == -amount
             case BurnFrom(_, from, n) => from == a && n == -amount
             case _ => false
    ensures Books(b, c, b[a := BalanceOf(b, a) + amount])
  {
    WriteConserves(b, a, amount);
  }

  lemma MoveAccounts(b: Balances, c: TokenCall, from: Address, to: Address, amount: int)
    requires c == Transfer(from, to, amount) || (c.TransferFrom? && c.from == from && c.to == to && c.amount == amount)
    requires MoveBalance(b, from, to, amount).Some?
    ensures Books(b, c, MoveBalance(b, from, to, amount).value)
  {
    MoveConserves(b, from, to, amount);
  }

  /** Every successful call changes each balance by its delta and the supply by what it mints
      or burns. */
  lemma CallAccounts(t: Token, auths: set<Address>, sequence: int, c: TokenCall)
    requires Call(t, auths, sequence, c).Some?
    ensures Books(t.balances, c, Call(t, auths, sequence, c).value.balances)
  {
    var b := t.balances;
    match c
    case Mint(to, amount) => WriteAccounts(b, c, to, amount);
    case Transfer(from, to, amount) => MoveAccounts(b, c, from, to, amount);
    case TransferFrom(_, from, to, amount) => MoveAccounts(b, c, from, to, amount);
    case Burn(from, amount) => WriteAccounts(b, c, from, -amount);
    case BurnFrom(_, from, amount) => WriteAccounts(b, c, from, -amount);
    case _ =>
  }

  lemma MoveKeepsSolvent(b: Balances, from: Address, to: Address, amount: int)
    requires Solvent(b) && 0 <= amount && MoveBalance(b, from, to, amount).Some?
    ensures Solvent(MoveBalance(b, from, to, amount).value)
  {
    MoveConserves(b, from, to, amount);
  }

  /** Every successful call keeps all balances non-negative i128 values. */
  lemma CallKeepsSolvent(t: Token, auths: set<Address>, sequence: int, c: TokenCall)
    requires Solvent(t.balances) && Call(t, auths, sequence, c).Some?
    ensures Solvent(Call(t, auths, sequence, c).value.balances)
  {
    match c
    case Mint(to, amount) => WriteConserves(t.balances, to, amount);
    case Transfer(from, to, amount) => MoveKeepsSolvent(t.balances, from, to, amount);
    case TransferFrom(_, from, to, amount) => MoveKeepsSolvent(t.balances, from, to, amount);
    case Burn(from, amount) => WriteConserves(t.balances, from, -amount);
    case BurnFrom(_, from, amount) => WriteConserves(t.balances, from, -amount);
    case _ =>
  }

  /** On a solvent ledger a transfer goes through exactly when it is authorized, not negative,
      covered by the sender, and leaves the recipient within i128. */
  lemma TransferExactly(t: Token, auths: set<Address>, from: Address, to: Address, amount: int)
    requires Solvent(t.balances)
    ensures TransferIn(t, auths, from, to, amount).Some?
       <==> from in auths && 0 <= amount <= BalanceOf(t.balances, from)
            && (from == to || BalanceOf(t.balances, to) + amount <= I128_MAX)
  {
    if from != to { assert BalanceOf(t.balances[from := 0], to) == BalanceOf(t.balances, to); }
  }

  /** A transfer of `amount` leaves the recipient within i128. */
  predicate HasRoom(b: Balances, from: Address, to: Address, amount: int) {
    from == to || BalanceOf(b, to) + amount <= I128_MAX
  }

  /** Who must authorize each call, and what it needs besides: on a solvent ledger it succeeds
      exactly then. */
  lemma CallSucceedsExactly(t: Token, auths: set<Address>, sequence: int, c: TokenCall)
    requires Solvent(t.balances)
    ensures Call(t, auths, sequence, c).Some? <==>
            match c
            case Initialize(admin) => t.admin.None? && admin in auths
            case Mint(to, amount) =>
              t.admin.Some? && t.admin.value in auths && 0 <= amount <= I128_MAX - BalanceOf(t.balances, to)
            case Transfer(from, to, amount) =>
              from in auths && 0 <= amount <= BalanceOf(t.balances, from) && HasRoom(t.balances, from, to, amount)
            case TransferFrom(spender, from, to, amount) =>
              && spender in auths && 0 <= amount <= Spendable(t.allowances, from, spender, sequence)
              && amount <= BalanceOf(t.balances, from) && HasRoom(t.balances, from, to, amount)
            case Burn(from, amount) => from in auths && 0 <= amount <= BalanceOf(t.balances, from)
            case BurnFrom(spender, from, amount) =>
              && spender in auths && 0 <= amount <= Spendable(t.allowances, from, spender, sequence)
              && amount <= BalanceOf(t.balances, from)
            case Approve(from, _, amount, expiration) =>
              from in auths && (amount == 0 || (0 < amount && sequence <= expiration))
  {
    match c
    case Transfer(from, to, amount) => TransferExactly(t, auths, from, to, amount);
    case TransferFrom(_, from, to, amount) => TransferExactly(t, {from}, from, to, amount);
    case _ =>
  }

  /** What a successful call leaves besides the balances: the admin is set by `Initialize` alone,
      and of the allowances only the one it approves or spends changes, which then reads as
      approved, or as what could be spent less the amount. */
  lemma CallLeaves(t: Token, auths: set<Address>, sequence: int, c: TokenCall)
    requires Call(t, auths, sequence, c).Some?
    ensures var t' := Call(t, auths, sequence, c).value;
            && (t'.admin == if c.Initialize? then Some(c.admin) else t.admin)
            && t'.allowances ==
               match c
               case Approve(from, spender, amount, expiration) =>
                 t.allowances[(from, spender) := AllowanceData(amount, expiration)]
               case TransferFrom(spender, from, _, amount) => AfterSpend(t.allowances, sequence, from, spender, amount)
               case BurnFrom(spender, from, amount) => AfterSpend(t.allowances, sequence, from, spender, amount)
               case _ => t.allowances
  {
  }

  function AfterSpend(m: Allowances, sequence: int, from: Address, spender: Address, amount: int): Allowances {
    var data := AllowanceOf(m, from, spender);
    var left := if data.expirationLedger > sequence then data.amount else 0;
    m[(from, spender) := AllowanceData(left - amount, data.expirationLedger)]
  }
}
