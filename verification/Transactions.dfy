/** Transactions as the host applies them: a call that fails or traps leaves the world alone. */
module Transactions {
  import opened Protocol
  import opened TokenLedger
  import opened RouterSpec

  datatype Invocation =
    | Init(admin: Address)
    | Execute(solver: Address, intent: TraderIntent, amount: int)
    | Cancel(intent: TraderIntent)
    | OnToken(token: Address, call: TokenCall)

  /** A call with the addresses that authorize it, the ledger's clock and its sequence number. */
  datatype Tx = Tx(auths: set<Address>, now: int, sequence: int, invocation: Invocation) {
    /** The arguments decode to the types the contract declares. */
    predicate WellTyped() {
      match invocation
      case Execute(_, i, amount) => i.Representable() && FitsI128(amount)
      case Cancel(i) => i.Representable()
      case _ => true
    }
  }

  function Attempt(chain: Chain, w: World, tx: Tx): Outcome<World> {
    if !tx.WellTyped() then Trapped
    else
      match tx.invocation
      case Init(admin) =>
        (match InitIn(w.store, tx.auths, admin)
         case Done(store) => Done(w.(store := store))
         case Failed(e) => Failed(e)
         case Trapped => Trapped)
      case Execute(solver, i, amount) =>
        (match ExecuteIn(chain, w, tx.auths, tx.now, solver, i, amount)
         case Done(r) => Done(r.0)
         case Failed(e) => Failed(e)
         case Trapped => Trapped)
      case Cancel(i) =>
        (match CancelIn(chain, w.store, tx.auths, i)
         case Done(store) => Done(w.(store := store))
         case Failed(e) => Failed(e)
         case Trapped => Trapped)
      case OnToken(token, call) =>
        if token !in w.tokens then Trapped
        else
          match Call(w.tokens[token], tx.auths, tx.sequence, call)
          case None => Trapped
          case Some(t) => Done(w.(tokens := w.tokens[token := t]))
  }

  function Post(chain: Chain, w: World, tx: Tx): World {
    var out := Attempt(chain, w, tx);
    if out.Done? then out.value else w
  }

  function Run(chain: Chain, w: World, txs: seq<Tx>): World
    decreases |txs|
  {
    if txs == [] then w else Run(chain, Post(chain, w, txs[0]), txs[1..])
  }

  /** The transactions of a run that succeeded, in order. */
  function Applied(chain: Chain, w: World, txs: seq<Tx>): seq<Tx>
    decreases |txs|
  {
    if txs == [] then []
    else
      (if Attempt(chain, w, txs[0]).Done? then [txs[0]] else [])
      + Applied(chain, Post(chain, w, txs[0]), txs[1..])
  }
}
