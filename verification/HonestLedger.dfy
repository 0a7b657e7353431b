/** Honest tokens while others are hostile.  The re-entrancy machine runs with the ledgers of the
    honest tokens beside its store: a transfer due on one of them moves its balances or traps,
    anyone may call them between the router's steps, and a frame that traps takes their
    ledgers back to its entry as well. */
module HonestLedger {
  import opened Protocol
  import opened FillMath
  import opened TokenLedger
  import opened RouterSpec
  import opened Transactions
  import opened Journal
  import opened Reentrancy

  /** What the host restores on a trap: the ledgers, and how many of the journal's entries stand. */
  datatype Saved = Saved(tokens: Tokens, entries: nat)

  /** The machine, the honest tokens, the journal of the claims and token calls that stand, and what
      each frame would restore. */
  datatype System = System(machine: Machine, tokens: Tokens, journal: seq<Tx>, saved: seq<Saved>)

  datatype Event =
    | OfRouter(action: Action)
    | OfToken(auths: set<Address>, sequence: nat, token: Address, call: TokenCall)

  datatype Move = Move(token: Address, from: Address, to: Address, amount: int)

  /** The transfers of a fill, in order. */
  function Legs(self: Address, f: Fill): seq<Move> {
    var i, split := f.intent, f.ticket.split;
    [Move(i.sellToken, i.trader, f.solver, i.sellAmount),
     Move(i.buyToken, f.solver, self, f.amount),
     Move(i.buyToken, self, i.trader, split.proceeds)]
    + if split.fee > 0 then [Move(i.buyToken, self, f.solver, split.fee)] else []
  }

  /** The transfer due when `n` of a fill's are left. */
  function LegDue(self: Address, f: Fill, n: nat): Move
    requires 0 < n <= Transfers(f.ticket.split)
  {
    Legs(self, f)[Transfers(f.ticket.split) - n]
  }

  predicate Waiting(f: Frame) {
    f.FillFrame? && 0 < f.pending <= Transfers(f.fill.ticket.split)
  }

  /** The ledgers after the transfer that the top fill waits for, or none when it traps. */
  function MoveDue(self: Address, tokens: Tokens, f: Frame): Option<Tokens>
    requires Waiting(f)
  {
    var leg := LegDue(self, f.fill, f.pending);
    if leg.token !in tokens then Some(tokens)
    else TransferOn(tokens, {leg.from}, leg.token, leg.from, leg.to, leg.amount)
  }

  predicate Possible(chain: Chain, sys: System, e: Event) {
    match e
    case OfToken(auths, sequence, token, call) =>
      MayCall(sys.machine) && token in sys.tokens && Call(sys.tokens[token], auths, sequence, call).Some?
    case OfRouter(action) =>
      && Enabled(sys.machine, action)
      && |sys.saved| == |sys.machine.frames|
      && match action
         case TransferReturns => Waiting(Top(sys.machine)) && MoveDue(chain.self, sys.tokens, Top(sys.machine)).Some?
         case FrameTraps => sys.saved[|sys.saved| - 1].entries <= |sys.journal|
         case _ => true
  }

  /** A call that claimed an intent, as the journal notes it. */
  function NoteOf(action: Action, now: int): Tx
    requires action.CallExecute? || action.CallCancel?
  {
    match action
    case CallExecute(auths, solver, i, amount) => Tx(auths, now, 0, Execute(solver, i, amount))
    case CallCancel(auths, i) => Tx(auths, now, 0, Cancel(i))
  }

  function After(chain: Chain, sys: System, e: Event): System
    requires Possible(chain, sys, e)
  {
    match e
    case OfToken(auths, sequence, token, call) =>
      var tokens := sys.tokens[token := Call(sys.tokens[token], auths, sequence, call).value];
      sys.(tokens := tokens, journal := sys.journal + [Tx(auths, sys.machine.clock, sequence, OnToken(token, call))])
    case OfRouter(action) =>
      var m, last := Next(chain, sys.machine, action), |sys.saved| - 1;
      var claims := |m.log| == |sys.machine.log| + 1;
      match action
      case CallExecute(_, _, _, _) =>
        if !claims then sys.(machine := m)
        else System(m, sys.tokens, sys.journal + [NoteOf(action, m.clock)], Push(sys))
      case CallCancel(_, _) =>
        if !claims then sys.(machine := m)
        else sys.(machine := m, journal := sys.journal + [NoteOf(action, m.clock)])
      case CallForeign => sys.(machine := m, saved := Push(sys))
      case TransferReturns => sys.(machine := m, tokens := MoveDue(chain.self, sys.tokens, Top(sys.machine)).value)
      case FrameTraps => System(m, sys.saved[last].tokens, sys.journal[..sys.saved[last].entries], sys.saved[..last])
      case FillFinishes => sys.(machine := m, saved := sys.saved[..last])
      case ForeignReturns => sys.(machine := m, saved := sys.saved[..last])
      case _ => sys.(machine := m)
  }

  function Push(sys: System): seq<Saved> { sys.saved + [Saved(sys.tokens, |sys.journal|)] }

  function Evolve(chain: Chain, sys: System, events: seq<Event>): Option<System> {
    if events == [] then Some(sys)
    else
      var before :- Evolve(chain, sys, events[..|events| - 1]);
      var e := events[|events| - 1];
      if Possible(chain, before, e) then Some(After(chain, before, e)) else None
  }

  function StartOf(opening: Tokens): System { System(START, opening, [], []) }

  // ----- what the fills in flight have yet to move -----

  function MoveDelta(leg: Move, t: Address, a: Address): int {
    if leg.token == t then On(a, leg.to, leg.amount) - On(a, leg.from, leg.amount) else 0
  }

  /** What the last `n` transfers of a fill will add to a holding. */
  function Owed(self: Address, f: Fill, n: nat, t: Address, a: Address): int
    requires n <= Transfers(f.ticket.split)
  {
    if n == 0 then 0 else MoveDelta(LegDue(self, f, n), t, a) + Owed(self, f, n - 1, t, a)
  }

  /** The fill's split adds up, and no transfer is negative. */
  predicate Proper(f: Frame) {
    f.FillFrame? ==>
      var split := f.fill.ticket.split;
      && f.pending <= Transfers(split)
      && 0 <= f.fill.intent.sellAmount && 0 <= split.proceeds && 0 <= split.fee
      && split.proceeds + split.fee == f.fill.amount
      && split.proceeds == Proceeds(f.fill.amount, f.fill.intent.solverFeeBps)
  }

  function FrameOwes(self: Address, f: Frame, t: Address, a: Address): int
    requires Proper(f)
  {
    if f.FillFrame? then Owed(self, f.fill, f.pending, t, a) else 0
  }

  ghost predicate AllProper(frames: seq<Frame>) { forall k :: 0 <= k < |frames| ==> Proper(frames[k]) }

  function Outstanding(self: Address, frames: seq<Frame>, t: Address, a: Address): int
    requires AllProper(frames)
  {
    if frames == [] then 0
    else Outstanding(self, frames[..|frames| - 1], t, a) + FrameOwes(self, frames[|frames| - 1], t, a)
  }

  lemma OutstandingGrows(self: Address, frames: seq<Frame>, f: Frame, t: Address, a: Address)
    requires AllProper(frames) && Proper(f)
    ensures AllProper(frames + [f])
    ensures Outstanding(self, frames + [f], t, a) == Outstanding(self, frames, t, a) + FrameOwes(self, f, t, a)
  {
    assert (frames + [f])[..|frames|] == frames;
  }

  lemma OnAdds(x: Address, y: Address, m: int, n: int)
    ensures On(x, y, m) + On(x, y, n) == On(x, y, m + n)
  {
  }

  lemma OwedUnrolls(self: Address, f: Fill, t: Address, a: Address)
    ensures var legs, n := Legs(self, f), Transfers(f.ticket.split);
            |legs| == n
            && Owed(self, f, n, t, a)
               == MoveDelta(legs[0], t, a) + MoveDelta(legs[1], t, a) + MoveDelta(legs[2], t, a)
                  + if n == 4 then MoveDelta(legs[3], t, a) else 0
  {
    var legs, n := Legs(self, f), Transfers(f.ticket.split);
    assert Owed(self, f, n, t, a) == MoveDelta(legs[0], t, a) + Owed(self, f, n - 1, t, a);
    assert Owed(self, f, n - 1, t, a) == MoveDelta(legs[1], t, a) + Owed(self, f, n - 2, t, a);
    assert Owed(self, f, n - 2, t, a) == MoveDelta(legs[2], t, a) + Owed(self, f, n - 3, t, a);
    assert Owed(self, f, n - 3, t, a) == if n == 4 then MoveDelta(legs[3], t, a) else 0;
  }

  lemma LegsAddUp(self: Address, f: Fill, t: Address, a: Address)
    requires 0 <= f.ticket.split.fee && f.ticket.split.proceeds + f.ticket.split.fee == f.amount
    ensures var legs := Legs(self, f);
            MoveDelta(legs[0], t, a) + MoveDelta(legs[1], t, a) + MoveDelta(legs[2], t, a)
            + (if |legs| == 4 then MoveDelta(legs[3], t, a) else 0)
            == FillDelta(f.solver, f.intent, f.ticket.split.proceeds, t, a)
  {
    var split := f.ticket.split;
    OnAdds(a, self, split.proceeds, split.fee);
    OnAdds(a, f.solver, split.proceeds, split.fee);
    assert split.fee == 0 ==> On(a, self, split.fee) == 0 == On(a, f.solver, split.fee);
  }

  /** All transfers of a fill together are the fill's delta: the router keeps nothing. */
  lemma LegsAreTheFill(self: Address, f: Frame, t: Address, a: Address)
    requires f.FillFrame? && Proper(f) && f.pending == Transfers(f.fill.ticket.split)
    ensures FrameOwes(self, f, t, a)
         == FillDelta(f.fill.solver, f.fill.intent, Proceeds(f.fill.amount, f.fill.intent.solverFeeBps), t, a)
  {
    OwedUnrolls(self, f.fill, t, a);
    LegsAddUp(self, f.fill, t, a);
  }

  // ----- what holds of ledgers, log, journal and frames that belong together -----

  /** Every holding of an honest token, with what the fills in flight will still add, is the opening
      one plus the journal's deltas; supplies are conserved and holdings stay in range. */
  ghost predicate Balanced(self: Address, opening: Tokens, tokens: Tokens, journal: seq<Tx>, frames: seq<Frame>)
    requires AllProper(frames)
  {
    && (forall t :: t in tokens <==> t in opening)
    && (forall t, a :: t in opening ==>
          Holding(tokens, t, a) + Outstanding(self, frames, t, a) == Holding(opening, t, a) + SumDelta(journal, t, a))
    && (forall t :: t in opening && t in tokens ==>
          Supply(tokens[t].balances) == Supply(opening[t].balances) + MintedLessBurned(journal, t))
    && (SolventTokens(opening) ==> SolventTokens(tokens))
  }

  /** All that stands was authorized by these addresses. */
  ghost predicate ActedBy(journal: seq<Tx>, actors: set<Address>) {
    forall k :: 0 <= k < |journal| ==> journal[k].auths <= actors
  }

  /** Who neither acted nor approved any that did is not worse off by what stands. */
  ghost predicate Consented(opening: Tokens, tokens: Tokens, journal: seq<Tx>) {
    forall a, actors :: ActedBy(journal, actors) && a !in actors && Unapproved(opening, a, actors) ==>
      Unapproved(tokens, a, actors) && forall t :: 0 <= SumDelta(journal, t, a)
  }

  /** The claim that a transaction of the journal makes. */
  function ClaimIn(chain: Chain, tx: Tx): seq<Entry> {
    match tx.invocation
    case Execute(solver, i, amount) => [Filling(chain.hash(i), i, solver, amount, tx.now, tx.auths)]
    case Cancel(i) => [Cancelling(chain.hash(i), i, tx.auths)]
    case _ => []
  }

  function ClaimsIn(chain: Chain, journal: seq<Tx>): seq<Entry> {
    if journal == [] then []
    else ClaimsIn(chain, journal[..|journal| - 1]) + ClaimIn(chain, journal[|journal| - 1])
  }

  /** A claim with the consent of its parties, who are two, and within tolerance. */
  predicate Agreed(tx: Tx) {
    match tx.invocation
    case Execute(solver, i, _) => solver != i.trader && solver in tx.auths && i.trader in tx.auths && Fair(tx)
    case Cancel(i) => i.trader in tx.auths
    case _ => true
  }

  ghost predicate AllAgreed(journal: seq<Tx>) { forall k :: 0 <= k < |journal| ==> Agreed(journal[k]) }

  ghost predicate Kept(chain: Chain, opening: Tokens, tokens: Tokens, log: seq<Entry>, journal: seq<Tx>,
                       frames: seq<Frame>)
    requires AllProper(frames)
  {
    && Balanced(chain.self, opening, tokens, journal, frames)
    && Consented(opening, tokens, journal)
    && ClaimsIn(chain, journal) == log
    && AllAgreed(journal)
  }

  // ----- each kind of step keeps it -----

  lemma {:induction false} DeltasGrow(journal: seq<Tx>, tx: Tx, t: Address, a: Address)
    ensures SumDelta(journal + [tx], t, a) == SumDelta(journal, t, a) + Delta(tx, t, a)
    ensures MintedLessBurned(journal + [tx], t) == MintedLessBurned(journal, t) + Minted(tx, t)
  {
    var longer := journal + [tx];
    if journal == [] {
      assert longer[1..] == [];
    } else {
      assert longer[0] == journal[0] && longer[1..] == journal[1..] + [tx];
      DeltasGrow(journal[1..], tx, t, a);
    }
  }

  lemma NothingMinted(journal: seq<Tx>, tx: Tx)
    requires !tx.invocation.OnToken?
    ensures forall t :: MintedLessBurned(journal + [tx], t) == MintedLessBurned(journal, t)
  {
    forall t ensures MintedLessBurned(journal + [tx], t) == MintedLessBurned(journal, t) {
      DeltasGrow(journal, tx, t, t);
    }
  }

  lemma ClaimsGrow(chain: Chain, journal: seq<Tx>, tx: Tx)
    ensures ClaimsIn(chain, journal + [tx]) == ClaimsIn(chain, journal) + ClaimIn(chain, tx)
  {
    assert (journal + [tx])[..|journal|] == journal;
  }

  lemma ActorsGrow(journal: seq<Tx>, tx: Tx, actors: set<Address>)
    ensures ActedBy(journal + [tx], actors) <==> ActedBy(journal, actors) && tx.auths <= actors
  {
    var longer := journal + [tx];
    assert longer[|journal|] == tx;
    assert forall k :: 0 <= k < |journal| ==> longer[k] == journal[k];
  }

  /** A transaction that takes nothing from who did not authorize it. */
  lemma ConsentGrows(opening: Tokens, tokens: Tokens, journal: seq<Tx>, tx: Tx, tokens': Tokens)
    requires Consented(opening, tokens, journal)
    requires forall a, actors :: tx.auths <= actors && a !in actors && Unapproved(tokens, a, actors) ==>
               Unapproved(tokens', a, actors) && forall t :: 0 <= Delta(tx, t, a)
    ensures Consented(opening, tokens', journal + [tx])
  {
    forall a, actors | ActedBy(journal + [tx], actors) && a !in actors && Unapproved(opening, a, actors)
      ensures Unapproved(tokens', a, actors) && forall t :: 0 <= SumDelta(journal + [tx], t, a)
    {
      ActorsGrow(journal, tx, actors);
      forall t ensures 0 <= SumDelta(journal + [tx], t, a) { DeltasGrow(journal, tx, t, a); }
    }
  }

  lemma AgreedGrows(journal: seq<Tx>, tx: Tx)
    requires AllAgreed(journal) && Agreed(tx)
    ensures AllAgreed(journal + [tx])
  {
  }

  /** A direct call on an honest token. */
  lemma CallKeeps(chain: Chain, opening: Tokens, tokens: Tokens, log: seq<Entry>, journal: seq<Tx>, frames: seq<Frame>,
                  tx: Tx)
    requires AllProper(frames) && Kept(chain, opening, tokens, log, journal, frames)
    requires tx.invocation.OnToken? && tx.invocation.token in tokens
    requires Call(tokens[tx.invocation.token], tx.auths, tx.sequence, tx.invocation.call).Some?
    ensures var OnToken(token, call) := tx.invocation;
            var t' := Call(tokens[token], tx.auths, tx.sequence, call).value;
            Kept(chain, opening, tokens[token := t'], log, journal + [tx], frames)
  {
    var OnToken(token, call) := tx.invocation;
    var tokens' := tokens[token := Call(tokens[token], tx.auths, tx.sequence, call).value];
    CallIsBalanced(chain.self, opening, tokens, journal, frames, tx);
    forall a, actors | tx.auths <= actors && a !in actors && Unapproved(tokens, a, actors)
      ensures Unapproved(tokens', a, actors) && forall t :: 0 <= Delta(tx, t, a)
    {
      IdleCall(tokens[token], tx.auths, tx.sequence, call, a, actors);
    }
    ConsentGrows(opening, tokens, journal, tx, tokens');
    ClaimsGrow(chain, journal, tx);
    AgreedGrows(journal, tx);
  }

  lemma CallIsBalanced(self: Address, opening: Tokens, tokens: Tokens, journal: seq<Tx>, frames: seq<Frame>, tx: Tx)
    requires AllProper(frames) && Balanced(self, opening, tokens, journal, frames)
    requires tx.invocation.OnToken? && tx.invocation.token in tokens
    requires Call(tokens[tx.invocation.token], tx.auths, tx.sequence, tx.invocation.call).Some?
    ensures var OnToken(token, call) := tx.invocation;
            var t' := Call(tokens[token], tx.auths, tx.sequence, call).value;
            Balanced(self, opening, tokens[token := t'], journal + [tx], frames)
  {
    var OnToken(token, call) := tx.invocation;
    var tokens' := tokens[token := Call(tokens[token], tx.auths, tx.sequence, call).value];
    CallAccounts(tokens[token], tx.auths, tx.sequence, call);
    if SolventTokens(tokens) { CallKeepsSolvent(tokens[token], tx.auths, tx.sequence, call); }
    forall t, a | t in opening
      ensures Holding(tokens', t, a) == Holding(tokens, t, a) + Delta(tx, t, a)
      ensures SumDelta(journal + [tx], t, a) == SumDelta(journal, t, a) + Delta(tx, t, a)
    {
      DeltasGrow(journal, tx, t, a);
    }
    forall t | t in opening && t in tokens'
      ensures Supply(tokens'[t].balances) == Supply(opening[t].balances) + MintedLessBurned(journal + [tx], t)
    {
      DeltasGrow(journal, tx, t, self);
      assert t in tokens && Supply(tokens[t].balances) == Supply(opening[t].balances) + MintedLessBurned(journal, t);
    }
  }

  /** A fill in flight is on the books from its first write: what it claims is what it owes. */
  lemma FillKeeps(chain: Chain, opening: Tokens, tokens: Tokens, log: seq<Entry>, journal: seq<Tx>, frames: seq<Frame>,
                  f: Frame, tx: Tx)
    requires AllProper(frames) && Kept(chain, opening, tokens, log, journal, frames)
    requires f.FillFrame? && Proper(f) && f.pending == Transfers(f.fill.ticket.split)
    requires tx.invocation == Execute(f.fill.solver, f.fill.intent, f.fill.amount) && Agreed(tx)
    requires ClaimIn(chain, tx) == [ClaimOf(f.fill)]
    ensures AllProper(frames + [f])
    ensures Kept(chain, opening, tokens, log + [ClaimOf(f.fill)], journal + [tx], frames + [f])
  {
    forall t, a
      ensures AllProper(frames + [f])
      ensures Outstanding(chain.self, frames + [f], t, a) - SumDelta(journal + [tx], t, a)
           == Outstanding(chain.self, frames, t, a) - SumDelta(journal, t, a)
    {
      OutstandingGrows(chain.self, frames, f, t, a);
      LegsAreTheFill(chain.self, f, t, a);
      DeltasGrow(journal, tx, t, a);
    }
    NothingMinted(journal, tx);
    ConsentGrows(opening, tokens, journal, tx, tokens);
    ClaimsGrow(chain, journal, tx);
    AgreedGrows(journal, tx);
  }

  lemma CancelKeepsBooks(chain: Chain, opening: Tokens, tokens: Tokens, log: seq<Entry>, journal: seq<Tx>,
                         frames: seq<Frame>, tx: Tx)
    requires AllProper(frames) && Kept(chain, opening, tokens, log, journal, frames)
    requires tx.invocation.Cancel? && Agreed(tx)
    ensures Kept(chain, opening, tokens, log + ClaimIn(chain, tx), journal + [tx], frames)
  {
    forall t, a
      ensures SumDelta(journal + [tx], t, a) == SumDelta(journal, t, a)
    {
      DeltasGrow(journal, tx, t, a);
    }
    NothingMinted(journal, tx);
    ConsentGrows(opening, tokens, journal, tx, tokens);
    ClaimsGrow(chain, journal, tx);
    AgreedGrows(journal, tx);
  }

  /** A frame that owes nothing comes or goes. */
  lemma IdleFrameKeeps(chain: Chain, opening: Tokens, tokens: Tokens, log: seq<Entry>, journal: seq<Tx>,
                       frames: seq<Frame>, f: Frame)
    requires AllProper(frames) && Proper(f) && (f.ForeignFrame? || f.pending == 0)
    ensures AllProper(frames + [f])
    ensures Kept(chain, opening, tokens, log, journal, frames + [f])
       <==> Kept(chain, opening, tokens, log, journal, frames)
  {
    forall t, a
      ensures AllProper(frames + [f])
      ensures Outstanding(chain.self, frames + [f], t, a) == Outstanding(chain.self, frames, t, a)
    {
      OutstandingGrows(chain.self, frames, f, t, a);
    }
  }

  /** A transfer of the top fill moves exactly what it stops owing. */
  lemma ReturnKeepsBooks(chain: Chain, opening: Tokens, tokens: Tokens, log: seq<Entry>, journal: seq<Tx>,
                         below: seq<Frame>, f: Frame)
    requires AllProper(below) && Proper(f) && Waiting(f) && MoveDue(chain.self, tokens, f).Some?
    requires AllProper(below + [f]) && Kept(chain, opening, tokens, log, journal, below + [f])
    ensures var frames := below + [f.(pending := f.pending - 1)];
            AllProper(frames) && Kept(chain, opening, MoveDue(chain.self, tokens, f).value, log, journal, frames)
  {
    ReturnIsBalanced(chain.self, opening, tokens, journal, below, f);
    ReturnIsConsented(chain.self, opening, tokens, journal, f);
  }

  lemma ReturnIsBalanced(self: Address, opening: Tokens, tokens: Tokens, journal: seq<Tx>, below: seq<Frame>, f: Frame)
    requires AllProper(below) && Proper(f) && Waiting(f) && MoveDue(self, tokens, f).Some?
    requires AllProper(below + [f]) && Balanced(self, opening, tokens, journal, below + [f])
    ensures var frames := below + [f.(pending := f.pending - 1)];
            AllProper(frames) && Balanced(self, opening, MoveDue(self, tokens, f).value, journal, frames)
  {
    var f', tokens' := f.(pending := f.pending - 1), MoveDue(self, tokens, f).value;
    DueKeeps(self, tokens, f);
    forall t, a
      ensures AllProper(below + [f'])
      ensures var before, after := Outstanding(self, below + [f], t, a), Outstanding(self, below + [f'], t, a);
              t in tokens ==> Holding(tokens', t, a) + after == Holding(tokens, t, a) + before
    {
      ReturnIsEven(self, tokens, below, f, t, a);
    }
  }

  lemma ReturnIsEven(self: Address, tokens: Tokens, below: seq<Frame>, f: Frame, t: Address, a: Address)
    requires AllProper(below) && Proper(f) && Waiting(f) && MoveDue(self, tokens, f).Some?
    ensures var f', tokens' := f.(pending := f.pending - 1), MoveDue(self, tokens, f).value;
            && AllProper(below + [f]) && AllProper(below + [f'])
            && var before, after := Outstanding(self, below + [f], t, a), Outstanding(self, below + [f'], t, a);
               t in tokens ==> Holding(tokens', t, a) + after == Holding(tokens, t, a) + before
  {
    OutstandingGrows(self, below, f, t, a);
    OutstandingGrows(self, below, f.(pending := f.pending - 1), t, a);
    if t in tokens { DueMoves(self, tokens, f, t, a); }
  }

  lemma ReturnIsConsented(self: Address, opening: Tokens, tokens: Tokens, journal: seq<Tx>, f: Frame)
    requires Waiting(f) && MoveDue(self, tokens, f).Some? && Consented(opening, tokens, journal)
    ensures Consented(opening, MoveDue(self, tokens, f).value, journal)
  {
    var tokens' := MoveDue(self, tokens, f).value;
    DueKeeps(self, tokens, f);
    forall a, actors | Unapproved(tokens, a, actors) ensures Unapproved(tokens', a, actors) { }
  }

  lemma DueMoves(self: Address, tokens: Tokens, f: Frame, t: Address, a: Address)
    requires Waiting(f) && MoveDue(self, tokens, f).Some? && t in tokens
    ensures Holding(MoveDue(self, tokens, f).value, t, a)
         == Holding(tokens, t, a) + MoveDelta(LegDue(self, f.fill, f.pending), t, a)
  {
    var leg := LegDue(self, f.fill, f.pending);
    if leg.token in tokens { TransferOnMoves(tokens, {leg.from}, leg.token, leg.from, leg.to, leg.amount, t, a); }
  }

  lemma DueKeeps(self: Address, tokens: Tokens, f: Frame)
    requires Waiting(f) && MoveDue(self, tokens, f).Some?
    ensures var tokens' := MoveDue(self, tokens, f).value;
            && (forall t :: t in tokens' <==> t in tokens)
            && (forall t :: t in tokens ==> Supply(tokens'[t].balances) == Supply(tokens[t].balances)
                                            && tokens'[t].allowances == tokens[t].allowances)
            && (SolventTokens(tokens) ==> SolventTokens(tokens'))
  {
    var leg, tokens' := LegDue(self, f.fill, f.pending), MoveDue(self, tokens, f).value;
    if leg.token in tokens {
      TransferOnTouches(tokens, {leg.from}, leg.token, leg.from, leg.to, leg.amount);
      forall t | t in tokens
        ensures Supply(tokens'[t].balances) == Supply(tokens[t].balances)
        ensures tokens'[t].allowances == tokens[t].allowances
      {
        assert Touches(tokens, tokens', t, MoveTouches(leg.token, leg.from, leg.to, t));
      }
    }
  }

  // ----- the whole system -----

  ghost predicate Rising(saved: seq<Saved>) {
    forall j, k :: 0 <= j < k < |saved| ==> saved[j].entries <= saved[k].entries
  }

  /** The books hold now, and would after rolling back any frame. */
  ghost predicate BooksHold(chain: Chain, opening: Tokens, sys: System) {
    var m := sys.machine;
    && |sys.saved| == |m.frames| && AllProper(m.frames)
    && Kept(chain, opening, sys.tokens, m.log, sys.journal, m.frames)
    && StackHolds(chain, opening, m.log, m.frames, sys.journal, sys.saved)
  }

  ghost predicate StackHolds(chain: Chain, opening: Tokens, log: seq<Entry>, frames: seq<Frame>, journal: seq<Tx>,
                             saved: seq<Saved>)
    requires |frames| == |saved| && AllProper(frames)
  {
    && Rising(saved)
    && forall k :: 0 <= k < |frames| ==> EntryHolds(chain, opening, log, frames, journal, saved, k)
  }

  ghost predicate EntryHolds(chain: Chain, opening: Tokens, log: seq<Entry>, frames: seq<Frame>, journal: seq<Tx>,
                             saved: seq<Saved>, k: nat)
    requires k < |frames| == |saved| && AllProper(frames)
  {
    && frames[k].mark <= |log| && saved[k].entries <= |journal|
    && Kept(chain, opening, saved[k].tokens, log[..frames[k].mark], journal[..saved[k].entries], frames[..k])
  }

  /** Longer logs and journals, and another frame, do not disturb the entries already saved. */
  lemma StackStays(chain: Chain, opening: Tokens, log: seq<Entry>, frames: seq<Frame>, journal: seq<Tx>,
                   saved: seq<Saved>, log': seq<Entry>, frames': seq<Frame>, journal': seq<Tx>)
    requires |frames| == |frames'| == |saved| && AllProper(frames) && AllProper(frames')
    requires StackHolds(chain, opening, log, frames, journal, saved) && log <= log' && journal <= journal'
    requires forall k :: 0 <= k < |frames| ==> frames'[k].mark == frames[k].mark && frames'[..k] == frames[..k]
    ensures StackHolds(chain, opening, log', frames', journal', saved)
  {
    forall k | 0 <= k < |frames'| ensures EntryHolds(chain, opening, log', frames', journal', saved, k) {
      assert EntryHolds(chain, opening, log, frames, journal, saved, k);
      assert log'[..frames[k].mark] == log[..frames[k].mark];
      assert journal'[..saved[k].entries] == journal[..saved[k].entries];
    }
  }

  lemma StackPushes(chain: Chain, opening: Tokens, sys: System, f: Frame)
    requires BooksHold(chain, opening, sys) && Proper(f) && f.mark == |sys.machine.log|
    ensures AllProper(sys.machine.frames + [f])
    ensures StackHolds(chain, opening, sys.machine.log, sys.machine.frames + [f], sys.journal, Push(sys))
  {
    var m, last := sys.machine, |sys.saved|;
    var frames, saved := m.frames + [f], Push(sys);
    forall k | 0 <= k <= last ensures EntryHolds(chain, opening, m.log, frames, sys.journal, saved, k) {
      if k < last {
        assert EntryHolds(chain, opening, m.log, m.frames, sys.journal, sys.saved, k);
        assert frames[..k] == m.frames[..k];
      } else {
        assert m.log[..f.mark] == m.log && sys.journal[..|sys.journal|] == sys.journal && frames[..last] == m.frames;
      }
    }
    forall j | 0 <= j < last ensures saved[j].entries <= saved[last].entries {
      assert EntryHolds(chain, opening, m.log, frames, sys.journal, saved, j);
    }
  }

  /** Cutting log, journal and stack where a frame began leaves the entries below it. */
  lemma StackCuts(chain: Chain, opening: Tokens, log: seq<Entry>, frames: seq<Frame>, journal: seq<Tx>,
                  saved: seq<Saved>, mark: nat, entries: nat, last: nat)
    requires |frames| == |saved| && AllProper(frames) && StackHolds(chain, opening, log, frames, journal, saved)
    requires last <= |frames| && mark <= |log| && entries <= |journal|
    requires forall k :: 0 <= k < last ==> frames[k].mark <= mark && saved[k].entries <= entries
    ensures AllProper(frames[..last])
    ensures StackHolds(chain, opening, log[..mark], frames[..last], journal[..entries], saved[..last])
  {
    forall k | 0 <= k < last
      ensures EntryHolds(chain, opening, log[..mark], frames[..last], journal[..entries], saved[..last], k)
    {
      assert EntryHolds(chain, opening, log, frames, journal, saved, k);
      assert log[..mark][..frames[k].mark] == log[..frames[k].mark] && frames[..last][..k] == frames[..k];
      assert journal[..entries][..saved[k].entries] == journal[..saved[k].entries];
    }
  }

  lemma AdmittedIsProper(chain: Chain, m: Machine, auths: set<Address>, solver: Address, i: TraderIntent, amount: int)
    requires i.Representable() && FitsI128(amount)
    requires Admit(chain, m.store, auths, m.clock, solver, i, amount).Done?
    ensures var m' := ExecuteStep(chain, m, auths, solver, i, amount);
            var f, tx := Top(m'), NoteOf(CallExecute(auths, solver, i, amount), m'.clock);
            && m'.log == m.log + [ClaimOf(f.fill)] && m'.frames == m.frames + [f]
            && f.FillFrame? && f.mark == |m.log| && Proper(f) && f.pending == Transfers(f.fill.ticket.split)
            && tx.invocation == Execute(f.fill.solver, f.fill.intent, f.fill.amount) && Agreed(tx)
            && ClaimIn(chain, tx) == [ClaimOf(f.fill)]
  {
    AdmittedExactly(chain, m.store, auths, m.clock, solver, i, amount);
    FeeFacts(amount, i.solverFeeBps);
  }

  lemma ExecuteKeepsBooks(chain: Chain, opening: Tokens, sys: System, action: Action)
    requires BooksHold(chain, opening, sys) && action.CallExecute? && Possible(chain, sys, OfRouter(action))
    ensures BooksHold(chain, opening, After(chain, sys, OfRouter(action)))
  {
    var CallExecute(auths, solver, i, amount) := action;
    var m := sys.machine;
    if Admit(chain, m.store, auths, m.clock, solver, i, amount).Done? {
      var sys' := After(chain, sys, OfRouter(action));
      var f, tx := Top(sys'.machine), NoteOf(action, m.clock);
      AdmittedIsProper(chain, m, auths, solver, i, amount);
      FillKeeps(chain, opening, sys.tokens, m.log, sys.journal, m.frames, f, tx);
      StackPushes(chain, opening, sys, f);
      StackStays(chain, opening, m.log, m.frames + [f], sys.journal, Push(sys),
                 sys'.machine.log, m.frames + [f], sys'.journal);
    }
  }

  lemma CancelIsNoted(chain: Chain, m: Machine, auths: set<Address>, i: TraderIntent)
    requires i.Representable() && CancelStep(chain, m, auths, i) != m
    ensures var m', tx := CancelStep(chain, m, auths, i), NoteOf(CallCancel(auths, i), m.clock);
            m'.log == m.log + ClaimIn(chain, tx) && |m'.log| == |m.log| + 1 && m'.frames == m.frames && Agreed(tx)
  {
  }

  lemma CancelEventKeepsBooks(chain: Chain, opening: Tokens, sys: System, action: Action)
    requires BooksHold(chain, opening, sys) && action.CallCancel? && Possible(chain, sys, OfRouter(action))
    ensures BooksHold(chain, opening, After(chain, sys, OfRouter(action)))
  {
    var CallCancel(auths, i) := action;
    var m, m', tx := sys.machine, CancelStep(chain, sys.machine, auths, i), NoteOf(action, sys.machine.clock);
    if m' != m {
      CancelIsNoted(chain, m, auths, i);
      CancelKeepsBooks(chain, opening, sys.tokens, m.log, sys.journal, m.frames, tx);
      StackStays(chain, opening, m.log, m.frames, sys.journal, sys.saved, m'.log, m.frames, sys.journal + [tx]);
    }
  }

  lemma ForeignEventKeepsBooks(chain: Chain, opening: Tokens, sys: System)
    requires BooksHold(chain, opening, sys) && Possible(chain, sys, OfRouter(CallForeign))
    ensures BooksHold(chain, opening, After(chain, sys, OfRouter(CallForeign)))
  {
    var m := sys.machine;
    var f := ForeignFrame(m.store, |m.log|);
    IdleFrameKeeps(chain, opening, sys.tokens, m.log, sys.journal, m.frames, f);
    StackPushes(chain, opening, sys, f);
  }

  lemma ReturnEventKeepsBooks(chain: Chain, opening: Tokens, sys: System)
    requires BooksHold(chain, opening, sys) && Possible(chain, sys, OfRouter(TransferReturns))
    ensures BooksHold(chain, opening, After(chain, sys, OfRouter(TransferReturns)))
  {
    var m := sys.machine;
    var frames := ReturnStep(m).frames;
    ReturnedFrames(m);
    ReturnKeepsBooks(chain, opening, sys.tokens, m.log, sys.journal, Below(m), Top(m));
    StackStays(chain, opening, m.log, m.frames, sys.journal, sys.saved, m.log, frames, sys.journal);
  }

  lemma ReturnedFrames(m: Machine)
    requires Waits(m) && AllProper(m.frames)
    ensures var frames := ReturnStep(m).frames;
            && |frames| == |m.frames| && frames == Below(m) + [Top(m).(pending := Top(m).pending - 1)]
            && m.frames == Below(m) + [Top(m)] && AllProper(Below(m)) && Proper(Top(m))
            && forall k :: 0 <= k < |frames| ==> frames[k].mark == m.frames[k].mark && frames[..k] == m.frames[..k]
  {
  }

  lemma PopEventKeepsBooks(chain: Chain, opening: Tokens, sys: System, action: Action)
    requires BooksHold(chain, opening, sys) && (action.FillFinishes? || action.ForeignReturns?)
    requires Possible(chain, sys, OfRouter(action))
    ensures BooksHold(chain, opening, After(chain, sys, OfRouter(action)))
  {
    var m, below, last := sys.machine, Below(sys.machine), |sys.saved| - 1;
    assert m.frames == below + [Top(m)] && Proper(m.frames[last]);
    IdleFrameKeeps(chain, opening, sys.tokens, m.log, sys.journal, below, Top(m));
    forall k | 0 <= k < last ensures m.frames[k].mark <= |m.log| && sys.saved[k].entries <= |sys.journal| {
      assert EntryHolds(chain, opening, m.log, m.frames, sys.journal, sys.saved, k);
    }
    StackCuts(chain, opening, m.log, m.frames, sys.journal, sys.saved, |m.log|, |sys.journal|, last);
    assert m.log[..|m.log|] == m.log && sys.journal[..|sys.journal|] == sys.journal;
  }

  /** A trap puts the books of the frame's entry back. */
  lemma TrapEventKeepsBooks(chain: Chain, opening: Tokens, sys: System)
    requires BooksHold(chain, opening, sys) && Stacked(sys.machine.log, sys.machine.frames)
    requires Possible(chain, sys, OfRouter(FrameTraps))
    ensures BooksHold(chain, opening, After(chain, sys, OfRouter(FrameTraps)))
  {
    var m, last := sys.machine, |sys.saved| - 1;
    assert EntryHolds(chain, opening, m.log, m.frames, sys.journal, sys.saved, last);
    forall k | 0 <= k < last ensures m.frames[k].mark <= m.frames[last].mark {
      assert Under(m.frames[k], m.frames[last]);
    }
    var mark, entries := m.frames[last].mark, sys.saved[last].entries;
    StackCuts(chain, opening, m.log, m.frames, sys.journal, sys.saved, mark, entries, last);
  }

  lemma TokenEventKeepsBooks(chain: Chain, opening: Tokens, sys: System, e: Event)
    requires BooksHold(chain, opening, sys) && e.OfToken? && Possible(chain, sys, e)
    ensures BooksHold(chain, opening, After(chain, sys, e))
  {
    var m, sys' := sys.machine, After(chain, sys, e);
    var tx := Tx(e.auths, m.clock, e.sequence, OnToken(e.token, e.call));
    CallKeeps(chain, opening, sys.tokens, m.log, sys.journal, m.frames, tx);
    StackStays(chain, opening, m.log, m.frames, sys.journal, sys.saved, m.log, m.frames, sys'.journal);
  }

  /** Every event keeps the books. */
  lemma EventKeepsBooks(chain: Chain, opening: Tokens, sys: System, e: Event)
    requires BooksHold(chain, opening, sys) && Stacked(sys.machine.log, sys.machine.frames)
    requires Possible(chain, sys, e)
    ensures BooksHold(chain, opening, After(chain, sys, e))
  {
    match e
    case OfToken(_, _, _, _) => TokenEventKeepsBooks(chain, opening, sys, e);
    case OfRouter(action) =>
      match action
      case CallExecute(_, _, _, _) => ExecuteKeepsBooks(chain, opening, sys, action);
      case CallCancel(_, _) => CancelEventKeepsBooks(chain, opening, sys, action);
      case CallForeign => ForeignEventKeepsBooks(chain, opening, sys);
      case TransferReturns => ReturnEventKeepsBooks(chain, opening, sys);
      case FrameTraps => TrapEventKeepsBooks(chain, opening, sys);
      case FillFinishes => PopEventKeepsBooks(chain, opening, sys, action);
      case ForeignReturns => PopEventKeepsBooks(chain, opening, sys, action);
      case _ =>
  }

  // ----- what holds in every reachable system -----

  ghost predicate Arises(chain: Chain, opening: Tokens, sys: System) {
    exists events :: Evolve(chain, StartOf(opening), events) == Some(sys)
  }

  lemma StartHolds(chain: Chain, opening: Tokens)
    ensures BooksHold(chain, opening, StartOf(opening)) && Reachable(chain, START)
  {
    assert Steps(chain, START, []) == Some(START);
  }

  lemma EventKeepsReachable(chain: Chain, opening: Tokens, sys: System, e: Event)
    requires BooksHold(chain, opening, sys) && Reachable(chain, sys.machine) && Possible(chain, sys, e)
    ensures BooksHold(chain, opening, After(chain, sys, e)) && Reachable(chain, After(chain, sys, e).machine)
  {
    ReachableInv(chain, sys.machine);
    EventKeepsBooks(chain, opening, sys, e);
    if e.OfRouter? { ReachesNext(chain, sys.machine, e.action); }
  }

  lemma {:induction false} EvolveKeepsBooks(chain: Chain, opening: Tokens, events: seq<Event>)
    requires Evolve(chain, StartOf(opening), events).Some?
    ensures var sys := Evolve(chain, StartOf(opening), events).value;
            BooksHold(chain, opening, sys) && Reachable(chain, sys.machine)
  {
    if events == [] {
      StartHolds(chain, opening);
    } else {
      var earlier, e := events[..|events| - 1], events[|events| - 1];
      EvolveKeepsBooks(chain, opening, earlier);
      EventKeepsReachable(chain, opening, Evolve(chain, StartOf(opening), earlier).value, e);
    }
  }

  lemma ReachesNext(chain: Chain, m: Machine, action: Action)
    requires Reachable(chain, m) && Enabled(m, action)
    ensures Reachable(chain, Next(chain, m, action))
  {
    var actions :| Steps(chain, START, actions) == Some(m);
    var longer := actions + [action];
    assert longer[..|longer| - 1] == actions;
    assert Steps(chain, START, longer) == Some(Next(chain, m, action));
  }

  lemma ArisenHolds(chain: Chain, opening: Tokens, sys: System)
    requires Arises(chain, opening, sys)
    ensures BooksHold(chain, opening, sys) && Reachable(chain, sys.machine) && Inv(chain, sys.machine)
  {
    var events :| Evolve(chain, StartOf(opening), events) == Some(sys);
    EvolveKeepsBooks(chain, opening, events);
    ReachableInv(chain, sys.machine);
  }

  lemma StackIsUsable(chain: Chain, opening: Tokens, sys: System)
    requires BooksHold(chain, opening, sys)
    ensures |sys.saved| == |sys.machine.frames|
    ensures sys.saved != [] ==> sys.saved[|sys.saved| - 1].entries <= |sys.journal|
    ensures Waits(sys.machine) ==> Waiting(Top(sys.machine))
  {
    var m, last := sys.machine, |sys.saved| - 1;
    if m.frames != [] {
      assert Proper(m.frames[last]);
      assert EntryHolds(chain, opening, m.log, m.frames, sys.journal, sys.saved, last);
    }
  }

  /** The ledgers hold up no step of the machine but a transfer that an honest token refuses. */
  lemma PossibleExactly(chain: Chain, opening: Tokens, sys: System, action: Action)
    requires Arises(chain, opening, sys)
    ensures Waits(sys.machine) ==> Waiting(Top(sys.machine))
    ensures Possible(chain, sys, OfRouter(action))
       <==> && Enabled(sys.machine, action)
            && (action.TransferReturns? ==> MoveDue(chain.self, sys.tokens, Top(sys.machine)).Some?)
  {
    ArisenHolds(chain, opening, sys);
    StackIsUsable(chain, opening, sys);
  }

  /** However hostile the other tokens are and however calls nest and roll back, every holding of an
      honest token, with what the fills in flight have yet to move, is its opening value plus
      the fills and token calls that stand; supplies are conserved; all holdings stay in range. */
  lemma LedgersUnderReentry(chain: Chain, opening: Tokens, sys: System, t: Address, a: Address)
    requires Arises(chain, opening, sys) && t in opening
    ensures AllProper(sys.machine.frames) && t in sys.tokens
    ensures Holding(sys.tokens, t, a) + Outstanding(chain.self, sys.machine.frames, t, a)
         == Holding(opening, t, a) + SumDelta(sys.journal, t, a)
    ensures Supply(sys.tokens[t].balances) == Supply(opening[t].balances) + MintedLessBurned(sys.journal, t)
    ensures SolventTokens(opening) ==> SolventTokens(sys.tokens)
    ensures ClaimsIn(chain, sys.journal) == sys.machine.log
  {
    ArisenHolds(chain, opening, sys);
  }

  /** At rest nothing is outstanding: each standing fill has moved both its tokens in full, delivery
      against payment, and with the standing calls that is all that moved. */
  lemma LedgersAtRest(chain: Chain, opening: Tokens, sys: System, t: Address, a: Address)
    requires Arises(chain, opening, sys) && sys.machine.frames == [] && t in opening
    ensures Holding(sys.tokens, t, a) == Holding(opening, t, a) + SumDelta(sys.journal, t, a)
  {
    LedgersUnderReentry(chain, opening, sys, t, a);
  }

  /** At rest a trader's holding has risen, beyond what other movements made of it, by at least what
      the trader's filled orders promised, whatever re-entered while they were filled. */
  lemma FloorUnderReentry(chain: Chain, opening: Tokens, sys: System, trader: Address, t: Address)
    requires Arises(chain, opening, sys) && sys.machine.frames == [] && t in opening
    ensures var gained := Holding(sys.tokens, t, trader) - Holding(opening, t, trader);
            10_000 * (gained - OtherTo(sys.journal, trader, t)) >= PromisedTo(sys.journal, trader, t)
  {
    ArisenHolds(chain, opening, sys);
    LedgersAtRest(chain, opening, sys, t, trader);
    forall tx | tx in sys.journal ensures Fair(tx) { var k :| 0 <= k < |sys.journal| && sys.journal[k] == tx; }
    FloorOfLog(sys.journal, trader, t);
    PaidAndOther(sys.journal, trader, t);
  }

  // ----- one debit a nonce -----

  /** What a transaction takes from its trader in the token as the price of a fill. */
  function DebitBy(tx: Tx, t: Address): int {
    match tx.invocation
    case Execute(_, i, _) => if i.sellToken == t then i.sellAmount else 0
    case _ => 0
  }

  predicate ClaimsUnder(tx: Tx, key: NonceKey) {
    match tx.invocation
    case Execute(_, i, _) => i.Key() == key
    case Cancel(i) => i.Key() == key
    case _ => false
  }

  /** What the standing fills under one (trader, nonce) take from the trader. */
  function DebitedUnder(journal: seq<Tx>, t: Address, key: NonceKey): int {
    if journal == [] then 0
    else
      var earlier, last := journal[..|journal| - 1], journal[|journal| - 1];
      DebitedUnder(earlier, t, key) + if ClaimsUnder(last, key) then DebitBy(last, t) else 0
  }

  /** What all else that stands does to the trader's holding: the proceeds under that nonce, and
      everything under no nonce or another. */
  function RestTo(journal: seq<Tx>, t: Address, key: NonceKey): int {
    if journal == [] then 0
    else RestTo(journal[..|journal| - 1], t, key) + RestBy(journal[|journal| - 1], t, key)
  }

  function RestBy(tx: Tx, t: Address, key: NonceKey): int {
    if ClaimsUnder(tx, key) then PaidBy(tx, key.0, t) else Delta(tx, t, key.0)
  }

  lemma {:induction false} DebitsAreDeltas(journal: seq<Tx>, t: Address, key: NonceKey)
    requires AllAgreed(journal)
    ensures SumDelta(journal, t, key.0) == RestTo(journal, t, key) - DebitedUnder(journal, t, key)
  {
    if journal != [] {
      var earlier, last := journal[..|journal| - 1], journal[|journal| - 1];
      DebitsAreDeltas(earlier, t, key);
      DeltasGrow(earlier, last, t, key.0);
      assert journal == earlier + [last] && Agreed(last);
    }
  }

  function Debit(e: Entry, t: Address): int {
    if e.Filling? && e.intent.sellToken == t then e.intent.sellAmount else 0
  }

  /** With one claim a nonce there is one debit a nonce. */
  lemma {:induction false} DebitOfUnique(chain: Chain, journal: seq<Tx>, t: Address, key: NonceKey)
    requires Unique(ClaimsIn(chain, journal))
    ensures var log := ClaimsIn(chain, journal);
            && (!KeyIn(log, key) ==> DebitedUnder(journal, t, key) == 0)
            && forall k :: 0 <= k < |log| && log[k].intent.Key() == key ==>
                 DebitedUnder(journal, t, key) == Debit(log[k], t)
  {
    if journal != [] {
      var earlier, last := journal[..|journal| - 1], journal[|journal| - 1];
      var log := ClaimsIn(chain, earlier);
      if ClaimIn(chain, last) == [] {
        assert ClaimsIn(chain, journal) == log;
        DebitOfUnique(chain, earlier, t, key);
      } else {
        var e := ClaimIn(chain, last)[0];
        assert ClaimsIn(chain, journal) == log + [e];
        UniqueEarlier(log, e, key);
        DebitOfUnique(chain, earlier, t, key);
        forall k | 0 <= k <= |log| && (log + [e])[k].intent.Key() == key
          ensures DebitedUnder(journal, t, key) == Debit((log + [e])[k], t)
        {
          if k < |log| { assert KeyIn(log, key); }
        }
      }
    }
  }

  lemma UniqueEarlier(log: seq<Entry>, e: Entry, key: NonceKey)
    requires Unique(log + [e])
    ensures Unique(log) && (e.intent.Key() == key ==> !KeyIn(log, key))
    ensures KeyIn(log + [e], key) <==> KeyIn(log, key) || e.intent.Key() == key
    ensures forall k :: 0 <= k < |log| ==> (log + [e])[k] == log[k]
    ensures (log + [e])[|log|] == e
  {
    var log' := log + [e];
    assert forall k :: 0 <= k < |log| ==> log'[k] == log[k];
    forall k | 0 <= k < |log| && e.intent.Key() == key ensures log[k].intent.Key() != key {
      assert log'[k].intent.Key() != log'[|log|].intent.Key();
    }
    Appended(log, e);
  }

  /** No trader is debited twice under one nonce: of all that moved the trader's holding, the part
      taken under the nonce is what the one order that holds it sells, and nothing while the
      nonce is unused. */
  lemma DebitedOncePerNonce(chain: Chain, opening: Tokens, sys: System, t: Address, key: NonceKey)
    requires Arises(chain, opening, sys) && t in opening
    ensures AllProper(sys.machine.frames)
    ensures var m := sys.machine;
            var settled := Holding(sys.tokens, t, key.0) + Outstanding(chain.self, m.frames, t, key.0);
            var moved := settled - Holding(opening, t, key.0);
            if key !in m.store.usedNonces then moved == RestTo(sys.journal, t, key)
            else
              exists k :: 0 <= k < |m.log| && m.log[k].intent.Key() == key
                          && moved == RestTo(sys.journal, t, key) - Debit(m.log[k], t)
  {
    ArisenHolds(chain, opening, sys);
    LedgersUnderReentry(chain, opening, sys, t, key.0);
    DebitsAreDeltas(sys.journal, t, key);
    DebitOfUnique(chain, sys.journal, t, key);
    assert key in sys.machine.store.usedNonces <==> KeyIn(sys.machine.log, key);
  }

  // ----- consent -----

  /** Every claim of the log is noted in the journal. */
  lemma {:induction false} ClaimIsNoted(chain: Chain, journal: seq<Tx>, n: nat)
    requires n < |ClaimsIn(chain, journal)|
    ensures exists k :: 0 <= k < |journal| && ClaimIn(chain, journal[k]) == [ClaimsIn(chain, journal)[n]]
  {
    var earlier, last := journal[..|journal| - 1], |journal| - 1;
    if n < |ClaimsIn(chain, earlier)| {
      ClaimIsNoted(chain, earlier, n);
      var k :| 0 <= k < |earlier| && ClaimIn(chain, earlier[k]) == [ClaimsIn(chain, earlier)[n]];
      assert journal[k] == earlier[k];
    } else {
      assert ClaimIn(chain, journal[last]) == [ClaimsIn(chain, journal)[n]];
    }
  }

  /** The parties of a fill on the journal are among those who acted. */
  lemma PartiesActed(chain: Chain, journal: seq<Tx>, n: nat, f: Fill, actors: set<Address>)
    requires AllAgreed(journal) && ActedBy(journal, actors)
    requires n < |ClaimsIn(chain, journal)| && ClaimsIn(chain, journal)[n] == ClaimOf(f)
    ensures f.solver in actors && f.intent.trader in actors
  {
    ClaimIsNoted(chain, journal, n);
    var k :| 0 <= k < |journal| && ClaimIn(chain, journal[k]) == [ClaimOf(f)];
    assert Agreed(journal[k]) && journal[k].auths <= actors;
  }

  lemma {:induction false} NothingOutstanding(self: Address, frames: seq<Frame>, t: Address, a: Address)
    requires AllProper(frames) && a != self
    requires forall k :: 0 <= k < |frames| && frames[k].FillFrame? ==>
               a != frames[k].fill.solver && a != frames[k].fill.intent.trader
    ensures Outstanding(self, frames, t, a) == 0
  {
    if frames != [] {
      var last := frames[|frames| - 1];
      NothingOutstanding(self, frames[..|frames| - 1], t, a);
      assert Proper(last);
      if last.FillFrame? { NothingOwed(self, last.fill, last.pending, t, a); }
    }
  }

  lemma {:induction false} NothingOwed(self: Address, f: Fill, n: nat, t: Address, a: Address)
    requires n <= Transfers(f.ticket.split) && a != self && a != f.solver && a != f.intent.trader
    ensures Owed(self, f, n, t, a) == 0
  {
    if n > 0 { NothingOwed(self, f, n - 1, t, a); }
  }

  /** The router is no custodian under re-entry either: in every state, however hostile tokens nest
      their calls, an address other than the router that neither authorized what stands, nor had
      approved any who did, has no less of any honest token than at the start. */
  lemma NothingLeavesUnderReentry(chain: Chain, opening: Tokens, sys: System, t: Address, a: Address,
                                  actors: set<Address>)
    requires Arises(chain, opening, sys) && t in opening && a != chain.self
    requires ActedBy(sys.journal, actors) && a !in actors && Unapproved(opening, a, actors)
    ensures Holding(opening, t, a) <= Holding(sys.tokens, t, a)
  {
    var m := sys.machine;
    ArisenHolds(chain, opening, sys);
    forall k | 0 <= k < |m.frames| && m.frames[k].FillFrame?
      ensures a != m.frames[k].fill.solver && a != m.frames[k].fill.intent.trader
    {
      assert Seated(m.log, m.frames[k]);
      PartiesActed(chain, sys.journal, m.frames[k].mark, m.frames[k].fill, actors);
    }
    NothingOutstanding(chain.self, m.frames, t, a);
    LedgersUnderReentry(chain, opening, sys, t, a);
    assert 0 <= SumDelta(sys.journal, t, a);
  }
}
