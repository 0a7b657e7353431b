/** The router under hostile tokens.  Every transfer hands control to a token that may call the
    router again, directly or through other contracts, to any depth, before it returns or
    traps; a frame that traps is rolled back to its entry with all that ran inside it, and its
    caller may go on.  The machine steps through these calls and keeps a log of the claims
    that stand. */
module Reentrancy {
  import opened Protocol
  import opened FillMath
  import opened RouterSpec

  /** A claim on an intent: a fill, from its first write on, or a cancellation; with the addresses
      that authorized the call. */
  datatype Entry =
    | Filling(hash: Hash, intent: TraderIntent, solver: Address, amount: int, now: int, auths: set<Address>)
    | Cancelling(hash: Hash, intent: TraderIntent, auths: set<Address>)

  /** The arguments, locals and authorizations of a call that fills. */
  datatype Fill = Fill(
    ticket: Ticket,
    solver: Address,
    intent: TraderIntent,
    amount: int,
    now: int,
    auths: set<Address>)

  /** A fill in flight, with the transfers still to return, or a call of any other contract; and
      what the host restores when it traps, namely the store and the length of the log at
      entry. */
  datatype Frame =
    | FillFrame(saved: Store, mark: nat, fill: Fill, pending: nat)
    | ForeignFrame(saved: Store, mark: nat)

  /** The claim that a fill puts on record with its first write. */
  function ClaimOf(f: Fill): Entry { Filling(f.ticket.hash, f.intent, f.solver, f.amount, f.now, f.auths) }

  datatype Machine = Machine(store: Store, log: seq<Entry>, frames: seq<Frame>, clock: int)

  datatype Action =
    | CallInit(auths: set<Address>, admin: Address)
    | CallExecute(auths: set<Address>, solver: Address, intent: TraderIntent, amount: int)
    | CallCancel(auths: set<Address>, intent: TraderIntent)
    | CallForeign
    | TransferReturns
    | FillFinishes
    | ForeignReturns
    | FrameTraps
    | LedgerCloses(now: int)

  const START := Machine(EMPTY_STORE, [], [], 0)

  function Transfers(split: Split): nat { if split.fee > 0 then 4 else 3 }

  /** The router, or any contract, can be called from outside, by a contract that is running,
      or by the token a transfer is waiting for. */
  predicate MayCall(m: Machine) {
    m.frames == [] || Top(m).ForeignFrame? || Waits(m)
  }

  predicate Waits(m: Machine) {
    m.frames != [] && Top(m).FillFrame? && Top(m).pending > 0
  }

  /** The fill on top has its transfers back. */
  predicate Finishes(m: Machine) {
    m.frames != [] && Top(m).FillFrame? && Top(m).pending == 0
  }

  /** A fill that passes the guards opens a frame over its effects; one that does not leaves
      no trace, whether or not the caller goes on. */
  function ExecuteStep(chain: Chain, m: Machine, auths: set<Address>, solver: Address, i: TraderIntent, amount: int)
    : Machine
    requires i.Representable()
  {
    match Admit(chain, m.store, auths, m.clock, solver, i, amount)
    case Done(ticket) =>
      var fill := Fill(ticket, solver, i, amount, m.clock, auths);
      Machine(Commit(m.store, ticket.hash, i),
              m.log + [ClaimOf(fill)],
              m.frames + [FillFrame(m.store, |m.log|, fill, Transfers(ticket.split))],
              m.clock)
    case _ => m
  }

  function CancelStep(chain: Chain, m: Machine, auths: set<Address>, i: TraderIntent): Machine
    requires i.Representable()
  {
    match CancelIn(chain, m.store, auths, i)
    case Done(store) => m.(store := store, log := m.log + [Cancelling(IntentHash(chain, i), i, auths)])
    case _ => m
  }

  function InitStep(m: Machine, auths: set<Address>, admin: Address): Machine {
    match InitIn(m.store, auths, admin)
    case Done(store) => m.(store := store)
    case _ => m
  }

  function Top(m: Machine): Frame
    requires m.frames != []
  {
    m.frames[|m.frames| - 1]
  }

  function Below(m: Machine): seq<Frame>
    requires m.frames != []
  {
    m.frames[..|m.frames| - 1]
  }

  /** A contract begins to run; nothing of the router's changes. */
  function ForeignStep(m: Machine): Machine {
    m.(frames := m.frames + [ForeignFrame(m.store, |m.log|)])
  }

  function ReturnStep(m: Machine): Machine
    requires Waits(m)
  {
    m.(frames := Below(m) + [Top(m).(pending := Top(m).pending - 1)])
  }

  /** With all transfers back, the call writes the receipt from its own locals and returns. */
  function FinishStep(m: Machine): Machine
    requires Finishes(m)
  {
    var fill := Top(m).fill;
    var receipt := ReceiptOf(fill.ticket.hash, fill.solver, fill.amount, fill.now);
    m.(store := StoreReceipt(m.store, receipt), frames := Below(m))
  }

  /** The host restores the store as it was at the frame's entry. */
  function TrapStep(m: Machine): Machine
    requires m.frames != [] && Top(m).mark <= |m.log|
  {
    m.(store := Top(m).saved, log := m.log[..Top(m).mark], frames := Below(m))
  }

  /** The step can be taken in this state. */
  predicate Enabled(m: Machine, a: Action) {
    match a
    case CallInit(_, _) => MayCall(m)
    case CallExecute(_, _, i, amount) => MayCall(m) && i.Representable() && FitsI128(amount)
    case CallCancel(_, i) => MayCall(m) && i.Representable()
    case CallForeign => MayCall(m)
    case TransferReturns => Waits(m)
    case FillFinishes => Finishes(m)
    case ForeignReturns => m.frames != [] && Top(m).ForeignFrame?
    case FrameTraps => m.frames != [] && Top(m).mark <= |m.log|
    case LedgerCloses(_) => m.frames == []
  }

  function Next(chain: Chain, m: Machine, a: Action): Machine
    requires Enabled(m, a)
  {
    match a
    case CallInit(auths, admin) => InitStep(m, auths, admin)
    case CallExecute(auths, solver, i, amount) => ExecuteStep(chain, m, auths, solver, i, amount)
    case CallCancel(auths, i) => CancelStep(chain, m, auths, i)
    case CallForeign => ForeignStep(m)
    case TransferReturns => ReturnStep(m)
    case FillFinishes => FinishStep(m)
    case ForeignReturns => m.(frames := Below(m))
    case FrameTraps => TrapStep(m)
    case LedgerCloses(now) => m.(clock := now)
  }

  function Steps(chain: Chain, m: Machine, actions: seq<Action>): Option<Machine> {
    if actions == [] then Some(m)
    else
      var before :- Steps(chain, m, actions[..|actions| - 1]);
      if Enabled(before, actions[|actions| - 1]) then Some(Next(chain, before, actions[|actions| - 1])) else None
  }

  // ----- the invariant -----

  /** The claim was made on its intent's own hash, with the consent of the trader and, for a fill, of
      the solver, and under the router's terms. */
  ghost predicate Lawful(chain: Chain, e: Entry) {
    && e.intent.Representable()
    && e.hash == IntentHash(chain, e.intent)
    && e.intent.trader in e.auths
    && (e.Filling? ==>
          && e.solver in e.auths && e.solver != e.intent.trader && e.now <= e.intent.deadline
          && e.intent.minBuyAmount <= e.amount && SoundTerms(e.intent) && WithinTolerance(e.intent, e.amount))
  }

  function Verdict(e: Entry): IntentStatus { if e.Filling? then Filled else Cancelled }

  ghost predicate HashIn(log: seq<Entry>, h: Hash) {
    exists k :: 0 <= k < |log| && log[k].hash == h
  }

  ghost predicate KeyIn(log: seq<Entry>, key: NonceKey) {
    exists k :: 0 <= k < |log| && log[k].intent.Key() == key
  }

  /** No two claims share a nonce or a hash. */
  ghost predicate Unique(log: seq<Entry>) {
    forall j, k :: 0 <= j < k < |log| ==> log[j].intent.Key() != log[k].intent.Key() && log[j].hash != log[k].hash
  }

  /** The store holds the claims of the log, with receipts for the fills not in `open`. */
  ghost predicate Consistent(chain: Chain, s: Store, log: seq<Entry>, open: set<nat>) {
    && (forall k :: 0 <= k < |log| ==> Lawful(chain, log[k]))
    && Unique(log)
    && Named(s, log)
    && (forall k :: 0 <= k < |log| ==> Recorded(s, log[k], k in open))
  }

  /** The store has an entry for what the log names and for nothing else. */
  ghost predicate Named(s: Store, log: seq<Entry>) {
    && (forall key :: key in s.usedNonces <==> KeyIn(log, key))
    && (forall h :: h in s.statuses <==> HashIn(log, h))
    && (forall h :: h in s.receipts ==> HashIn(log, h))
  }

  ghost predicate Recorded(s: Store, e: Entry, open: bool) {
    && e.hash in s.statuses && s.statuses[e.hash] == Verdict(e)
    && (e.hash in s.receipts <==> e.Filling? && !open)
    && (e.Filling? && !open ==> s.receipts[e.hash] == ReceiptOf(e.hash, e.solver, e.amount, e.now))
  }

  /** Where in the log the claims of the fills in flight are. */
  function Marks(frames: seq<Frame>): set<nat> {
    set k | 0 <= k < |frames| && frames[k].FillFrame? :: frames[k].mark
  }

  /** The frames sit at rising marks, strictly above each fill's own claim. */
  ghost predicate Stacked(log: seq<Entry>, frames: seq<Frame>) {
    && (forall j, k :: 0 <= j < k < |frames| ==> Under(frames[j], frames[k]))
    && (forall k :: 0 <= k < |frames| ==> Seated(log, frames[k]))
  }

  predicate Under(f: Frame, g: Frame) {
    f.mark <= g.mark && (f.FillFrame? ==> f.mark < g.mark)
  }

  ghost predicate Seated(log: seq<Entry>, f: Frame) {
    && f.mark <= |log|
    && (f.FillFrame? ==> f.mark < |log| && log[f.mark] == ClaimOf(f.fill))
  }

  /** The machine is consistent now, and would be after rolling back any of its frames. */
  ghost predicate Inv(chain: Chain, m: Machine) {
    && Stacked(m.log, m.frames)
    && Consistent(chain, m.store, m.log, Marks(m.frames))
    && forall k :: 0 <= k < |m.frames| ==> Restorable(chain, m.log, m.frames, k)
  }

  ghost predicate Restorable(chain: Chain, log: seq<Entry>, frames: seq<Frame>, k: nat)
    requires k < |frames| && frames[k].mark <= |log|
  {
    Consistent(chain, frames[k].saved, log[..frames[k].mark], Marks(frames[..k]))
  }

  // ----- every step keeps it -----

  lemma Appended(log: seq<Entry>, e: Entry)
    ensures forall key :: KeyIn(log + [e], key) <==> KeyIn(log, key) || e.intent.Key() == key
    ensures forall h :: HashIn(log + [e], h) <==> HashIn(log, h) || e.hash == h
  {
    var log' := log + [e];
    assert log'[|log|] == e;
    forall key ensures KeyIn(log', key) <==> KeyIn(log, key) || e.intent.Key() == key {
      if KeyIn(log, key) {
        var k :| 0 <= k < |log| && log[k].intent.Key() == key;
        assert log'[k].intent.Key() == key;
      }
    }
    forall h ensures HashIn(log', h) <==> HashIn(log, h) || e.hash == h {
      if HashIn(log, h) {
        var k :| 0 <= k < |log| && log[k].hash == h;
        assert log'[k].hash == h;
      }
    }
  }

  /** A claim that passes the replay guards is on a hash and a nonce not yet in the log. */
  lemma ClaimIsNew(chain: Chain, s: Store, log: seq<Entry>, open: set<nat>, e: Entry)
    requires Consistent(chain, s, log, open) && ReplayGuard(s, e.hash, e.intent).Ok?
    ensures !HashIn(log, e.hash) && !KeyIn(log, e.intent.Key())
  {
    forall k | 0 <= k < |log| ensures log[k].hash != e.hash {
      assert Recorded(s, log[k], k in open);
    }
  }

  lemma NewStaysUnique(log: seq<Entry>, e: Entry)
    requires Unique(log) && !HashIn(log, e.hash) && !KeyIn(log, e.intent.Key())
    ensures Unique(log + [e])
  {
  }

  function Claim(s: Store, e: Entry): Store {
    s.(statuses := s.statuses[e.hash := Verdict(e)], usedNonces := s.usedNonces + {e.intent.Key()})
  }

  lemma ClaimKeepsRecords(chain: Chain, s: Store, log: seq<Entry>, open: set<nat>, e: Entry, open': set<nat>)
    requires Consistent(chain, s, log, open) && !HashIn(log, e.hash)
    requires (forall k :: 0 <= k < |log| ==> (k in open <==> k in open')) && (|log| in open' <==> e.Filling?)
    ensures forall k :: 0 <= k < |log + [e]| ==> Recorded(Claim(s, e), (log + [e])[k], k in open')
  {
    assert e.hash !in s.receipts;
    forall k | 0 <= k < |log| ensures Recorded(Claim(s, e), log[k], k in open') {
      assert Recorded(s, log[k], k in open);
      assert HashIn(log, log[k].hash);
    }
  }

  lemma ClaimIsNamed(s: Store, log: seq<Entry>, e: Entry)
    requires Named(s, log)
    ensures Named(Claim(s, e), log + [e])
  {
    Appended(log, e);
  }

  /** Such a claim can be added to a consistent log. */
  lemma ClaimKeeps(chain: Chain, s: Store, log: seq<Entry>, open: set<nat>, e: Entry)
    requires Consistent(chain, s, log, open) && (forall k :: k in open ==> k < |log|)
    requires Lawful(chain, e) && ReplayGuard(s, e.hash, e.intent).Ok?
    ensures Consistent(chain, Claim(s, e), log + [e], if e.Filling? then open + {|log|} else open)
  {
    ClaimIsNew(chain, s, log, open, e);
    ClaimIsNamed(s, log, e);
    NewStaysUnique(log, e);
    ClaimKeepsRecords(chain, s, log, open, e, if e.Filling? then open + {|log|} else open);
  }

  lemma ReceiptKeeps(chain: Chain, s: Store, log: seq<Entry>, open: set<nat>, mark: nat)
    requires Consistent(chain, s, log, open) && mark in open && mark < |log| && log[mark].Filling?
    ensures var e := log[mark];
            Consistent(chain, StoreReceipt(s, ReceiptOf(e.hash, e.solver, e.amount, e.now)), log, open - {mark})
  {
    var e := log[mark];
    var s' := StoreReceipt(s, ReceiptOf(e.hash, e.solver, e.amount, e.now));
    assert HashIn(log, e.hash);
    forall k | 0 <= k < |log| ensures Recorded(s', log[k], k in open - {mark}) {
      assert Recorded(s, log[k], k in open);
      if k != mark { assert log[k].hash != e.hash; }
    }
  }

  lemma PushedMarks(frames: seq<Frame>, f: Frame)
    ensures Marks(frames + [f]) == if f.FillFrame? then Marks(frames) + {f.mark} else Marks(frames)
  {
    var frames' := frames + [f];
    assert frames'[|frames|] == f;
    forall n | n in Marks(frames) ensures n in Marks(frames') {
      var k :| 0 <= k < |frames| && frames[k].FillFrame? && frames[k].mark == n;
      assert frames'[k] == frames[k];
    }
  }

  lemma PoppedMarks(log: seq<Entry>, frames: seq<Frame>)
    requires frames != [] && Stacked(log, frames)
    ensures var top, below := frames[|frames| - 1], Marks(frames[..|frames| - 1]);
            if top.FillFrame? then below == Marks(frames) - {top.mark} else below == Marks(frames)
  {
    var others, top := frames[..|frames| - 1], frames[|frames| - 1];
    PushedMarks(others, top);
    assert frames == others + [top];
  }

  lemma ExecuteKeeps(chain: Chain, m: Machine, auths: set<Address>, solver: Address, i: TraderIntent, amount: int)
    requires Inv(chain, m) && i.Representable() && FitsI128(amount)
    ensures Inv(chain, ExecuteStep(chain, m, auths, solver, i, amount))
  {
    var admitted := Admit(chain, m.store, auths, m.clock, solver, i, amount);
    if admitted.Done? {
      var ticket := admitted.value;
      var fill := Fill(ticket, solver, i, amount, m.clock, auths);
      var e, f := ClaimOf(fill), FillFrame(m.store, |m.log|, fill, Transfers(ticket.split));
      AdmittedExactly(chain, m.store, auths, m.clock, solver, i, amount);
      ClaimKeeps(chain, m.store, m.log, Marks(m.frames), e);
      PushedMarks(m.frames, f);
      FramesGrow(chain, m, e, m.frames + [f]);
    }
  }

  /** The frame of the fill that `e` claims. */
  ghost predicate OnTopOf(m: Machine, e: Entry, f: Frame) {
    f.FillFrame? && f.mark == |m.log| && f.saved == m.store && e == ClaimOf(f.fill)
  }

  /** A longer log does not disturb the frames already there. */
  lemma FramesGrow(chain: Chain, m: Machine, e: Entry, frames: seq<Frame>)
    requires Inv(chain, m) && m.frames <= frames
    requires frames == m.frames || (frames == m.frames + [frames[|m.frames|]] && OnTopOf(m, e, frames[|m.frames|]))
    ensures Stacked(m.log + [e], frames)
    ensures forall k :: 0 <= k < |frames| ==> Restorable(chain, m.log + [e], frames, k)
  {
    var log := m.log + [e];
    forall k | 0 <= k < |frames| ensures Seated(log, frames[k]) && Restorable(chain, log, frames, k) {
      if k < |m.frames| {
        assert Seated(m.log, m.frames[k]) && Restorable(chain, m.log, m.frames, k);
        assert log[..frames[k].mark] == m.log[..frames[k].mark] && frames[..k] == m.frames[..k];
      } else {
        assert log[..|m.log|] == m.log && frames[..k] == m.frames;
      }
    }
  }

  lemma CancelKeeps(chain: Chain, m: Machine, auths: set<Address>, i: TraderIntent)
    requires Inv(chain, m) && i.Representable()
    ensures Inv(chain, CancelStep(chain, m, auths, i))
  {
    var out := CancelIn(chain, m.store, auths, i);
    if out.Done? {
      var e := Cancelling(IntentHash(chain, i), i, auths);
      ClaimKeeps(chain, m.store, m.log, Marks(m.frames), e);
      FramesGrow(chain, m, e, m.frames);
    }
  }

  lemma InitKeeps(chain: Chain, m: Machine, auths: set<Address>, admin: Address)
    requires Inv(chain, m)
    ensures Inv(chain, InitStep(m, auths, admin))
  {
    var m' := InitStep(m, auths, admin);
    forall k | 0 <= k < |m.log| ensures Recorded(m'.store, m.log[k], k in Marks(m.frames)) {
      assert Recorded(m.store, m.log[k], k in Marks(m.frames));
    }
  }

  lemma ForeignIsStacked(log: seq<Entry>, frames: seq<Frame>, f: Frame)
    requires Stacked(log, frames) && f.ForeignFrame? && f.mark == |log|
    ensures Stacked(log, frames + [f])
  {
    var frames' := frames + [f];
    forall j, k | 0 <= j < k < |frames'| ensures Under(frames'[j], frames'[k]) { assert Seated(log, frames[j]); }
  }

  lemma ForeignIsRestorable(chain: Chain, m: Machine, k: nat)
    requires Inv(chain, m) && k <= |m.frames|
    ensures ForeignStep(m).frames[k].mark <= |m.log| && Restorable(chain, m.log, ForeignStep(m).frames, k)
  {
    var frames := ForeignStep(m).frames;
    if k < |m.frames| {
      assert Seated(m.log, m.frames[k]) && Restorable(chain, m.log, m.frames, k) && frames[..k] == m.frames[..k];
    } else {
      assert m.log[..|m.log|] == m.log && frames[..k] == m.frames;
    }
  }

  lemma ForeignKeeps(chain: Chain, m: Machine)
    requires Inv(chain, m)
    ensures Inv(chain, ForeignStep(m))
  {
    var f := ForeignFrame(m.store, |m.log|);
    PushedMarks(m.frames, f);
    ForeignIsStacked(m.log, m.frames, f);
    forall k | 0 <= k <= |m.frames| ensures Restorable(chain, m.log, ForeignStep(m).frames, k) {
      ForeignIsRestorable(chain, m, k);
    }
  }

  lemma ReturnIsSame(m: Machine)
    requires Waits(m)
    ensures var frames := ReturnStep(m).frames;
            && |frames| == |m.frames|
            && (forall k :: 0 <= k < |frames| ==> SameButPending(m.frames[k], frames[k]))
            && Marks(m.frames) == Marks(frames)
  {
    var frames := ReturnStep(m).frames;
    forall k | 0 <= k < |frames| ensures SameButPending(m.frames[k], frames[k]) { }
    SameMarks(m.frames, frames);
  }

  lemma ReturnKeeps(chain: Chain, m: Machine)
    requires Inv(chain, m) && Waits(m)
    ensures Inv(chain, ReturnStep(m))
  {
    ReturnIsSame(m);
    PendingIsFree(chain, m.log, m.frames, ReturnStep(m).frames);
  }

  predicate SameButPending(f: Frame, f': Frame) {
    && f'.mark == f.mark && f'.saved == f.saved && f'.FillFrame? == f.FillFrame?
    && (f.FillFrame? ==> f'.fill == f.fill)
  }

  lemma PendingIsFree(chain: Chain, log: seq<Entry>, frames: seq<Frame>, frames': seq<Frame>)
    requires |frames| == |frames'| && forall k :: 0 <= k < |frames| ==> SameButPending(frames[k], frames'[k])
    requires Stacked(log, frames) && forall k :: 0 <= k < |frames| ==> Restorable(chain, log, frames, k)
    ensures Stacked(log, frames') && forall k :: 0 <= k < |frames'| ==> Restorable(chain, log, frames', k)
  {
    forall j, k | 0 <= j < k < |frames'| ensures Under(frames'[j], frames'[k]) {
      assert SameButPending(frames[j], frames'[j]) && SameButPending(frames[k], frames'[k])
        && Under(frames[j], frames[k]);
    }
    forall k | 0 <= k < |frames'| ensures Seated(log, frames'[k]) {
      assert Seated(log, frames[k]) && SameButPending(frames[k], frames'[k]);
    }
    forall k | 0 <= k < |frames'| ensures Restorable(chain, log, frames', k) {
      assert SameButPending(frames[k], frames'[k]) && Restorable(chain, log, frames, k);
      forall n | 0 <= n < k ensures SameButPending(frames[..k][n], frames'[..k][n]) {
        assert SameButPending(frames[n], frames'[n]);
      }
      SameMarks(frames[..k], frames'[..k]);
    }
  }

  lemma SameMarks(frames: seq<Frame>, frames': seq<Frame>)
    requires |frames| == |frames'| && forall k :: 0 <= k < |frames| ==> SameButPending(frames[k], frames'[k])
    ensures Marks(frames) == Marks(frames')
  {
    forall n ensures n in Marks(frames) <==> n in Marks(frames') {
      if k :| 0 <= k < |frames| && frames[k].FillFrame? && frames[k].mark == n {
        assert SameButPending(frames[k], frames'[k]);
      }
      if k :| 0 <= k < |frames| && frames'[k].FillFrame? && frames'[k].mark == n {
        assert SameButPending(frames[k], frames'[k]);
      }
    }
  }

  /** Taking the top frame off leaves a good state, as long as the store is consistent. */
  lemma PopKeeps(chain: Chain, m: Machine, m': Machine)
    requires Inv(chain, m) && m.frames != [] && m'.frames == Below(m)
    requires m'.log == m.log || (Top(m).mark <= |m.log| && m'.log == m.log[..Top(m).mark])
    requires Consistent(chain, m'.store, m'.log, Marks(m'.frames))
    ensures Inv(chain, m')
  {
    var frames, others := m.frames, m'.frames;
    forall k | 0 <= k < |others| ensures Seated(m'.log, others[k]) && Restorable(chain, m'.log, others, k) {
      assert Seated(m.log, frames[k]) && Restorable(chain, m.log, frames, k) && Under(frames[k], Top(m));
      assert m'.log[..others[k].mark] == m.log[..frames[k].mark] && others[..k] == frames[..k];
    }
  }

  lemma TopIsOpen(log: seq<Entry>, frames: seq<Frame>)
    requires frames != [] && frames[|frames| - 1].FillFrame? && Stacked(log, frames)
    ensures var top := frames[|frames| - 1];
            top.mark in Marks(frames) && top.mark < |log| && log[top.mark] == ClaimOf(top.fill)
  {
    assert Seated(log, frames[|frames| - 1]);
  }

  lemma FinishIsConsistent(chain: Chain, m: Machine)
    requires Stacked(m.log, m.frames) && Consistent(chain, m.store, m.log, Marks(m.frames)) && Finishes(m)
    ensures var m' := FinishStep(m);
            Consistent(chain, m'.store, m'.log, Marks(m'.frames))
  {
    TopIsOpen(m.log, m.frames);
    ReceiptKeeps(chain, m.store, m.log, Marks(m.frames), Top(m).mark);
    PoppedMarks(m.log, m.frames);
  }

  lemma FinishKeeps(chain: Chain, m: Machine)
    requires Inv(chain, m) && Finishes(m)
    ensures Inv(chain, FinishStep(m))
  {
    FinishIsConsistent(chain, m);
    PopKeeps(chain, m, FinishStep(m));
  }

  lemma ForeignReturnKeeps(chain: Chain, m: Machine)
    requires Inv(chain, m) && m.frames != [] && Top(m).ForeignFrame?
    ensures Inv(chain, m.(frames := Below(m)))
  {
    PoppedMarks(m.log, m.frames);
    PopKeeps(chain, m, m.(frames := Below(m)));
  }

  lemma TrapKeeps(chain: Chain, m: Machine)
    requires Inv(chain, m) && m.frames != [] && Top(m).mark <= |m.log|
    ensures Inv(chain, TrapStep(m))
  {
    var m' := TrapStep(m);
    assert Consistent(chain, m'.store, m'.log, Marks(m'.frames)) by {
      assert Restorable(chain, m.log, m.frames, |m.frames| - 1);
    }
    PopKeeps(chain, m, m');
  }

  lemma NextKeeps(chain: Chain, m: Machine, a: Action)
    requires Inv(chain, m) && Enabled(m, a)
    ensures Inv(chain, Next(chain, m, a))
  {
    match a
    case CallInit(auths, admin) => InitKeeps(chain, m, auths, admin);
    case CallExecute(auths, solver, i, amount) => ExecuteKeeps(chain, m, auths, solver, i, amount);
    case CallCancel(auths, i) => CancelKeeps(chain, m, auths, i);
    case CallForeign => ForeignKeeps(chain, m);
    case TransferReturns => ReturnKeeps(chain, m);
    case FillFinishes => FinishKeeps(chain, m);
    case ForeignReturns => ForeignReturnKeeps(chain, m);
    case FrameTraps => TrapKeeps(chain, m);
    case LedgerCloses(_) =>
  }

  lemma {:induction false} StepsKeep(chain: Chain, m: Machine, actions: seq<Action>)
    requires Inv(chain, m) && Steps(chain, m, actions).Some?
    ensures Inv(chain, Steps(chain, m, actions).value)
  {
    if actions != [] {
      StepsKeep(chain, m, actions[..|actions| - 1]);
      NextKeeps(chain, Steps(chain, m, actions[..|actions| - 1]).value, actions[|actions| - 1]);
    }
  }

  // ----- what holds in every reachable state -----

  ghost predicate Reachable(chain: Chain, m: Machine) {
    exists actions :: Steps(chain, START, actions) == Some(m)
  }

  lemma ReachableInv(chain: Chain, m: Machine)
    requires Reachable(chain, m)
    ensures Inv(chain, m)
  {
    var actions :| Steps(chain, START, actions) == Some(m);
    StepsKeep(chain, START, actions);
  }

  /** However the tokens nest their calls, every (trader, nonce) has at most one standing claim,
      a fill done or in flight or a cancellation, and the used nonces are exactly the claimed. */
  lemma OneClaimPerNonce(chain: Chain, m: Machine)
    requires Reachable(chain, m)
    ensures forall j, k :: 0 <= j < k < |m.log| ==>
              m.log[j].intent.Key() != m.log[k].intent.Key() && m.log[j].hash != m.log[k].hash
    ensures forall key :: key in m.store.usedNonces <==> exists k :: 0 <= k < |m.log| && m.log[k].intent.Key() == key
  {
    ReachableInv(chain, m);
    forall key ensures key in m.store.usedNonces <==> exists k :: 0 <= k < |m.log| && m.log[k].intent.Key() == key {
      assert key in m.store.usedNonces <==> KeyIn(m.log, key);
    }
  }

  /** The frame is a fill of the intent with this hash. */
  predicate Fills(f: Frame, h: Hash) {
    f.FillFrame? && f.fill.ticket.hash == h
  }

  /** The filled intents without a receipt are exactly those of the fills in flight, which
      are all different; at rest an intent is filled iff it has a receipt. */
  lemma FilledWithoutReceiptIsInFlight(chain: Chain, m: Machine)
    requires Reachable(chain, m)
    ensures forall h :: StatusOf(m.store.statuses, h) == Filled && h !in m.store.receipts
                   <==> exists k :: 0 <= k < |m.frames| && Fills(m.frames[k], h)
    ensures forall j, k, h :: 0 <= j < k < |m.frames| ==> !(Fills(m.frames[j], h) && Fills(m.frames[k], h))
    ensures m.frames == [] ==> forall h :: StatusOf(m.store.statuses, h) == Filled <==> h in m.store.receipts
  {
    ReachableInv(chain, m);
    forall h
      ensures StatusOf(m.store.statuses, h) == Filled && h !in m.store.receipts
         <==> exists k :: 0 <= k < |m.frames| && Fills(m.frames[k], h)
    {
      InFlightExactly(chain, m, h);
    }
    forall j, k, h | 0 <= j < k < |m.frames| ensures !(Fills(m.frames[j], h) && Fills(m.frames[k], h)) {
      assert Seated(m.log, m.frames[j]) && Seated(m.log, m.frames[k]) && Under(m.frames[j], m.frames[k]);
    }
    forall h | h in m.store.receipts ensures StatusOf(m.store.statuses, h) == Filled {
      var n :| 0 <= n < |m.log| && m.log[n].hash == h;
      assert Recorded(m.store, m.log[n], n in Marks(m.frames));
    }
  }

  lemma InFlightExactly(chain: Chain, m: Machine, h: Hash)
    requires Inv(chain, m)
    ensures StatusOf(m.store.statuses, h) == Filled && h !in m.store.receipts
       <==> exists k :: 0 <= k < |m.frames| && Fills(m.frames[k], h)
  {
    if StatusOf(m.store.statuses, h) == Filled && h !in m.store.receipts {
      assert HashIn(m.log, h);
      var n :| 0 <= n < |m.log| && m.log[n].hash == h;
      assert Recorded(m.store, m.log[n], n in Marks(m.frames));
      var k :| 0 <= k < |m.frames| && m.frames[k].FillFrame? && m.frames[k].mark == n;
      assert Seated(m.log, m.frames[k]);
    }
    if k :| 0 <= k < |m.frames| && Fills(m.frames[k], h) {
      assert Seated(m.log, m.frames[k]);
      var n := m.frames[k].mark;
      assert n in Marks(m.frames) && Recorded(m.store, m.log[n], n in Marks(m.frames));
    }
  }

  /** While a claim on a nonce stands, no call, nested or not, fills or cancels under it again. */
  lemma NoSecondClaim(chain: Chain, m: Machine, k: nat, auths: set<Address>, solver: Address, i: TraderIntent,
                      amount: int)
    requires Reachable(chain, m) && k < |m.log| && i.Representable()
    requires i.Key() == m.log[k].intent.Key()
    ensures !Admit(chain, m.store, auths, m.clock, solver, i, amount).Done?
    ensures !CancelIn(chain, m.store, auths, i).Done?
  {
    ReachableInv(chain, m);
    assert KeyIn(m.log, i.Key());
    assert i.Key() in m.store.usedNonces;
    UsedNonceIsRefused(chain, m.store, auths, m.clock, solver, i, amount);
  }

  lemma UsedNonceIsRefused(chain: Chain, s: Store, auths: set<Address>, now: int, solver: Address, i: TraderIntent,
                           amount: int)
    requires i.Representable() && i.Key() in s.usedNonces
    ensures !Admit(chain, s, auths, now, solver, i, amount).Done? && !CancelIn(chain, s, auths, i).Done?
  {
    assert ReplayGuard(s, IntentHash(chain, i), i).Err?;
  }

  /** Receipts tell the truth: each is filed under its own hash, and a fill in the log with that
      hash has two different parties who both authorized it, was in time and was delivered in
      full; statuses are only ever filled or cancelled. */
  lemma ReceiptsAreTrue(chain: Chain, m: Machine, h: Hash)
    requires Reachable(chain, m)
    ensures h in m.store.receipts ==>
              && m.store.receipts[h].intentHash == h
              && exists k :: 0 <= k < |m.log| && Attests(chain, m.store.receipts[h], m.log[k])
    ensures h in m.store.statuses ==> m.store.statuses[h] in {Filled, Cancelled}
  {
    ReachableInv(chain, m);
    assert h in m.store.receipts ==> HashIn(m.log, h);
    if HashIn(m.log, h) {
      var n :| 0 <= n < |m.log| && m.log[n].hash == h;
      assert Recorded(m.store, m.log[n], n in Marks(m.frames)) && Lawful(chain, m.log[n]);
      if h in m.store.receipts { assert Attests(chain, m.store.receipts[h], m.log[n]); }
    }
  }

  predicate Attests(chain: Chain, r: FillReceipt, e: Entry) {
    && e.Filling? && e.intent.Representable()
    && r.intentHash == e.hash == IntentHash(chain, e.intent)
    && r.solver == e.solver != e.intent.trader
    && e.solver in e.auths && e.intent.trader in e.auths
    && r.timestamp == e.now <= e.intent.deadline
    && r.boughtAmount == e.amount >= e.intent.minBuyAmount
    && 10_000 * Proceeds(r.boughtAmount, e.intent.solverFeeBps)
      > (9_999 - e.intent.maxSlippageBps) * e.intent.minBuyAmount
  }

  /** A claim on the log is what was called: the intent, its hash, the solver, the amount, the clock of
      the machine at the call, and who authorized it. */
  lemma ClaimsWhatIsCalled(chain: Chain, m: Machine, a: Action)
    requires Enabled(m, a) && (a.CallExecute? || a.CallCancel?)
    ensures var log := Next(chain, m, a).log;
            log == m.log || log == m.log + [
              match a
              case CallExecute(auths, solver, i, amount) => Filling(chain.hash(i), i, solver, amount, m.clock, auths)
              case CallCancel(auths, i) => Cancelling(chain.hash(i), i, auths)]
    ensures Next(chain, m, a).log != m.log <==>
            match a
            case CallExecute(auths, solver, i, amount) => Admit(chain, m.store, auths, m.clock, solver, i, amount).Done?
            case CallCancel(auths, i) => CancelIn(chain, m.store, auths, i).Done?
  {
  }

  /** The receipt that a finishing fill writes is of its own call. */
  lemma FinishWritesTheReceipt(chain: Chain, m: Machine)
    requires Inv(chain, m) && Finishes(m)
    ensures var fill := Top(m).fill;
            var h := chain.hash(fill.intent);
            Next(chain, m, FillFinishes).store.receipts
            == m.store.receipts[h := FillReceipt(h, fill.solver, fill.amount, fill.now)]
  {
    assert Seated(m.log, Top(m));
    assert Lawful(chain, m.log[Top(m).mark]);
  }

  /** A call that opens a frame and traps leaves no trace, and its caller goes on from there. */
  lemma TrapLeavesNoTrace(chain: Chain, m: Machine, a: Action)
    requires Enabled(m, a) && |Next(chain, m, a).frames| > |m.frames|
    ensures Enabled(Next(chain, m, a), FrameTraps)
    ensures Next(chain, Next(chain, m, a), FrameTraps) == m
  {
    var m' := Next(chain, m, a);
    assert m'.frames[..|m.frames|] == m.frames && m'.log[..|m.log|] == m.log;
  }

  // ----- nesting is real -----

  /** An order that differs from the others in its nonce alone. */
  function Nth(trader: Address, token: Address, k: nat): TraderIntent {
    TraderIntent(trader, token, token, 1, 1, 0, 0, k, 0)
  }

  ghost predicate Apart(chain: Chain, trader: Address, token: Address) {
    forall j, k :: 0 <= j < k <= U64_MAX ==> chain.hash(Nth(trader, token, j)) != chain.hash(Nth(trader, token, k))
  }

  function NestedCall(trader: Address, solver: Address, token: Address, k: nat): Action {
    CallExecute({trader, solver}, solver, Nth(trader, token, k), 1)
  }

  function NestedCalls(trader: Address, solver: Address, token: Address, n: nat): seq<Action> {
    if n == 0 then [] else NestedCalls(trader, solver, token, n - 1) + [NestedCall(trader, solver, token, n - 1)]
  }

  /** `n` fills in flight, each waiting for its first transfer, under the nonces below `n`. */
  ghost predicate Nested(chain: Chain, m: Machine, trader: Address, token: Address, n: nat) {
    && |m.frames| == n && m.clock == 0
    && (forall k :: 0 <= k < n ==> m.frames[k].FillFrame? && m.frames[k].pending == 3)
    && (forall k: nat :: (trader, k) in m.store.usedNonces <==> k < n)
    && (forall k :: n <= k <= U64_MAX ==> chain.hash(Nth(trader, token, k)) !in m.store.statuses)
  }

  /** The machine reaches any depth: a token that fills another order in every transfer it receives
      can have that many fills in flight, as many as there are nonces. */
  lemma {:induction false} NestsToAnyDepth(chain: Chain, trader: Address, solver: Address, token: Address, n: nat)
    requires n <= U64_MAX + 1 && trader != solver && Apart(chain, trader, token)
    ensures var end := Steps(chain, START, NestedCalls(trader, solver, token, n));
            end.Some? && Nested(chain, end.value, trader, token, n)
  {
    if n > 0 {
      var calls := NestedCalls(trader, solver, token, n);
      NestsToAnyDepth(chain, trader, solver, token, n - 1);
      CallCount(trader, solver, token, n - 1);
      assert calls[..n - 1] == NestedCalls(trader, solver, token, n - 1);
      NestedGrows(chain, Steps(chain, START, calls[..n - 1]).value, trader, solver, token, n - 1);
    }
  }

  lemma NestedGrows(chain: Chain, m: Machine, trader: Address, solver: Address, token: Address, n: nat)
    requires n <= U64_MAX && trader != solver && Apart(chain, trader, token) && Nested(chain, m, trader, token, n)
    ensures var a := NestedCall(trader, solver, token, n);
            Enabled(m, a) && Nested(chain, Next(chain, m, a), trader, token, n + 1)
  {
    NestsOnceMore(chain, m, trader, solver, token, n);
    var m' := Next(chain, m, NestedCall(trader, solver, token, n));
    forall k | 0 <= k < n ensures m'.frames[k] == m.frames[k] { assert m'.frames[..n][k] == m'.frames[k]; }
  }

  lemma {:induction false} CallCount(trader: Address, solver: Address, token: Address, n: nat)
    ensures |NestedCalls(trader, solver, token, n)| == n
  {
    if n > 0 { CallCount(trader, solver, token, n - 1); }
  }

  lemma NestsOnceMore(chain: Chain, m: Machine, trader: Address, solver: Address, token: Address, n: nat)
    requires n <= U64_MAX && trader != solver && m.clock == 0 && MayCall(m)
    requires (trader, n) !in m.store.usedNonces && chain.hash(Nth(trader, token, n)) !in m.store.statuses
    ensures var a := NestedCall(trader, solver, token, n);
            && Enabled(m, a)
            && var m' := Next(chain, m, a);
               && |m'.frames| == |m.frames| + 1 && m'.frames[..|m.frames|] == m.frames && m'.clock == 0
               && Top(m').FillFrame? && Top(m').pending == 3
               && m'.store.usedNonces == m.store.usedNonces + {(trader, n)}
               && m'.store.statuses.Keys == m.store.statuses.Keys + {chain.hash(Nth(trader, token, n))}
  {
    var i := Nth(trader, token, n);
    AdmitAnswers(chain, m.store, {trader, solver}, 0, solver, i, 1);
  }

  // ----- what is committed stays -----

  /** Between transactions every claim is final: nothing that follows, and no rollback, takes back a
      claim, a status, a receipt or a used nonce. */
  lemma CommittedStays(chain: Chain, m: Machine, actions: seq<Action>)
    requires Reachable(chain, m) && m.frames == [] && Steps(chain, m, actions).Some?
    ensures var m' := Steps(chain, m, actions).value;
            && m.log <= m'.log
            && m.store.usedNonces <= m'.store.usedNonces
            && (forall h :: h in m.store.statuses ==>
                  h in m'.store.statuses && m'.store.statuses[h] == m.store.statuses[h])
            && (forall h :: h in m.store.receipts ==>
                  h in m'.store.receipts && m'.store.receipts[h] == m.store.receipts[h])
  {
    ReachableInv(chain, m);
    StepsKeep(chain, m, actions);
    StepsStayAbove(chain, m, actions);
    var m' := Steps(chain, m, actions).value;
    forall key | key in m.store.usedNonces ensures key in m'.store.usedNonces {
      var k :| 0 <= k < |m.log| && m.log[k].intent.Key() == key;
      assert m'.log[k].intent.Key() == key;
      assert KeyIn(m'.log, key);
    }
    forall h | h in m.store.statuses
      ensures h in m'.store.statuses && m'.store.statuses[h] == m.store.statuses[h]
      ensures h in m.store.receipts ==> h in m'.store.receipts && m'.store.receipts[h] == m.store.receipts[h]
    {
      var k :| 0 <= k < |m.log| && m.log[k].hash == h;
      assert Recorded(m.store, m.log[k], k in Marks(m.frames)) && Recorded(m'.store, m'.log[k], k in Marks(m'.frames));
    }
    assert forall h :: h in m.store.receipts ==> HashIn(m.log, h);
  }

  /** The log still starts with `base` and no frame would cut into it. */
  ghost predicate Above(base: seq<Entry>, m: Machine) {
    base <= m.log && forall k :: 0 <= k < |m.frames| ==> |base| <= m.frames[k].mark
  }

  lemma NextStaysAbove(chain: Chain, base: seq<Entry>, m: Machine, a: Action)
    requires Above(base, m) && Enabled(m, a)
    ensures Above(base, Next(chain, m, a))
  {
  }

  lemma {:induction false} StepsStayAbove(chain: Chain, m: Machine, actions: seq<Action>)
    requires m.frames == [] && Steps(chain, m, actions).Some?
    ensures Above(m.log, Steps(chain, m, actions).value)
  {
    if actions != [] {
      var earlier := actions[..|actions| - 1];
      StepsStayAbove(chain, m, earlier);
      NextStaysAbove(chain, m.log, Steps(chain, m, earlier).value, actions[|actions| - 1]);
    }
  }
}
