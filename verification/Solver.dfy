/** The solver's main loop: poll, evaluate each candidate at the trader's minimum, execute the
    profitable ones, and carry on after an exception until a signal stops it. */
module Solver {
  import opened Protocol
  import opened FillMath
  import opened Evaluator
  import opened RouterSpec
  import opened Watcher
  import Json
  import Replay
  import Xdr

  /** The loop's two computations: reading a feed entry, and judging a candidate at a clock. */
  datatype Config = Config(parse: Parser, judge: (Candidate, int) -> Throws<EvaluationResult>)

  /** Evaluation at the candidate's minimum, by the configured prices. */
  function JudgeBy(prices: map<Address, nat>, txCost: int, minProfit: int)
    : (Candidate, int) -> Throws<EvaluationResult>
  {
    (c: Candidate, now: int) => EvaluateFromPrices(c.intent, c.intent.minBuyAmount, prices, txCost, minProfit, now)
  }

  function BotConfig(codec: Codec, prices: map<Address, nat>, txCost: int, minProfit: int): Config {
    Config(ParserOf(codec), JudgeBy(prices, txCost, minProfit))
  }

  /** What meets the candidate at one position of a poll: a signal before its turn, the clock
      of its evaluation, and whether executing it throws. */
  datatype Fate = Fate(stopped: bool, now: int, executeThrows: bool)

  /** What one turn of the loop meets: a poll that throws or a feed, the fates of the fresh
      candidates, and whether a signal arrives before the next turn. */
  datatype Turn = Turn(pollThrows: bool, payload: Payload, fates: nat -> Fate, stopsAfter: bool)

  /** One call of `execute`. */
  datatype Execution = Execution(candidate: Candidate, fillAmount: int, now: int)

  predicate IsProfitable(config: Config, c: Candidate, now: int) {
    config.judge(c, now).Value? && config.judge(c, now).value.profitable
  }

  /** Handling the candidate throws, so the turn ends there. */
  predicate Breaks(config: Config, c: Candidate, fate: Fate) {
    config.judge(c, fate.now).RangeError? || (IsProfitable(config, c, fate.now) && fate.executeThrows)
  }

  /** The call of `execute` that handling the candidate makes, if any. */
  function CallsOf(config: Config, c: Candidate, now: int): seq<Execution> {
    if IsProfitable(config, c, now) then [Execution(c, config.judge(c, now).value.fillAmount, now)] else []
  }

  datatype Handled = Handled(executed: seq<Execution>, running: bool)

  /** The candidates from position `k` on. */
  function HandleFrom(config: Config, cs: seq<Candidate>, fates: nat -> Fate, k: nat): Handled
    requires k <= |cs|
    decreases |cs| - k
  {
    if k == |cs| then Handled([], true)
    else if fates(k).stopped then Handled([], false)
    else
      var now := fates(k).now;
      var calls := CallsOf(config, cs[k], now);
      if Breaks(config, cs[k], fates(k)) then Handled(calls, true)
      else
        var others := HandleFrom(config, cs, fates, k + 1);
        Handled(calls + others.executed, others.running)
  }

  /** The calls of a whole session that begins with these hashes seen. */
  function Session(config: Config, seen: set<Hash>, turns: seq<Turn>): seq<Execution>
    decreases |turns|
  {
    if turns == [] then []
    else
      var turn := turns[0];
      var handled := HandledIn(config, seen, turn);
      handled.executed
      + if handled.running && !turn.stopsAfter then Session(config, SeenAfter(config, seen, turn), turns[1..]) else []
  }

  function Discovered(config: Config, turn: Turn): seq<Candidate> {
    ParsedFeed(config.parse, ExtractEntries(turn.payload))
  }

  function HandledIn(config: Config, seen: set<Hash>, turn: Turn): Handled {
    if turn.pollThrows then Handled([], true)
    else HandleFrom(config, Fresh(Discovered(config, turn), seen), turn.fates, 0)
  }

  function SeenAfter(config: Config, seen: set<Hash>, turn: Turn): set<Hash> {
    if turn.pollThrows then seen else seen + Hashes(Discovered(config, turn))
  }

  class SolverLoop {
    const config: Config
    const watcher: IntentWatcher
    var running: bool
    var executed: seq<Execution>

    constructor (config: Config)
      ensures fresh(watcher) && watcher.parse == config.parse && watcher.seen == {}
      ensures this.config == config && running && executed == []
    {
      this.config := config;
      this.watcher := new IntentWatcher(config.parse);
      running, executed := true, [];
    }

    /** Evaluates one candidate and executes it when it pays; tells whether that threw. */
    method Handle(candidate: Candidate, fate: Fate) returns (threw: bool)
      modifies this`executed
      ensures threw == Breaks(config, candidate, fate)
      ensures executed == old(executed) + CallsOf(config, candidate, fate.now)
    {
      var evaluation := config.judge(candidate, fate.now);
      if evaluation.RangeError? { return true; }
      if !evaluation.value.profitable { return false; }
      executed := executed + [Execution(candidate, evaluation.value.fillAmount, fate.now)];
      return fate.executeThrows;
    }

    /** The candidates in order, until a signal or an exception. */
    method HandleAll(candidates: seq<Candidate>, fates: nat -> Fate)
      requires running
      modifies this`running, this`executed
      ensures var handled := HandleFrom(config, candidates, fates, 0);
              running == handled.running && executed == old(executed) + handled.executed
    {
      var k := 0;
      ghost var done: seq<Execution> := [];
      while k < |candidates|
        invariant 0 <= k <= |candidates| && running
        invariant executed == old(executed) + done
        invariant HandleFrom(config, candidates, fates, 0).executed
                  == done + HandleFrom(config, candidates, fates, k).executed
        invariant HandleFrom(config, candidates, fates, 0).running == HandleFrom(config, candidates, fates, k).running
      {
        if fates(k).stopped { running := false; }
        if !running { return; }
        HandleStep(config, candidates, fates, k);
        ghost var calls := CallsOf(config, candidates[k], fates(k).now);
        var threw := Handle(candidates[k], fates(k));
        Regroup(old(executed), done, calls);
        if threw { return; }
        Regroup(done, calls, HandleFrom(config, candidates, fates, k + 1).executed);
        done := done + calls;
        k := k + 1;
      }
    }

    method Tick(turn: Turn)
      requires watcher.parse == config.parse && running
      modifies this`running, this`executed, watcher
      ensures var handled := HandledIn(config, old(watcher.seen), turn);
              && running == handled.running && executed == old(executed) + handled.executed
              && watcher.seen == SeenAfter(config, old(watcher.seen), turn)
    {
      if turn.pollThrows { return; }
      var candidates := watcher.Poll(turn.payload);
      HandleAll(candidates, turn.fates);
    }

    /** The loop, over the turns it is given. */
    method RunLoop(turns: seq<Turn>)
      requires watcher.parse == config.parse && running
      modifies this`running, this`executed, watcher
      ensures executed == old(executed) + Session(config, old(watcher.seen), turns)
    {
      var k := 0;
      ghost var done: seq<Execution> := [];
      ghost var all := Session(config, watcher.seen, turns);
      assert turns[0..] == turns;
      while running && k < |turns|
        invariant 0 <= k <= |turns|
        invariant executed == old(executed) + done
        invariant all == done + if running then Session(config, watcher.seen, turns[k..]) else []
        decreases |turns| - k
      {
        ghost var seen := watcher.seen;
        Tick(turns[k]);
        if turns[k].stopsAfter { running := false; }
        SessionStep(config, seen, turns, k);
        ghost var calls := HandledIn(config, seen, turns[k]).executed;
        Regroup(old(executed), done, calls);
        Regroup(done, calls, if running then Session(config, watcher.seen, turns[k + 1..]) else []);
        done := done + calls;
        k := k + 1;
      }
    }
  }

  lemma HandleStep(config: Config, cs: seq<Candidate>, fates: nat -> Fate, k: nat)
    requires k < |cs| && !fates(k).stopped
    ensures var calls, handled := CallsOf(config, cs[k], fates(k).now), HandleFrom(config, cs, fates, k);
            if Breaks(config, cs[k], fates(k)) then handled == Handled(calls, true)
            else
              var others := HandleFrom(config, cs, fates, k + 1);
              handled == Handled(calls + others.executed, others.running)
  {
  }

  lemma SessionStep(config: Config, seen: set<Hash>, turns: seq<Turn>, k: nat)
    requires k < |turns|
    ensures var handled := HandledIn(config, seen, turns[k]);
            Session(config, seen, turns[k..]) == handled.executed
              + if handled.running && !turns[k].stopsAfter then
                  Session(config, SeenAfter(config, seen, turns[k]), turns[k + 1..])
                else []
  {
    assert turns[k..][0] == turns[k] && turns[k..][1..] == turns[k + 1..];
  }

  // ----- whole sessions -----

  function Calls(log: seq<Execution>): set<Hash> { set e | e in log :: e.candidate.hash }

  ghost predicate FoundFrom(cs: seq<Candidate>, k: nat, c: Candidate) {
    exists n :: k <= n < |cs| && cs[n] == c
  }

  /** Every call from a position on is for a candidate at or after it. */
  lemma {:induction false} CallsArePicked(config: Config, cs: seq<Candidate>, fates: nat -> Fate, k: nat)
    requires k <= |cs|
    ensures forall e :: e in HandleFrom(config, cs, fates, k).executed ==>
              FoundFrom(cs, k, e.candidate) && Justified(config, e)
    decreases |cs| - k
  {
    if k < |cs| && !fates(k).stopped {
      CallsArePicked(config, cs, fates, k + 1);
      HandleStep(config, cs, fates, k);
      forall e | e in HandleFrom(config, cs, fates, k).executed
        ensures FoundFrom(cs, k, e.candidate) && Justified(config, e)
      {
        if e in CallsOf(config, cs[k], fates(k).now) { assert e.candidate == cs[k]; }
      }
    }
  }

  /** The calls from a position on are not for a candidate before it. */
  lemma LaterCallsDiffer(config: Config, cs: seq<Candidate>, fates: nat -> Fate, from: nat, k: nat)
    requires k < from <= |cs| && DistinctHashes(cs)
    ensures cs[k].hash !in Calls(HandleFrom(config, cs, fates, from).executed)
  {
    CallsArePicked(config, cs, fates, from);
  }

  ghost predicate Once(log: seq<Execution>) {
    forall a, b :: 0 <= a < b < |log| ==> log[a].candidate.hash != log[b].candidate.hash
  }

  lemma OnceJoins(a: seq<Execution>, b: seq<Execution>)
    requires Once(a) && Once(b) && Calls(a) !! Calls(b)
    ensures Once(a + b)
  {
    forall m, n | 0 <= m < |a| && 0 <= n < |b| ensures a[m].candidate.hash != b[n].candidate.hash {
      assert a[m] in a && b[n] in b;
      assert a[m].candidate.hash in Calls(a) && b[n].candidate.hash in Calls(b);
    }
  }

  /** A turn calls for each candidate at most once. */
  lemma {:induction false} CallsAreOnce(config: Config, cs: seq<Candidate>, fates: nat -> Fate, k: nat)
    requires k <= |cs| && DistinctHashes(cs)
    ensures Once(HandleFrom(config, cs, fates, k).executed)
    decreases |cs| - k
  {
    if k < |cs| && !fates(k).stopped {
      CallsAreOnce(config, cs, fates, k + 1);
      LaterCallsDiffer(config, cs, fates, k + 1, k);
      HandleStep(config, cs, fates, k);
      OnceJoins(CallsOf(config, cs[k], fates(k).now), HandleFrom(config, cs, fates, k + 1).executed);
    }
  }

  /** The call is for the amount its candidate was judged profitable at. */
  predicate Justified(config: Config, e: Execution) {
    IsProfitable(config, e.candidate, e.now) && e.fillAmount == config.judge(e.candidate, e.now).value.fillAmount
  }

  lemma TurnExecutesFresh(config: Config, seen: set<Hash>, turn: Turn)
    ensures var log := HandledIn(config, seen, turn).executed;
            && (forall e :: e in log ==>
                  && Justified(config, e) && !turn.pollThrows
                  && e.candidate in Discovered(config, turn)
                  && e.candidate.hash !in seen && e.candidate.hash in SeenAfter(config, seen, turn))
            && Once(log)
  {
    if !turn.pollThrows {
      var discovered := Discovered(config, turn);
      var cs := Fresh(discovered, seen);
      FreshIsOnce(discovered, seen);
      CallsArePicked(config, cs, turn.fates, 0);
      CallsAreOnce(config, cs, turn.fates, 0);
      assert forall c :: c in cs ==> c.hash in Hashes(cs);
    }
  }

  /** Over any session, through exceptions and whatever the feeds repeat, no hash is executed
      twice or after it was seen, every execution was judged profitable at the trader's
      minimum, and every one comes from a feed of the session. */
  lemma {:induction false} ExecutesAtMostOnce(config: Config, seen: set<Hash>, turns: seq<Turn>)
    ensures var log := Session(config, seen, turns);
            && Once(log)
            && (forall e :: e in log ==>
                  e.candidate.hash !in seen && Justified(config, e) && Offered(config, turns, e.candidate))
    decreases |turns|
  {
    if turns != [] {
      var first := HandledIn(config, seen, turns[0]).executed;
      var others := Session(config, SeenAfter(config, seen, turns[0]), turns[1..]);
      TurnExecutesFresh(config, seen, turns[0]);
      ExecutesAtMostOnce(config, SeenAfter(config, seen, turns[0]), turns[1..]);
      OnceJoins(first, others);
      forall e | e in others ensures Offered(config, turns, e.candidate) {
        var n :| 0 <= n < |turns[1..]| && OfferedIn(config, turns[1..][n], e.candidate);
        assert OfferedIn(config, turns[n + 1], e.candidate);
      }
      forall e | e in first ensures Offered(config, turns, e.candidate) {
        assert OfferedIn(config, turns[0], e.candidate);
      }
    }
  }

  predicate OfferedIn(config: Config, turn: Turn, c: Candidate) {
    !turn.pollThrows && c in Discovered(config, turn)
  }

  ghost predicate Offered(config: Config, turns: seq<Turn>, c: Candidate) {
    exists n :: 0 <= n < |turns| && OfferedIn(config, turns[n], c)
  }

  /** Every execution of the bot offers the trader's minimum, and the router admits it at that
      clock whenever the order is still active with its nonce unused, the two parties
      authorize, and the fee product fits. */
  lemma ExecutionsAreAdmissible(codec: Codec, prices: map<Address, nat>, txCost: int, minProfit: int, turns: seq<Turn>,
                                e: Execution, chain: Chain, s: Store, auths: set<Address>, solver: Address)
    requires e in Session(BotConfig(codec, prices, txCost, minProfit), {}, turns)
    ensures var i := e.candidate.intent;
            && i.Representable() && e.fillAmount == i.minBuyAmount
            && (solver in auths && i.trader in auths && solver != i.trader
                && ReplayGuard(s, IntentHash(chain, i), i).Ok? && FitsI128(e.fillAmount * i.solverFeeBps)
                ==> Admit(chain, s, auths, e.now, solver, i, e.fillAmount).Done?)
  {
    var config := BotConfig(codec, prices, txCost, minProfit);
    ExecutesAtMostOnce(config, {}, turns);
    var i := e.candidate.intent;
    var n :| 0 <= n < |turns| && OfferedIn(config, turns[n], e.candidate);
    ParsedComesFromEntry(config.parse, ExtractEntries(turns[n].payload), e.candidate);
    ReadIsRepresentable(codec, e.candidate);
    JudgedProfitable(codec, prices, txCost, minProfit, e.candidate, e.now);
    BotMirrorsRouter(i, e.fillAmount, e.now);
  }

  /** The hash under which the bot executes a candidate, and never executes it again, is the one
      under which the router files it. */
  lemma ExecutedUnderRouterHash(self: Address, codec: Codec, prices: map<Address, nat>, txCost: int, minProfit: int,
                                turns: seq<Turn>, e: Execution)
    requires e in Session(BotConfig(codec, prices, txCost, minProfit), {}, turns)
    ensures e.candidate.intent.Representable()
    ensures e.candidate.hash == IntentHash(Replay.StellarChain(self, codec.sha), e.candidate.intent)
  {
    var config := BotConfig(codec, prices, txCost, minProfit);
    ExecutesAtMostOnce(config, {}, turns);
    var n :| 0 <= n < |turns| && OfferedIn(config, turns[n], e.candidate);
    ParsedComesFromEntry(config.parse, ExtractEntries(turns[n].payload), e.candidate);
    ReadIsRepresentable(codec, e.candidate);
  }

  lemma ReadIsRepresentable(codec: Codec, c: Candidate)
    requires exists entry :: ParserOf(codec)(entry) == Some(c)
    ensures c.intent.Representable() && c.hash == Replay.Digest(codec.sha, c.intent)
  {
    var entry :| ParserOf(codec)(entry) == Some(c);
    assert ParseEntry(codec, entry) == Some(c);
  }

  lemma JudgedProfitable(codec: Codec, prices: map<Address, nat>, txCost: int, minProfit: int, c: Candidate, now: int)
    requires IsProfitable(BotConfig(codec, prices, txCost, minProfit), c, now)
    ensures CheckFill(c.intent, c.intent.minBuyAmount, now).Value?
            && CheckFill(c.intent, c.intent.minBuyAmount, now).value.ok
    ensures BotConfig(codec, prices, txCost, minProfit).judge(c, now).value.fillAmount == c.intent.minBuyAmount
  {
  }

  lemma {:induction false} ParsedComesFromEntry(parse: Parser, entries: seq<FeedEntry>, c: Candidate)
    requires c in ParsedFeed(parse, entries)
    ensures exists e :: e in entries && parse(e) == Some(c)
  {
    var earlier, last := entries[..|entries| - 1], entries[|entries| - 1];
    if c in ParsedFeed(parse, earlier) {
      ParsedComesFromEntry(parse, earlier, c);
    } else {
      assert last in entries && parse(last) == Some(c);
    }
  }

  // ----- what an exception or a signal costs -----

  /** The loop gets to position `k`: no signal up to it and no exception before it. */
  ghost predicate Reached(config: Config, cs: seq<Candidate>, fates: nat -> Fate, from: nat, k: nat)
    requires k < |cs|
  {
    && (forall j :: from <= j <= k ==> !fates(j).stopped)
    && (forall j :: from <= j < k ==> !Breaks(config, cs[j], fates(j)))
  }

  ghost predicate Called(config: Config, cs: seq<Candidate>, fates: nat -> Fate, from: nat, k: nat)
    requires from <= |cs| && k < |cs|
  {
    cs[k].hash in Calls(HandleFrom(config, cs, fates, from).executed)
  }

  lemma ReachedFurther(config: Config, cs: seq<Candidate>, fates: nat -> Fate, from: nat, k: nat)
    requires from < k < |cs| && !fates(from).stopped
    ensures Reached(config, cs, fates, from, k)
       <==> !Breaks(config, cs[from], fates(from)) && Reached(config, cs, fates, from + 1, k)
  {
  }

  lemma CalledLater(config: Config, cs: seq<Candidate>, fates: nat -> Fate, from: nat, k: nat)
    requires from < k < |cs| && DistinctHashes(cs) && !fates(from).stopped
    ensures Called(config, cs, fates, from, k)
       <==> !Breaks(config, cs[from], fates(from)) && Called(config, cs, fates, from + 1, k)
  {
    SplitCalls(config, cs, fates, from);
  }

  lemma CalledHere(config: Config, cs: seq<Candidate>, fates: nat -> Fate, from: nat, k: nat)
    requires from <= k < |cs| && DistinctHashes(cs) && (fates(from).stopped || from == k)
    ensures Called(config, cs, fates, from, k)
       <==> Reached(config, cs, fates, from, k) && IsProfitable(config, cs[k], fates(k).now)
  {
    if !fates(from).stopped {
      SplitCalls(config, cs, fates, k);
      LaterCallsDiffer(config, cs, fates, k + 1, k);
    }
  }

  /** A fresh candidate is executed exactly when the loop gets to it and it is profitable. */
  lemma {:induction false} ExecutedExactly(config: Config, cs: seq<Candidate>, fates: nat -> Fate, from: nat, k: nat)
    requires from <= k < |cs| && DistinctHashes(cs)
    ensures Called(config, cs, fates, from, k)
       <==> Reached(config, cs, fates, from, k) && IsProfitable(config, cs[k], fates(k).now)
    decreases k - from
  {
    if fates(from).stopped || from == k {
      CalledHere(config, cs, fates, from, k);
    } else {
      ExecutedExactly(config, cs, fates, from + 1, k);
      CalledLater(config, cs, fates, from, k);
      ReachedFurther(config, cs, fates, from, k);
    }
  }

  lemma SplitCalls(config: Config, cs: seq<Candidate>, fates: nat -> Fate, k: nat)
    requires k < |cs| && !fates(k).stopped
    ensures Calls(HandleFrom(config, cs, fates, k).executed)
         == (if IsProfitable(config, cs[k], fates(k).now) then {cs[k].hash} else {})
          + (if Breaks(config, cs[k], fates(k)) then {} else Calls(HandleFrom(config, cs, fates, k + 1).executed))
  {
    var calls := CallsOf(config, cs[k], fates(k).now);
    HandleStep(config, cs, fates, k);
    CallsJoin(calls, HandleFrom(config, cs, fates, k + 1).executed);
    assert calls != [] ==> Calls(calls) == {cs[k].hash} by { assert calls != [] ==> calls[0] in calls; }
  }

  lemma CallsJoin(a: seq<Execution>, b: seq<Execution>)
    ensures Calls(a + b) == Calls(a) + Calls(b)
  {
    assert forall e :: e in a + b <==> e in a || e in b;
  }

  /** The turn discovers the hash, gets to its candidate, and judges it profitable. */
  ghost predicate ExecutesIn(config: Config, seen: set<Hash>, turn: Turn, h: Hash) {
    && !turn.pollThrows
    && var cs := Fresh(Discovered(config, turn), seen);
       exists k :: 0 <= k < |cs| && cs[k].hash == h && Reached(config, cs, turn.fates, 0, k)
                   && IsProfitable(config, cs[k], turn.fates(k).now)
  }

  /** One turn, without its loop. */
  lemma TurnExecutesExactly(config: Config, seen: set<Hash>, turn: Turn, h: Hash)
    ensures h in Calls(HandledIn(config, seen, turn).executed) <==> ExecutesIn(config, seen, turn, h)
  {
    if !turn.pollThrows {
      var cs := Fresh(Discovered(config, turn), seen);
      FreshIsOnce(Discovered(config, turn), seen);
      if h in Calls(HandledIn(config, seen, turn).executed) {
        CallsArePicked(config, cs, turn.fates, 0);
        var k :| 0 <= k < |cs| && cs[k].hash == h;
        ExecutedExactly(config, cs, turn.fates, 0, k);
      }
      if k :| 0 <= k < |cs| && cs[k].hash == h && Reached(config, cs, turn.fates, 0, k)
              && IsProfitable(config, cs[k], turn.fates(k).now) {
        ExecutedExactly(config, cs, turn.fates, 0, k);
      }
    }
  }

  predicate GoesOn(config: Config, seen: set<Hash>, turn: Turn) {
    HandledIn(config, seen, turn).running && !turn.stopsAfter
  }

  /** The session gets to turn `n`: no signal stopped it before. */
  predicate Runs(config: Config, seen: set<Hash>, turns: seq<Turn>, n: nat)
    requires n < |turns|
    decreases n
  {
    n == 0 || (GoesOn(config, seen, turns[0]) && Runs(config, SeenAfter(config, seen, turns[0]), turns[1..], n - 1))
  }

  /** The hashes seen before turn `n`. */
  function SeenBefore(config: Config, seen: set<Hash>, turns: seq<Turn>, n: nat): set<Hash>
    requires n < |turns|
    decreases n
  {
    if n == 0 then seen else SeenBefore(config, SeenAfter(config, seen, turns[0]), turns[1..], n - 1)
  }

  ghost predicate ExecutesAt(config: Config, seen: set<Hash>, turns: seq<Turn>, n: nat, h: Hash)
    requires n < |turns|
  {
    Runs(config, seen, turns, n) && ExecutesIn(config, SeenBefore(config, seen, turns, n), turns[n], h)
  }

  /** A session executes a hash exactly when it gets to the turn that first discovers it, that turn
      gets to its candidate, and the candidate is profitable then. */
  lemma {:induction false} SessionExecutesExactly(config: Config, seen: set<Hash>, turns: seq<Turn>, h: Hash)
    ensures h in Calls(Session(config, seen, turns))
       <==> exists n :: 0 <= n < |turns| && ExecutesAt(config, seen, turns, n, h)
    decreases |turns|
  {
    if turns != [] {
      var first, seen' := turns[0], SeenAfter(config, seen, turns[0]);
      TurnExecutesExactly(config, seen, first, h);
      SessionExecutesExactly(config, seen', turns[1..], h);
      SessionCalls(config, seen, turns);
      assert ExecutesAt(config, seen, turns, 0, h) <==> ExecutesIn(config, seen, first, h);
      forall n | 0 <= n < |turns| - 1
        ensures ExecutesAt(config, seen, turns, n + 1, h)
           <==> GoesOn(config, seen, first) && ExecutesAt(config, seen', turns[1..], n, h)
      {
        LaterTurn(config, seen, turns, n, h);
      }
      if n :| 0 <= n < |turns| && ExecutesAt(config, seen, turns, n, h) {
        if n > 0 { assert ExecutesAt(config, seen', turns[1..], n - 1, h); }
      }
    }
  }

  lemma LaterTurn(config: Config, seen: set<Hash>, turns: seq<Turn>, n: nat, h: Hash)
    requires n + 1 < |turns|
    ensures ExecutesAt(config, seen, turns, n + 1, h)
       <==> GoesOn(config, seen, turns[0]) && ExecutesAt(config, SeenAfter(config, seen, turns[0]), turns[1..], n, h)
  {
    assert turns[1..][n] == turns[n + 1];
  }

  lemma SessionCalls(config: Config, seen: set<Hash>, turns: seq<Turn>)
    requires turns != []
    ensures Calls(Session(config, seen, turns))
         == Calls(HandledIn(config, seen, turns[0]).executed)
          + if GoesOn(config, seen, turns[0]) then
              Calls(Session(config, SeenAfter(config, seen, turns[0]), turns[1..]))
            else {}
  {
    var others :=
      if GoesOn(config, seen, turns[0]) then Session(config, SeenAfter(config, seen, turns[0]), turns[1..]) else [];
    CallsJoin(HandledIn(config, seen, turns[0]).executed, others);
    assert Calls([]) == {};
  }

  /** A candidate the turn did not get to is lost: polling has marked it seen, so no later
      turn executes it however often the feed repeats it. */
  lemma PassedOverIsLost(config: Config, seen: set<Hash>, turn: Turn, later: seq<Turn>, k: nat)
    requires !turn.pollThrows
    requires k < |Fresh(Discovered(config, turn), seen)|
    requires var cs := Fresh(Discovered(config, turn), seen);
             !(Reached(config, cs, turn.fates, 0, k) && IsProfitable(config, cs[k], turn.fates(k).now))
    ensures var cs := Fresh(Discovered(config, turn), seen);
            cs[k].hash !in Calls(Session(config, seen, [turn] + later))
  {
    var discovered := Discovered(config, turn);
    var cs := Fresh(discovered, seen);
    FreshIsOnce(discovered, seen);
    ExecutedExactly(config, cs, turn.fates, 0, k);
    assert cs[k].hash in Hashes(cs) && Hashes(cs) == Hashes(discovered) - seen;
    assert cs[k].hash in SeenAfter(config, seen, turn);
    ExecutesAtMostOnce(config, SeenAfter(config, seen, turn), later);
    assert ([turn] + later)[0] == turn && ([turn] + later)[1..] == later;
    var handled := HandledIn(config, seen, turn);
    var others :=
      if handled.running && !turn.stopsAfter then Session(config, SeenAfter(config, seen, turn), later) else [];
    CallsJoin(handled.executed, others);
  }

  /** A profit lost to another order's price: the first of two entries buys a token whose price
      scales to zero, evaluating it throws, and the second, though profitable at that very
      clock, is never executed, whatever follows and however often the feed repeats it. */
  lemma ThrowLosesTheRest(parse: Parser, first: FeedEntry, second: FeedEntry, dust: Address, later: seq<Turn>)
    requires parse(first).Some? && parse(second).Some? && parse(first).value.hash != parse(second).value.hash
    requires var order := parse(second).value.intent;
             && order.sellToken != order.buyToken && dust !in {order.sellToken, order.buyToken}
             && order.sellAmount == 1_000 && order.minBuyAmount == 100 && order.deadline == 10
             && order.maxSlippageBps == 0 && order.solverFeeBps == 0
             && parse(first).value.intent == order.(buyToken := dust)
    ensures var c := parse(second).value;
            var config := Config(parse, JudgeBy(map[c.intent.sellToken := 1, c.intent.buyToken := 1, dust := 0], 0, 0));
            var turn := Turn(false, ListOf([first, second]), n => Fate(false, 5, false), false);
            IsProfitable(config, c, 5) && c.hash !in Calls(Session(config, {}, [turn] + later))
  {
    var c := parse(second).value;
    var config := Config(parse, JudgeBy(map[c.intent.sellToken := 1, c.intent.buyToken := 1, dust := 0], 0, 0));
    var turn := Turn(false, ListOf([first, second]), n => Fate(false, 5, false), false);
    TwoEntries(parse, first, second);
    var cs := Fresh(Discovered(config, turn), {});
    PriceOfDust(c.intent, dust);
    assert Breaks(config, cs[0], turn.fates(0));
    assert !Reached(config, cs, turn.fates, 0, 1);
    PassedOverIsLost(config, {}, turn, later, 1);
  }

  /** The order of `ThrowLosesTheRest` as the SDK prints it. */
  function OrderFor(trader: string, sell: string, buy: string): Json.WireIntent {
    Json.WireIntent(trader, sell, buy, 1_000, 100, 0, 10, 1, 0)
  }

  /** The intent an order for these addresses stands for. */
  function ResolvedOrder(codec: Codec, trader: string, sell: string, buy: string): TraderIntent
    requires codec.resolve(trader).Some? && codec.resolve(sell).Some? && codec.resolve(buy).Some?
  {
    TraderIntent(codec.resolve(trader).value, codec.resolve(sell).value, codec.resolve(buy).value,
                 1_000, 100, 0, 10, 1, 0)
  }

  lemma OrderIsRead(codec: Codec, trader: string, sell: string, buy: string)
    requires forall s :: codec.resolve(s).Some? ==> Json.All(Json.IsPlain, s)
    requires codec.resolve(trader).Some? && codec.resolve(sell).Some? && codec.resolve(buy).Some? && sell != buy
    ensures var i := ResolvedOrder(codec, trader, sell, buy);
            var e := Quoted(Json.SerializeIntent(OrderFor(trader, sell, buy)));
            i.Representable() && ParserOf(codec)(e) == Some(Candidate(codec.sha(Xdr.EncodeIntent(i)), i, None))
  {
    var w := OrderFor(trader, sell, buy);
    EveryShapeKeepsTheHash(codec, Quoted(Json.SerializeIntent(w)), w);
  }

  /** A feed of two intents as the SDK prints them, read by the bot's own parser, loses the profit of
      the second: only their hashes must differ and the four addresses be ones it accepts. */
  lemma FeedLosesAProfit(codec: Codec, trader: string, sell: string, buy: string, dust: string, later: seq<Turn>)
    requires forall s :: codec.resolve(s).Some? ==> Json.All(Json.IsPlain, s)
    requires codec.resolve(trader).Some? && codec.resolve(sell).Some?
    requires codec.resolve(buy).Some? && codec.resolve(dust).Some?
    requires codec.resolve(sell) != codec.resolve(buy)
    requires codec.resolve(dust) !in {codec.resolve(sell), codec.resolve(buy)}
    requires var order, worthless := ResolvedOrder(codec, trader, sell, buy), ResolvedOrder(codec, trader, sell, dust);
             codec.sha(Xdr.EncodeIntent(order)) != codec.sha(Xdr.EncodeIntent(worthless))
    ensures var order := ResolvedOrder(codec, trader, sell, buy);
            var c := Candidate(codec.sha(Xdr.EncodeIntent(order)), order, None);
            var prices := map[order.sellToken := 1, order.buyToken := 1, codec.resolve(dust).value := 0];
            var first := Quoted(Json.SerializeIntent(OrderFor(trader, sell, dust)));
            var second := Quoted(Json.SerializeIntent(OrderFor(trader, sell, buy)));
            var turn := Turn(false, ListOf([first, second]), n => Fate(false, 5, false), false);
            var config := BotConfig(codec, prices, 0, 0);
            && config.parse(second) == Some(c) && IsProfitable(config, c, 5)
            && c.hash !in Calls(Session(config, {}, [turn] + later))
  {
    OrderIsRead(codec, trader, sell, dust);
    OrderIsRead(codec, trader, sell, buy);
    var first := Quoted(Json.SerializeIntent(OrderFor(trader, sell, dust)));
    var second := Quoted(Json.SerializeIntent(OrderFor(trader, sell, buy)));
    ThrowLosesTheRest(ParserOf(codec), first, second, codec.resolve(dust).value, later);
  }

  lemma PriceOfDust(order: TraderIntent, dust: Address)
    requires order.sellToken != order.buyToken && dust !in {order.sellToken, order.buyToken}
    requires order.sellAmount == 1_000 && order.minBuyAmount == 100 && order.deadline == 10
    requires order.maxSlippageBps == 0 && order.solverFeeBps == 0
    ensures var prices := map[order.sellToken := 1, order.buyToken := 1, dust := 0];
            var r := EvaluateFromPrices(order, 100, prices, 0, 0, 5);
            && EvaluateFromPrices(order.(buyToken := dust), 100, prices, 0, 0, 5) == RangeError
            && r.Value? && r.value.profitable
  {
  }

  lemma TwoEntries(parse: Parser, first: FeedEntry, second: FeedEntry)
    requires parse(first).Some? && parse(second).Some? && parse(first).value.hash != parse(second).value.hash
    ensures Fresh(ParsedFeed(parse, [first, second]), {}) == [parse(first).value, parse(second).value]
  {
    var a, b := parse(first).value, parse(second).value;
    FeedStep(parse, [], first);
    FeedStep(parse, [first], second);
    assert [] + [first] == [first] && [first] + [second] == [first, second];
    TwoFresh(a, b);
    assert [] + [a] == [a] && [a] + [b] == [a, b];
  }

  lemma FeedStep(parse: Parser, entries: seq<FeedEntry>, e: FeedEntry)
    requires parse(e).Some?
    ensures ParsedFeed(parse, entries + [e]) == ParsedFeed(parse, entries) + [parse(e).value]
  {
    assert (entries + [e])[..|entries|] == entries;
  }

  lemma TwoFresh(a: Candidate, b: Candidate)
    requires a.hash != b.hash
    ensures Fresh([a, b], {}) == [a, b]
  {
    FreshStep([], a, {});
    FreshStep([a], b, {});
    assert [] + [a] == [a] && [a] + [b] == [a, b];
  }

  // ----- what ends a session -----

  /** A signal comes before the turn of a candidate that the loop would otherwise have got to. */
  ghost predicate Signalled(config: Config, cs: seq<Candidate>, fates: nat -> Fate, from: nat) {
    exists k :: from <= k < |cs| && StopsAt(config, cs, fates, from, k)
  }

  predicate StopsAt(config: Config, cs: seq<Candidate>, fates: nat -> Fate, from: nat, k: nat)
    requires k < |cs|
  {
    fates(k).stopped && forall j :: from <= j < k ==> !fates(j).stopped && !Breaks(config, cs[j], fates(j))
  }

  lemma SignalledLater(config: Config, cs: seq<Candidate>, fates: nat -> Fate, from: nat)
    requires from < |cs| && !fates(from).stopped
    ensures Signalled(config, cs, fates, from)
       <==> !Breaks(config, cs[from], fates(from)) && Signalled(config, cs, fates, from + 1)
  {
    if k :| from <= k < |cs| && StopsAt(config, cs, fates, from, k) {
      assert StopsAt(config, cs, fates, from + 1, k);
    }
    var next := from + 1;
    if !Breaks(config, cs[from], fates(from)) && Signalled(config, cs, fates, next) {
      var k :| next <= k < |cs| && StopsAt(config, cs, fates, next, k);
      assert StopsAt(config, cs, fates, from, k);
    }
  }

  /** Handling stops the loop exactly when signalled; an exception never does. */
  lemma {:induction false} StopsExactly(config: Config, cs: seq<Candidate>, fates: nat -> Fate, from: nat)
    requires from <= |cs|
    ensures HandleFrom(config, cs, fates, from).running <==> !Signalled(config, cs, fates, from)
    decreases |cs| - from
  {
    if from < |cs| {
      if fates(from).stopped {
        assert StopsAt(config, cs, fates, from, from);
      } else {
        HandleStep(config, cs, fates, from);
        StopsExactly(config, cs, fates, from + 1);
        SignalledLater(config, cs, fates, from);
      }
    }
  }

  /** The session goes on after a turn exactly when no signal came in it, neither before a candidate it
      would have got to nor at its end; a poll or a candidate that throws does not end it. */
  lemma GoesOnExactly(config: Config, seen: set<Hash>, turn: Turn)
    ensures GoesOn(config, seen, turn)
       <==> !turn.stopsAfter
            && (turn.pollThrows || !Signalled(config, Fresh(Discovered(config, turn), seen), turn.fates, 0))
  {
    if !turn.pollThrows { StopsExactly(config, Fresh(Discovered(config, turn), seen), turn.fates, 0); }
  }

  /** After a signal nothing is executed: not the candidate it came before, none behind it, and nothing
      in any later turn. */
  lemma SignalEndsSession(config: Config, seen: set<Hash>, turn: Turn, later: seq<Turn>, k: nat)
    requires !turn.pollThrows && k < |Fresh(Discovered(config, turn), seen)|
    requires StopsAt(config, Fresh(Discovered(config, turn), seen), turn.fates, 0, k)
    ensures Session(config, seen, [turn] + later) == HandledIn(config, seen, turn).executed
    ensures var cs := Fresh(Discovered(config, turn), seen);
            forall j :: k <= j < |cs| ==> cs[j].hash !in Calls(Session(config, seen, [turn] + later))
  {
    var cs := Fresh(Discovered(config, turn), seen);
    StopsExactly(config, cs, turn.fates, 0);
    assert ([turn] + later)[0] == turn && ([turn] + later)[1..] == later;
    var log := HandledIn(config, seen, turn).executed;
    assert log + [] == log;
    FreshIsOnce(Discovered(config, turn), seen);
    forall j | k <= j < |cs| ensures cs[j].hash !in Calls(log) {
      ExecutedExactly(config, cs, turn.fates, 0, j);
    }
  }

  /** The calls are for candidates in the order of the poll, each at the clock of its own evaluation. */
  ghost predicate InOrder(cs: seq<Candidate>, fates: nat -> Fate, from: nat, log: seq<Execution>)
    decreases |log|
  {
    log == [] || exists k :: from <= k < |cs| && Makes(cs, fates, k, log)
  }

  ghost predicate Makes(cs: seq<Candidate>, fates: nat -> Fate, k: nat, log: seq<Execution>)
    requires k < |cs| && log != []
    decreases |log|, 0
  {
    log[0].candidate == cs[k] && log[0].now == fates(k).now && InOrder(cs, fates, k + 1, log[1..])
  }

  lemma InOrderFromEarlier(cs: seq<Candidate>, fates: nat -> Fate, from: nat, log: seq<Execution>)
    requires InOrder(cs, fates, from + 1, log)
    ensures InOrder(cs, fates, from, log)
  {
    if log != [] {
      var k :| from + 1 <= k < |cs| && Makes(cs, fates, k, log);
    }
  }

  lemma {:induction false} CallsAreInOrder(config: Config, cs: seq<Candidate>, fates: nat -> Fate, from: nat)
    requires from <= |cs|
    ensures InOrder(cs, fates, from, HandleFrom(config, cs, fates, from).executed)
    decreases |cs| - from
  {
    if from < |cs| && !fates(from).stopped {
      CallsAreInOrder(config, cs, fates, from + 1);
      HandleStep(config, cs, fates, from);
      var calls, log := CallsOf(config, cs[from], fates(from).now), HandleFrom(config, cs, fates, from).executed;
      var others := HandleFrom(config, cs, fates, from + 1).executed;
      if calls != [] {
        assert log[1..] == if Breaks(config, cs[from], fates(from)) then [] else others;
        assert Makes(cs, fates, from, log);
      } else {
        assert log == [] || log == others;
        InOrderFromEarlier(cs, fates, from, others);
      }
    }
  }

  // ----- what the bot executes pays -----

  /** The order pays at its minimum, at this clock. */
  predicate Pays(i: TraderIntent, prices: map<Address, nat>, txCost: int, minProfit: int, now: int) {
    && i.sellToken in prices && i.buyToken in prices && 0 < prices[i.buyToken]
    && SoundTerms(i) && now <= i.deadline && WithinTolerance(i, i.minBuyAmount)
    && i.sellAmount * prices[i.sellToken]
       >= prices[i.buyToken] * (Proceeds(i.minBuyAmount, i.solverFeeBps) + txCost + minProfit)
  }

  /** The bot judges a candidate profitable exactly when both its tokens are priced, its minimum is an
      acceptable fill, and the sold amount pays for the proceeds, the cost and the margin. */
  lemma JudgedExactly(prices: map<Address, nat>, txCost: int, minProfit: int, c: Candidate, now: int)
    requires c.intent.Representable()
    ensures var r := JudgeBy(prices, txCost, minProfit)(c, now);
            r.Value? && r.value.profitable <==> Pays(c.intent, prices, txCost, minProfit, now)
  {
    var i := c.intent;
    ProfitableMeansPriced(i, i.minBuyAmount, prices, txCost, minProfit, now);
    AcceptedMinimum(i, now);
  }

  lemma AcceptedMinimum(i: TraderIntent, now: int)
    requires i.Representable()
    ensures CheckFill(i, i.minBuyAmount, now).Value? && CheckFill(i, i.minBuyAmount, now).value.ok
       <==> SoundTerms(i) && now <= i.deadline && WithinTolerance(i, i.minBuyAmount)
  {
    if SoundTerms(i) && now <= i.deadline { CheckIsTolerance(i, i.minBuyAmount, now); }
  }

  /** Every execution of the bot is of an order that pays, at its minimum. */
  lemma ExecutionsPay(codec: Codec, prices: map<Address, nat>, txCost: int, minProfit: int, turns: seq<Turn>,
                      e: Execution)
    requires e in Session(BotConfig(codec, prices, txCost, minProfit), {}, turns)
    ensures e.fillAmount == e.candidate.intent.minBuyAmount
    ensures Pays(e.candidate.intent, prices, txCost, minProfit, e.now)
  {
    ExecutesAtMostOnce(BotConfig(codec, prices, txCost, minProfit), {}, turns);
    ExecutedUnderRouterHash(e.candidate.intent.trader, codec, prices, txCost, minProfit, turns, e);
    JudgedExactly(prices, txCost, minProfit, e.candidate, e.now);
    JudgedProfitable(codec, prices, txCost, minProfit, e.candidate, e.now);
  }
}
