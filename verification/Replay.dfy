/** What the replay guards amount to when the hash is SHA-256 over the canonical encoding and
    no two encodings seen collide: a write-once map from (trader, nonce) to one order. */
module Replay {
  import opened Protocol
  import opened RouterSpec
  import opened Reentrancy
  import Xdr

  /** The digest of an intent's canonical encoding; an intent whose fields do not fit their
      types has none, and never reaches the router. */
  function Digest(sha: Bytes -> Hash, i: TraderIntent): Hash {
    if i.Representable() then sha(Xdr.EncodeIntent(i)) else sha([])
  }

  /** The router at an address on a host whose digest function is `sha`. */
  function StellarChain(self: Address, sha: Bytes -> Hash): Chain {
    Chain(self, i => Digest(sha, i))
  }

  /** The digests of the orders in the log and of `i` differ where their encodings do. */
  ghost predicate CollisionFree(sha: Bytes -> Hash, log: seq<Entry>, i: TraderIntent)
    requires i.Representable()
  {
    forall k | 0 <= k < |log| && log[k].intent.Representable() ::
      sha(Xdr.EncodeIntent(log[k].intent)) == sha(Xdr.EncodeIntent(i))
      ==> Xdr.EncodeIntent(log[k].intent) == Xdr.EncodeIntent(i)
  }

  /** The order that holds a (trader, nonce), if any. */
  function Holder(log: seq<Entry>, key: NonceKey): Option<TraderIntent> {
    if log == [] then None
    else if log[|log| - 1].intent.Key() == key then Some(log[|log| - 1].intent)
    else Holder(log[..|log| - 1], key)
  }

  lemma {:induction false} HolderIsInLog(log: seq<Entry>, key: NonceKey)
    ensures Holder(log, key).Some? <==> KeyIn(log, key)
    ensures forall k :: Unique(log) && 0 <= k < |log| && log[k].intent.Key() == key ==>
              Holder(log, key) == Some(log[k].intent)
    ensures Holder(log, key).Some? ==>
              && Holder(log, key).value.Key() == key
              && exists k :: 0 <= k < |log| && log[k].intent == Holder(log, key).value
  {
    if log != [] {
      var earlier, last := log[..|log| - 1], log[|log| - 1];
      HolderIsInLog(earlier, key);
      assert forall k :: 0 <= k < |earlier| ==> log[k] == earlier[k];
      if last.intent.Key() != key && Holder(earlier, key).Some? {
        var k :| 0 <= k < |earlier| && earlier[k].intent == Holder(earlier, key).value;
        assert log[k].intent == Holder(log, key).value;
      }
      if KeyIn(log, key) && last.intent.Key() != key {
        var k :| 0 <= k < |log| && log[k].intent.Key() == key;
        assert earlier[k].intent.Key() == key;
      }
    }
  }

  /** In every reachable state the guards ask one question: who holds this (trader, nonce)?
      Nobody: the order passes.  This very order: it is not active.  Another: the nonce is used. */
  lemma GuardsAskWhoHoldsTheNonce(self: Address, sha: Bytes -> Hash, m: Machine, i: TraderIntent)
    requires Reachable(StellarChain(self, sha), m) && i.Representable() && CollisionFree(sha, m.log, i)
    ensures ReplayGuard(m.store, IntentHash(StellarChain(self, sha), i), i) ==
            match Holder(m.log, i.Key())
            case None => Ok(())
            case Some(holder) => if holder == i then Err(IntentNotActive) else Err(NonceAlreadyUsed)
  {
    var chain := StellarChain(self, sha);
    ReachableInv(chain, m);
    HolderIsInLog(m.log, i.Key());
    ActiveUnlessClaimed(self, sha, m, i);
  }

  /** An order reads anything but active exactly when it is itself in the log. */
  lemma ActiveUnlessClaimed(self: Address, sha: Bytes -> Hash, m: Machine, i: TraderIntent)
    requires Inv(StellarChain(self, sha), m) && i.Representable() && CollisionFree(sha, m.log, i)
    ensures StatusOf(m.store.statuses, IntentHash(StellarChain(self, sha), i)) != Active
       <==> exists k :: 0 <= k < |m.log| && m.log[k].intent == i
  {
    var chain := StellarChain(self, sha);
    var h := IntentHash(chain, i);
    if h in m.store.statuses {
      assert HashIn(m.log, h);
      var k :| 0 <= k < |m.log| && m.log[k].hash == h;
      assert Lawful(chain, m.log[k]) && Recorded(m.store, m.log[k], k in Marks(m.frames));
      Xdr.EncodingInjective(m.log[k].intent, i);
    }
    if k :| 0 <= k < |m.log| && m.log[k].intent == i {
      assert Lawful(chain, m.log[k]) && Recorded(m.store, m.log[k], k in Marks(m.frames));
    }
  }

  /** The map is write-once: between calls a (trader, nonce) that is held stays held by the same
      order, whatever runs next. */
  lemma HolderIsFinal(chain: Chain, m: Machine, actions: seq<Action>, key: NonceKey)
    requires Reachable(chain, m) && m.frames == [] && Steps(chain, m, actions).Some?
    requires Holder(m.log, key).Some?
    ensures Holder(Steps(chain, m, actions).value.log, key) == Holder(m.log, key)
  {
    var m' := Steps(chain, m, actions).value;
    ReachableInv(chain, m);
    StepsKeep(chain, m, actions);
    CommittedStays(chain, m, actions);
    HolderIsInLog(m.log, key);
    HolderIsInLog(m'.log, key);
    var k :| 0 <= k < |m.log| && m.log[k].intent == Holder(m.log, key).value;
    assert m'.log[k] == m.log[k];
  }
}
