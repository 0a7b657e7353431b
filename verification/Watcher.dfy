/** The bot's watcher: it parses a feed of intents, skipping malformed entries, and returns
    each intent hash once over its whole life. */
module Watcher {
  import opened Protocol
  import Json
  import Xdr
  import opened FillMath

  /** Reads a text address, and the digest function. */
  datatype Codec = Codec(resolve: string -> Option<Address>, sha: Bytes -> Hash)

  /** A record's own `intent`: JSON text, an object, or something else. */
  datatype RawIntent = Text(json: string) | Object(members: seq<Json.Member>) | Unreadable

  /** An entry of the feed: a string; a record, whose intent is under `intent` or, without one, is
      the record of its other members; or anything else. */
  datatype FeedEntry =
    | Quoted(json: string)
    | Record(intent: Option<RawIntent>, members: seq<Json.Member>)
    | Opaque

  /** What the feed answers: a list, an object with a list under `intents`, or nothing usable. */
  datatype Payload = ListOf(items: seq<FeedEntry>) | IntentsOf(intents: seq<FeedEntry>) | Unusable

  function ExtractEntries(payload: Payload): seq<FeedEntry> {
    match payload
    case ListOf(items) => items
    case IntentsOf(intents) => intents
    case Unusable => []
  }

  /** The JSON text that an entry's intent is read from, or none where that cannot be an intent. */
  function TextOf(e: FeedEntry): Option<string> {
    match e
    case Quoted(json) => Some(json)
    case Record(Some(Text(json)), _) => Some(json)
    case Record(Some(Object(members)), _) => Some(Json.PrintObject(members))
    case Record(None, members) => Some(Json.PrintObject(members))
    case _ => None
  }

  const AUTH_ENTRY := "traderAuthEntry"

  /** The trader's authorization, when a record brings one as a string. */
  function AuthOf(e: FeedEntry): Option<string> {
    match e
    case Record(_, members) =>
      var auth := Json.Lookup(members, AUTH_ENTRY);
      if auth.Some? && auth.value.JString? then Some(auth.value.s) else None
    case _ => None
  }

  datatype Candidate = Candidate(hash: Hash, intent: TraderIntent, traderAuth: Option<string>)

  function ResolveIntent(codec: Codec, w: Json.WireIntent): Option<TraderIntent> {
    var trader :- codec.resolve(w.trader);
    var sellToken :- codec.resolve(w.sellToken);
    var buyToken :- codec.resolve(w.buyToken);
    Some(TraderIntent(trader, sellToken, buyToken, w.sellAmount, w.minBuyAmount, w.maxSlippageBps, w.deadline, w.nonce,
                      w.solverFeeBps))
  }

  /** The candidate an entry stands for, or none where the parser throws: text that is not a
      valid intent, or an integer too large to encode. */
  function ParseEntry(codec: Codec, e: FeedEntry): Option<Candidate> {
    var json :- TextOf(e);
    var wire :- Json.DeserializeIntent(s => codec.resolve(s).Some?, json);
    var intent :- ResolveIntent(codec, wire);
    if intent.Representable() then Some(Candidate(codec.sha(Xdr.EncodeIntent(intent)), intent, AuthOf(e))) else None
  }

  /** How the bot reads an entry: what it comes to, or none when reading it throws. */
  type Parser = FeedEntry -> Option<Candidate>

  function ParserOf(codec: Codec): Parser { e => ParseEntry(codec, e) }

  function ParsedFeed(parse: Parser, entries: seq<FeedEntry>): seq<Candidate> {
    if entries == [] then []
    else
      var earlier := ParsedFeed(parse, entries[..|entries| - 1]);
      match parse(entries[|entries| - 1])
      case None => earlier
      case Some(c) => earlier + [c]
  }

  function Hashes(cs: seq<Candidate>): set<Hash> { set c | c in cs :: c.hash }

  /** The candidates whose hash is not in `seen` and not earlier in the list. */
  function Fresh(cs: seq<Candidate>, seen: set<Hash>): seq<Candidate> {
    if cs == [] then []
    else
      var earlier, last := cs[..|cs| - 1], cs[|cs| - 1];
      Fresh(earlier, seen) + if last.hash in seen || last.hash in Hashes(earlier) then [] else [last]
  }

  class IntentWatcher {
    const parse: Parser
    var seen: set<Hash>

    constructor (parse: Parser)
      ensures this.parse == parse && seen == {}
    {
      this.parse := parse;
      seen := {};
    }

    method ParseFeed(payload: Payload) returns (candidates: seq<Candidate>)
      ensures candidates == ParsedFeed(parse, ExtractEntries(payload))
    {
      var entries := ExtractEntries(payload);
      candidates := [];
      for k := 0 to |entries|
        invariant candidates == ParsedFeed(parse, entries[..k])
      {
        assert entries[..k + 1][..k] == entries[..k];
        var parsed := parse(entries[k]);
        if parsed.Some? { candidates := candidates + [parsed.value]; }
      }
      assert entries[..|entries|] == entries;
    }

    /** Marks the discovered candidates seen and returns those that were not. */
    method TakeFresh(discovered: seq<Candidate>) returns (found: seq<Candidate>)
      modifies this
      ensures found == Fresh(discovered, old(seen)) && seen == old(seen) + Hashes(discovered)
    {
      found := [];
      for k := 0 to |discovered|
        invariant found == Fresh(discovered[..k], old(seen))
        invariant seen == old(seen) + Hashes(discovered[..k])
      {
        assert discovered[..k + 1] == discovered[..k] + [discovered[k]];
        HashesGrow(discovered[..k], discovered[k]);
        FreshStep(discovered[..k], discovered[k], old(seen));
        if discovered[k].hash !in seen {
          seen := seen + {discovered[k].hash};
          found := found + [discovered[k]];
        }
      }
      assert discovered[..|discovered|] == discovered;
    }

    /** One poll: what the feed has that no poll has returned before. */
    method Poll(payload: Payload) returns (found: seq<Candidate>)
      modifies this
      ensures var discovered := ParsedFeed(parse, ExtractEntries(payload));
              found == Fresh(discovered, old(seen)) && seen == old(seen) + Hashes(discovered)
    {
      var discovered := ParseFeed(payload);
      found := TakeFresh(discovered);
    }
  }

  lemma FreshStep(cs: seq<Candidate>, c: Candidate, seen: set<Hash>)
    ensures Fresh(cs + [c], seen) == Fresh(cs, seen) + if c.hash in seen || c.hash in Hashes(cs) then [] else [c]
  {
    assert (cs + [c])[..|cs|] == cs;
  }

  lemma HashesGrow(cs: seq<Candidate>, c: Candidate)
    ensures Hashes(cs + [c]) == Hashes(cs) + {c.hash}
  {
    assert forall x :: x in cs + [c] <==> x in cs || x == c;
  }

  lemma HashesJoin(a: seq<Candidate>, b: seq<Candidate>)
    ensures Hashes(a + b) == Hashes(a) + Hashes(b)
  {
    assert forall x :: x in a + b <==> x in a || x in b;
  }

  /** Polling in two goes returns what polling once over both feeds would. */
  lemma {:induction false} FreshJoins(a: seq<Candidate>, b: seq<Candidate>, seen: set<Hash>)
    ensures Fresh(a + b, seen) == Fresh(a, seen) + Fresh(b, seen + Hashes(a))
  {
    if b == [] {
      assert a + b == a;
    } else {
      var earlier := b[..|b| - 1];
      FreshJoins(a, earlier, seen);
      HashesJoin(a, earlier);
      assert (a + b)[..|a + b| - 1] == a + earlier;
    }
  }

  ghost predicate DistinctHashes(cs: seq<Candidate>) {
    forall j, k :: 0 <= j < k < |cs| ==> cs[j].hash != cs[k].hash
  }

  /** What is returned has no hash twice and none of the seen, misses no new hash, and comes
      from the list. */
  lemma {:induction false} FreshIsOnce(cs: seq<Candidate>, seen: set<Hash>)
    ensures DistinctHashes(Fresh(cs, seen))
    ensures Hashes(Fresh(cs, seen)) == Hashes(cs) - seen
    ensures forall c :: c in Fresh(cs, seen) ==> c in cs
  {
    if cs != [] {
      var earlier, last := cs[..|cs| - 1], cs[|cs| - 1];
      var found := Fresh(earlier, seen);
      FreshIsOnce(earlier, seen);
      assert cs == earlier + [last];
      FreshStep(earlier, last, seen);
      HashesGrow(earlier, last);
      HashesGrow(found, last);
      assert found + [] == found;
      forall k | 0 <= k < |found| ensures found[k].hash in Hashes(earlier) { assert found[k] in found; }
    }
  }

  // ----- over many polls -----

  function Concat(feeds: seq<seq<Candidate>>): seq<Candidate> {
    if feeds == [] then [] else feeds[0] + Concat(feeds[1..])
  }

  /** What the polls return, one after another, concatenated. */
  function Outputs(feeds: seq<seq<Candidate>>, seen: set<Hash>): seq<Candidate> {
    if feeds == [] then [] else Fresh(feeds[0], seen) + Outputs(feeds[1..], seen + Hashes(feeds[0]))
  }

  /** Over any sequence of polls the outputs are the first occurrences, by hash, in all feeds
      taken together, each exactly once. */
  lemma {:induction false} PollsReturnFirstOccurrences(feeds: seq<seq<Candidate>>, seen: set<Hash>)
    ensures Outputs(feeds, seen) == Fresh(Concat(feeds), seen)
    ensures DistinctHashes(Outputs(feeds, seen)) && Hashes(Outputs(feeds, seen)) == Hashes(Concat(feeds)) - seen
  {
    if feeds != [] {
      PollsReturnFirstOccurrences(feeds[1..], seen + Hashes(feeds[0]));
      FreshJoins(feeds[0], Concat(feeds[1..]), seen);
    }
    FreshIsOnce(Concat(feeds), seen);
  }

  /** The entry carries the intent in one of the shapes a feed may use: its text, alone or under
      `intent`; its members under `intent`; or its members beside others in the record. */
  ghost predicate Carries(e: FeedEntry, w: Json.WireIntent) {
    match e
    case Quoted(json) => json == Json.SerializeIntent(w)
    case Record(Some(Text(json)), _) => json == Json.SerializeIntent(w)
    case Record(Some(Object(members)), _) => members == Json.Members(w)
    case Record(None, members) =>
      exists others :: members == Json.Members(w) + others && Json.Foreign(others)
                       && forall k :: 0 <= k < |others| ==> Json.PrintableMember(others[k])
    case _ => false
  }

  lemma CarriedIsRead(isAddress: string -> bool, e: FeedEntry, w: Json.WireIntent)
    requires forall s :: isAddress(s) ==> Json.All(Json.IsPlain, s)
    requires Json.ValidateIntent(isAddress, w) && w.deadline <= Json.MAX_SAFE_INTEGER && Carries(e, w)
    ensures TextOf(e).Some? && Json.DeserializeIntent(isAddress, TextOf(e).value) == Some(w)
  {
    Json.IntentRoundTrip(isAddress, w);
    if e.Record? && e.intent.None? {
      var others :| e.members == Json.Members(w) + others && Json.Foreign(others)
                    && forall k :: 0 <= k < |others| ==> Json.PrintableMember(others[k]);
      Json.ObjectReadsBack(isAddress, w, others);
    }
  }

  /** The intent has the wire intent's fields, each in its place. */
  predicate Reads(codec: Codec, w: Json.WireIntent, i: TraderIntent) {
    && codec.resolve(w.trader) == Some(i.trader)
    && codec.resolve(w.sellToken) == Some(i.sellToken)
    && codec.resolve(w.buyToken) == Some(i.buyToken)
    && i.sellAmount == w.sellAmount && i.minBuyAmount == w.minBuyAmount
    && i.maxSlippageBps == w.maxSlippageBps && i.solverFeeBps == w.solverFeeBps
    && i.deadline == w.deadline && i.nonce == w.nonce
  }

  /** A valid intent becomes the same candidate, field for field and under its own hash, from every
      shape of entry. */
  lemma EveryShapeKeepsTheHash(codec: Codec, e: FeedEntry, w: Json.WireIntent)
    requires forall s :: codec.resolve(s).Some? ==> Json.All(Json.IsPlain, s)
    requires Json.ValidateIntent(s => codec.resolve(s).Some?, w) && w.deadline <= Json.MAX_SAFE_INTEGER
    requires Carries(e, w)
    ensures ResolveIntent(codec, w).Some? && Reads(codec, w, ResolveIntent(codec, w).value)
    ensures var intent := ResolveIntent(codec, w).value;
            ParserOf(codec)(e)
            == if intent.Representable() then Some(Candidate(codec.sha(Xdr.EncodeIntent(intent)), intent, AuthOf(e)))
               else None
  {
    CarriedIsRead(s => codec.resolve(s).Some?, e, w);
  }

  /** What a candidate stands for, from whatever entry: a valid wire intent read field for field, the
      hash of its encoding, and the entry's authorization. */
  lemma CandidateIsRead(codec: Codec, e: FeedEntry)
    requires ParserOf(codec)(e).Some?
    ensures var c := ParserOf(codec)(e).value;
            && c.intent.Representable() && c.hash == codec.sha(Xdr.EncodeIntent(c.intent)) && c.traderAuth == AuthOf(e)
            && exists w :: Reads(codec, w, c.intent) && Json.ValidateIntent(s => codec.resolve(s).Some?, w)
                           && TextOf(e).Some?
                           && Json.DeserializeIntent(s => codec.resolve(s).Some?, TextOf(e).value) == Some(w)
  {
    var isAddress := (s: string) => codec.resolve(s).Some?;
    var w := Json.DeserializeIntent(s => codec.resolve(s).Some?, TextOf(e).value).value;
    assert Reads(codec, w, ParserOf(codec)(e).value.intent);
  }

  // ----- the feed -----

  /** A feed is read entry by entry, in order, and an unreadable entry adds nothing. */
  lemma {:induction false} FeedJoins(parse: Parser, a: seq<FeedEntry>, b: seq<FeedEntry>)
    ensures ParsedFeed(parse, a + b) == ParsedFeed(parse, a) + ParsedFeed(parse, b)
  {
    if b == [] {
      assert a + b == a;
    } else {
      FeedJoins(parse, a, b[..|b| - 1]);
      assert (a + b)[..|a + b| - 1] == a + b[..|b| - 1];
    }
  }

  lemma FeedOfOne(parse: Parser, e: FeedEntry)
    ensures ParsedFeed(parse, [e]) == if parse(e).Some? then [parse(e).value] else []
  {
    assert [e][..0] == [];
  }

  /** A payload of either shape yields its own entries, read in order with the unreadable ones left
      out; any other payload yields nothing. */
  lemma PayloadIsRead(parse: Parser, before: seq<FeedEntry>, e: FeedEntry, after: seq<FeedEntry>)
    ensures ParsedFeed(parse, ExtractEntries(ListOf(before + [e] + after)))
         == ParsedFeed(parse, before) + (if parse(e).Some? then [parse(e).value] else []) + ParsedFeed(parse, after)
    ensures ExtractEntries(IntentsOf(before + [e] + after)) == ExtractEntries(ListOf(before + [e] + after))
    ensures ParsedFeed(parse, ExtractEntries(ListOf([]))) == ParsedFeed(parse, ExtractEntries(IntentsOf([]))) == []
    ensures ParsedFeed(parse, ExtractEntries(Unusable)) == []
  {
    FeedJoins(parse, before + [e], after);
    FeedJoins(parse, before, [e]);
    FeedOfOne(parse, e);
  }

  /** The authorization is the string that the record has last under its name, and there is none
      without it, or when the last is no string. */
  lemma AuthorizationIsTheRecords(intent: Option<RawIntent>, before: seq<Json.Member>, m: Json.Member,
                                  after: seq<Json.Member>)
    requires forall k :: 0 <= k < |after| ==> after[k].name != "traderAuthEntry"
    ensures AuthOf(Record(intent, after)) == None
    ensures m.name == "traderAuthEntry" ==>
              AuthOf(Record(intent, before + [m] + after)) == if m.value.JString? then Some(m.value.s) else None
    ensures forall json :: AuthOf(Quoted(json)) == None
  {
    Json.LookupMisses(after, "traderAuthEntry");
    if m.name == "traderAuthEntry" {
      var ms := before + [m] + after;
      assert ms[|before|] == m;
      forall n | |before| < n < |ms| ensures ms[n].name != m.name { assert ms[n] == after[n - |before| - 1]; }
      Json.LookupFinds(ms, |before|);
    }
  }

  /** The SDK's validation of an intent whose addresses resolve: sound terms for the router, two
      different tokens, a deadline and a nonce. */
  lemma ValidIsSound(codec: Codec, w: Json.WireIntent, i: TraderIntent)
    requires Reads(codec, w, i)
    ensures Json.ValidateIntent(s => codec.resolve(s).Some?, w)
       <==> SoundTerms(i) && w.sellToken != w.buyToken && 0 < i.deadline && 0 <= i.nonce
  {
  }
}
