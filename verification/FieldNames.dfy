/** The names under which an intent's fields travel: the SDK's JSON properties and the contract's map
    keys are the same names in camel and in snake case, each over the same value. */
module FieldNames {
  import opened Protocol
  import opened Watcher
  import Json
  import Xdr

  predicate IsUpper(c: char) { 'A' <= c <= 'Z' }

  function Lower(c: char): char
    requires IsUpper(c)
  {
    (c as int - 'A' as int + 'a' as int) as char
  }

  /** `camelCase` as `camel_case`. */
  function Snake(s: string): string {
    if s == "" then ""
    else (if IsUpper(s[0]) then ['_', Lower(s[0])] else [s[0]]) + Snake(s[1..])
  }

  lemma {:induction false} SnakeJoins(a: string, b: string)
    ensures Snake(a + b) == Snake(a) + Snake(b)
  {
    if a == "" {
      assert a + b == b;
    } else {
      SnakeJoins(a[1..], b);
      assert (a + b)[0] == a[0] && (a + b)[1..] == a[1..] + b;
      Regroup(if IsUpper(a[0]) then ['_', Lower(a[0])] else [a[0]], Snake(a[1..]), Snake(b));
    }
  }

  lemma {:induction false} SnakeKeeps(s: string)
    requires NoUpper(s)
    ensures Snake(s) == s
  {
    if s != "" {
      SnakeKeeps(s[1..]);
      assert s == [s[0]] + s[1..];
    }
  }

  predicate NoUpper(s: string) { forall k :: 0 <= k < |s| ==> !IsUpper(s[k]) }

  /** One capitalized word after another. */
  lemma SnakeWord(head: string, capital: char, rest: string)
    requires IsUpper(capital) && NoUpper(head)
    ensures Snake(head + [capital] + rest) == head + ['_', Lower(capital)] + Snake(rest)
  {
    SnakeJoins(head + [capital], rest);
    SnakeJoins(head, [capital]);
    SnakeKeeps(head);
    assert [capital][1..] == "" && Snake([capital]) == ['_', Lower(capital)];
  }

  lemma TwoWords(first: string, c: char, second: string, name: string, key: string)
    requires IsUpper(c) && NoUpper(first) && NoUpper(second)
    requires name == first + [c] + second && key == first + ['_', Lower(c)] + second
    ensures Snake(name) == key
  {
    SnakeWord(first, c, second);
    SnakeKeeps(second);
  }

  lemma ThreeWords(first: string, c: char, second: string, d: char, third: string, name: string, key: string)
    requires IsUpper(c) && IsUpper(d) && NoUpper(first) && NoUpper(second) && NoUpper(third)
    requires name == first + [c] + (second + [d] + third)
    requires key == first + ['_', Lower(c)] + (second + ['_', Lower(d)] + third)
    ensures Snake(name) == key
  {
    SnakeWord(first, c, second + [d] + third);
    SnakeWord(second, d, third);
    SnakeKeeps(third);
  }

  /** The map key of each JSON property. */
  function KeyOf(f: Json.Field): Xdr.Field {
    match f
    case Trader => Xdr.Trader
    case SellToken => Xdr.SellToken
    case BuyToken => Xdr.BuyToken
    case SellAmount => Xdr.SellAmount
    case MinBuyAmount => Xdr.MinBuyAmount
    case MaxSlippageBps => Xdr.MaxSlippageBps
    case Deadline => Xdr.Deadline
    case Nonce => Xdr.Nonce
    case SolverFeeBps => Xdr.SolverFeeBps
  }

  lemma SellTokenKey(name: string, key: string)
    requires name == "sellToken" && key == "sell_token"
    ensures Snake(name) == key
  {
    TwoWords("sell", 'T', "oken", name, key);
  }

  lemma BuyTokenKey(name: string, key: string)
    requires name == "buyToken" && key == "buy_token"
    ensures Snake(name) == key
  {
    TwoWords("buy", 'T', "oken", name, key);
  }

  lemma SellAmountKey(name: string, key: string)
    requires name == "sellAmount" && key == "sell_amount"
    ensures Snake(name) == key
  {
    TwoWords("sell", 'A', "mount", name, key);
  }

  lemma MinBuyAmountKey(name: string, key: string)
    requires name == "minBuyAmount" && key == "min_buy_amount"
    ensures Snake(name) == key
  {
    ThreeWords("min", 'B', "uy", 'A', "mount", name, key);
  }

  lemma MaxSlippageBpsKey(name: string, key: string)
    requires name == "maxSlippageBps" && key == "max_slippage_bps"
    ensures Snake(name) == key
  {
    ThreeWords("max", 'S', "lippage", 'B', "ps", name, key);
  }

  lemma SolverFeeBpsKey(name: string, key: string)
    requires name == "solverFeeBps" && key == "solver_fee_bps"
    ensures Snake(name) == key
  {
    ThreeWords("solver", 'F', "ee", 'B', "ps", name, key);
  }

  lemma KeysAreSnakeCase(f: Json.Field)
    ensures Xdr.NameOf(KeyOf(f)) == Snake(Json.NameOf(f))
  {
    var name, key := Json.NameOf(f), Xdr.NameOf(KeyOf(f));
    match f
    case Trader => SnakeKeeps(name);
    case Deadline => SnakeKeeps(name);
    case Nonce => SnakeKeeps(name);
    case SellToken => SellTokenKey(name, key);
    case BuyToken => BuyTokenKey(name, key);
    case SellAmount => SellAmountKey(name, key);
    case MinBuyAmount => MinBuyAmountKey(name, key);
    case MaxSlippageBps => MaxSlippageBpsKey(name, key);
    case SolverFeeBps => SolverFeeBpsKey(name, key);
  }

  /** The contract's value and the SDK's JSON value are the same. */
  predicate SameValue(codec: Codec, json: Json.Value, v: Xdr.ScVal) {
    match v
    case ScAddress(a) => json.JString? && codec.resolve(json.s) == Some(a)
    case ScSymbol(_) => false
    case ScU32(n) => Json.ToInteger(Some(json)) == Some(n)
    case ScU64(n) => Json.ToInteger(Some(json)) == Some(n)
    case ScI128(n) => Json.ToInteger(Some(json)) == Some(n)
  }

  /** The contract's declared type of a field. */
  predicate HasDeclaredType(f: Json.Field, v: Xdr.ScVal) {
    match f
    case Trader => v.ScAddress?
    case SellToken => v.ScAddress?
    case BuyToken => v.ScAddress?
    case SellAmount => v.ScI128?
    case MinBuyAmount => v.ScI128?
    case MaxSlippageBps => v.ScU32?
    case Deadline => v.ScU64?
    case Nonce => v.ScU64?
    case SolverFeeBps => v.ScU32?
  }

  lemma ValueIsSame(codec: Codec, w: Json.WireIntent, i: TraderIntent, f: Json.Field)
    requires Reads(codec, w, i)
    ensures HasDeclaredType(f, Xdr.ValueOf(i, KeyOf(f)))
    ensures SameValue(codec, Json.ValueOf(w, f), Xdr.ValueOf(i, KeyOf(f)))
  {
    match f
    case SellAmount => Json.IntRoundTrip(w.sellAmount);
    case MinBuyAmount => Json.IntRoundTrip(w.minBuyAmount);
    case Nonce => Json.IntRoundTrip(w.nonce);
    case _ =>
  }

  lemma PositionOf(f: Xdr.Field)
    ensures exists k :: 0 <= k < 9 && Xdr.FIELD_ORDER[k] == f
  {
    var k := match f
      case BuyToken => 0
      case Deadline => 1
      case MaxSlippageBps => 2
      case MinBuyAmount => 3
      case Nonce => 4
      case SellAmount => 5
      case SellToken => 6
      case SolverFeeBps => 7
      case Trader => 8;
    assert Xdr.FIELD_ORDER[k] == f;
  }

  predicate IsHashedAs(codec: Codec, w: Json.WireIntent, f: Json.Field, e: Xdr.ScMapEntry) {
    && e.key == Xdr.ScSymbol(Snake(Json.NameOf(f)))
    && HasDeclaredType(f, e.val)
    && SameValue(codec, Json.ValueOf(w, f), e.val)
  }

  /** Each JSON property of an intent is in the map that is hashed, under its name in snake case, in
      its declared type and with its value. */
  lemma EveryPropertyIsHashed(codec: Codec, w: Json.WireIntent, i: TraderIntent, f: Json.Field)
    requires Reads(codec, w, i)
    ensures exists k :: 0 <= k < |Xdr.IntentToScMap(i)| && IsHashedAs(codec, w, f, Xdr.IntentToScMap(i)[k])
  {
    KeysAreSnakeCase(f);
    ValueIsSame(codec, w, i, f);
    PositionOf(KeyOf(f));
    var k :| 0 <= k < 9 && Xdr.FIELD_ORDER[k] == KeyOf(f);
    assert IsHashedAs(codec, w, f, Xdr.EntryOf(i, KeyOf(f)));
    assert Xdr.IntentToScMap(i)[k] == Xdr.EntryOf(i, KeyOf(f));
  }
}
