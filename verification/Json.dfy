/** Intents as JSON text (RFC 8259): flat objects of strings and integers, printed as
    `JSON.stringify` prints them and parsed back with the SDK's coercions and validation. */
module Json {
  import opened Protocol

  const MAX_SAFE_INTEGER := 0x1f_ffff_ffff_ffff

  /** An intent as the SDK holds it, with addresses in their text form. */
  datatype WireIntent = WireIntent(
    trader: string,
    sellToken: string,
    buyToken: string,
    sellAmount: int,
    minBuyAmount: int,
    maxSlippageBps: int,
    deadline: int,
    nonce: int,
    solverFeeBps: int)

  datatype Value = JString(s: string) | JNumber(n: int)
  datatype Member = Member(name: string, value: Value)

  type Parsed<T> = Option<(T, string)>

  // ----- characters -----

  predicate IsDigit(c: char) { '0' <= c <= '9' }

  /** A character that stands for itself inside a JSON string. */
  predicate IsPlain(c: char) { ' ' <= c && c != '"' && c != '\\' }

  predicate All(p: char -> bool, s: string) { forall k :: 0 <= k < |s| ==> p(s[k]) }

  /** The length of the longest prefix whose characters satisfy `p`. */
  function RunLength(p: char -> bool, s: string): (n: nat)
    ensures n <= |s|
  {
    if s != [] && p(s[0]) then 1 + RunLength(p, s[1..]) else 0
  }

  lemma {:induction false} RunStops(p: char -> bool, s: string, rest: string)
    requires All(p, s) && (rest == [] || !p(rest[0]))
    ensures RunLength(p, s + rest) == |s|
    ensures (s + rest)[..|s|] == s && (s + rest)[|s|..] == rest
  {
    if s == [] {
      assert s + rest == rest;
    } else {
      RunStops(p, s[1..], rest);
      assert (s + rest)[1..] == s[1..] + rest;
    }
  }

  // ----- integers in decimal -----

  function PrintNat(n: nat): string {
    if n < 10 then [DigitChar(n)] else PrintNat(n / 10) + [DigitChar(n % 10)]
  }

  function DigitChar(d: nat): char
    requires d < 10
  {
    ('0' as int + d) as char
  }

  function PrintInt(n: int): string {
    if n < 0 then "-" + PrintNat(-n) else PrintNat(n)
  }

  function NatOf(digits: string): nat
    requires All(IsDigit, digits)
  {
    if digits == [] then 0
    else 10 * NatOf(digits[..|digits| - 1]) + (digits[|digits| - 1] as int - '0' as int)
  }

  lemma {:induction false} NatRoundTrip(n: nat)
    ensures All(IsDigit, PrintNat(n)) && PrintNat(n) != [] && NatOf(PrintNat(n)) == n
    ensures PrintNat(n)[0] == '0' ==> n == 0 && |PrintNat(n)| == 1
  {
    if n >= 10 {
      NatRoundTrip(n / 10);
      assert PrintNat(n)[..|PrintNat(n)| - 1] == PrintNat(n / 10);
    } else {
      assert PrintNat(n)[..0] == [];
    }
  }

  /** A whole string read as an integer, as `BigInt` and `Number` read decimal digits: an
      empty string is zero. */
  function IntOf(s: string): Option<int> {
    if s != [] && s[0] == '-' then
      if s[1..] != [] && All(IsDigit, s[1..]) then
        var magnitude: int := NatOf(s[1..]);
        Some(-magnitude)
      else None
    else if All(IsDigit, s) then Some(NatOf(s)) else None
  }

  /** What counts as an integer in text: digits, none of them being zero, or a minus sign before at
      least one; and nothing else. */
  lemma IntegersInText(s: string)
    ensures All(IsDigit, s) ==> IntOf(s) == Some(NatOf(s))
    ensures !All(IsDigit, s) && s[0] != '-' ==> IntOf(s) == None
  {
  }

  lemma NegativesInText(s: string, digits: string)
    requires s != [] && s[0] == '-' && s[1..] == digits
    ensures IntOf(s) == if digits == [] || !All(IsDigit, digits) then None else Some(0 - NatOf(digits))
  {
  }

  lemma DigitsAreDecimal(s: string, c: char)
    requires All(IsDigit, s) && IsDigit(c)
    ensures NatOf("") == 0
    ensures All(IsDigit, s + [c]) && NatOf(s + [c]) == 10 * NatOf(s) + (c as int - '0' as int)
  {
    assert (s + [c])[..|s|] == s;
  }

  lemma IntRoundTrip(n: int)
    ensures IntOf(PrintInt(n)) == Some(n)
  {
    NatRoundTrip(if n < 0 then -n else n);
    if n < 0 { assert PrintInt(n)[1..] == PrintNat(-n); }
  }

  // ----- values -----

  function PrintValue(v: Value): string {
    match v
    case JString(s) => "\"" + s + "\""
    case JNumber(n) => PrintInt(n)
  }

  /** Strings without escapes, numbers that a double holds exactly. */
  predicate Printable(v: Value) {
    match v
    case JString(s) => All(IsPlain, s)
    case JNumber(n) => -MAX_SAFE_INTEGER <= n <= MAX_SAFE_INTEGER
  }

  function ParseString(s: string): (r: Parsed<string>)
    ensures r.Some? ==> |r.value.1| < |s|
  {
    if s == [] || s[0] != '"' then None
    else
      var n := RunLength(IsPlain, s[1..]);
      var rest := s[1..][n..];
      if rest == [] || rest[0] != '"' then None else Some((s[1..][..n], rest[1..]))
  }

  function ParseNatural(s: string): (r: Parsed<nat>)
    ensures r.Some? ==> |r.value.1| < |s|
  {
    var n := RunLength(IsDigit, s);
    RunIsAll(IsDigit, s);
    if n == 0 || (s[0] == '0' && n > 1) then None else Some((NatOf(s[..n]), s[n..]))
  }

  lemma RunIsAll(p: char -> bool, s: string)
    ensures All(p, s[..RunLength(p, s)])
  {
    if s != [] && p(s[0]) { RunIsAll(p, s[1..]); }
  }

  function ParseNumber(s: string): (r: Parsed<int>)
    ensures r.Some? ==> |r.value.1| < |s|
  {
    var r := if s != [] && s[0] == '-' then ParseNatural(s[1..]) else ParseNatural(s);
    if r.None? || r.value.0 > MAX_SAFE_INTEGER then None
    else Some((if s[0] == '-' then -r.value.0 else r.value.0, r.value.1))
  }

  function ParseValue(s: string): (r: Parsed<Value>)
    ensures r.Some? ==> |r.value.1| < |s|
  {
    if s != [] && s[0] == '"' then
      var (text, rest) :- ParseString(s);
      Some((JString(text), rest))
    else
      var (n, rest) :- ParseNumber(s);
      Some((JNumber(n), rest))
  }

  lemma StringRoundTrip(s: string, rest: string)
    requires All(IsPlain, s)
    ensures ParseString("\"" + s + "\"" + rest) == Some((s, rest))
  {
    RunStops(IsPlain, s, "\"" + rest);
    assert ("\"" + s + "\"" + rest)[1..] == s + ("\"" + rest);
  }

  lemma NaturalRoundTrip(n: nat, rest: string)
    requires rest == [] || !IsDigit(rest[0])
    ensures ParseNatural(PrintNat(n) + rest) == Some((n, rest))
  {
    NatRoundTrip(n);
    RunStops(IsDigit, PrintNat(n), rest);
  }

  lemma Headed(c: char, s: string, rest: string)
    ensures [c] + s + rest != [] && ([c] + s + rest)[0] == c && ([c] + s + rest)[1..] == s + rest
  {
  }

  lemma FirstDigit(n: nat, rest: string)
    ensures PrintNat(n) + rest != [] && IsDigit((PrintNat(n) + rest)[0])
  {
    NatRoundTrip(n);
  }

  lemma NumberRoundTrip(n: int, rest: string)
    requires Printable(JNumber(n)) && (rest == [] || !IsDigit(rest[0]))
    ensures ParseNumber(PrintInt(n) + rest) == Some((n, rest))
    ensures PrintInt(n) + rest != [] && (PrintInt(n) + rest)[0] != '"'
  {
    if n < 0 {
      Headed('-', PrintNat(-n), rest);
      NaturalRoundTrip(-n, rest);
    } else {
      FirstDigit(n, rest);
      NaturalRoundTrip(n, rest);
    }
  }

  lemma ValueRoundTrip(v: Value, rest: string)
    requires Printable(v) && rest != [] && !IsDigit(rest[0])
    ensures ParseValue(PrintValue(v) + rest) == Some((v, rest))
  {
    match v
    case JString(s) => StringRoundTrip(s, rest);
    case JNumber(n) => NumberRoundTrip(n, rest);
  }

  // ----- nothing but printed values is read -----

  lemma {:induction false} DigitsCanonical(s: string)
    requires All(IsDigit, s) && s != [] && (s[0] == '0' ==> |s| == 1)
    ensures PrintNat(NatOf(s)) == s && (|s| > 1 ==> NatOf(s) >= 10)
  {
    var front, last := s[..|s| - 1], s[|s| - 1];
    assert s == front + [last];
    if front == [] {
      assert NatOf(front) == 0 && DigitChar(last as int - '0' as int) == last;
    } else {
      DigitsCanonical(front);
      FirstDigitCounts(front);
    }
  }

  lemma {:induction false} FirstDigitCounts(s: string)
    requires All(IsDigit, s) && s != [] && s[0] != '0'
    ensures NatOf(s) >= 1
  {
    if |s| > 1 { FirstDigitCounts(s[..|s| - 1]); } else { assert s[..0] == []; }
  }

  lemma NaturalCanonical(s: string)
    requires ParseNatural(s).Some?
    ensures var (n, rest) := ParseNatural(s).value; s == PrintNat(n) + rest
  {
    var n := RunLength(IsDigit, s);
    RunIsAll(IsDigit, s);
    DigitsCanonical(s[..n]);
    assert s == s[..n] + s[n..];
  }

  lemma StringCanonical(s: string)
    requires ParseString(s).Some?
    ensures var (text, rest) := ParseString(s).value; s == "\"" + text + "\"" + rest && All(IsPlain, text)
  {
    var n := RunLength(IsPlain, s[1..]);
    RunIsAll(IsPlain, s[1..]);
    var after := s[1..][n..];
    assert s == [s[0]] + s[1..] && s[1..] == s[1..][..n] + after && after == [after[0]] + after[1..];
  }

  lemma NumberCanonical(s: string)
    requires ParseNumber(s).Some?
    ensures var (n, rest) := ParseNumber(s).value;
            Printable(JNumber(n)) && (s == PrintInt(n) + rest || (n == 0 && s == "-0" + rest))
  {
    if s[0] == '-' {
      NaturalCanonical(s[1..]);
      assert s == ['-'] + s[1..];
      assert PrintNat(0) == "0" && "-0" == "-" + "0";
    } else {
      NaturalCanonical(s);
    }
  }

  /** Only the printed form of a value is read as it, apart from the minus sign of a zero: no leading
      zeros, no number a double rounds, nothing between the quotes that needs an escape. */
  lemma ValueCanonical(s: string)
    requires ParseValue(s).Some?
    ensures var (v, rest) := ParseValue(s).value;
            Printable(v) && (s == PrintValue(v) + rest || (v == JNumber(0) && s == "-0" + rest))
  {
    if s != [] && s[0] == '"' { StringCanonical(s); } else { NumberCanonical(s); }
  }

  // ----- objects -----

  function PrintMember(m: Member): string {
    "\"" + m.name + "\"" + (":" + PrintValue(m.value))
  }

  function PrintMembers(ms: seq<Member>): string
    requires ms != []
  {
    PrintMember(ms[0]) + if |ms| == 1 then "}" else "," + PrintMembers(ms[1..])
  }

  function PrintObject(ms: seq<Member>): string {
    "{" + if ms == [] then "}" else PrintMembers(ms)
  }

  function ParseMember(s: string): (r: Parsed<Member>)
    ensures r.Some? ==> |r.value.1| < |s|
  {
    var (name, s1) :- ParseString(s);
    if s1 == [] || s1[0] != ':' then None
    else
      var (value, rest) :- ParseValue(s1[1..]);
      Some((Member(name, value), rest))
  }

  /** One or more members up to the closing brace, which must end the text. */
  function ParseMembers(s: string): Option<seq<Member>>
    decreases |s|
  {
    var (m, rest) :- ParseMember(s);
    if rest == "}" then Some([m])
    else if rest != [] && rest[0] == ',' then
      var others :- ParseMembers(rest[1..]);
      Some([m] + others)
    else None
  }

  function ParseObject(s: string): Option<seq<Member>> {
    if s == "{}" then Some([])
    else if s != [] && s[0] == '{' then ParseMembers(s[1..])
    else None
  }

  predicate PrintableMember(m: Member) { All(IsPlain, m.name) && Printable(m.value) }

  lemma NameAndValue(name: string, value: string, rest: string)
    ensures "\"" + name + "\"" + (":" + value) + rest == "\"" + name + "\"" + (":" + (value + rest))
    ensures (":" + (value + rest))[0] == ':' && (":" + (value + rest))[1..] == value + rest
  {
  }

  lemma MemberRoundTrip(m: Member, rest: string)
    requires PrintableMember(m) && rest != [] && !IsDigit(rest[0])
    ensures ParseMember(PrintMember(m) + rest) == Some((m, rest))
  {
    var value := PrintValue(m.value);
    NameAndValue(m.name, value, rest);
    StringRoundTrip(m.name, ":" + (value + rest));
    ValueRoundTrip(m.value, rest);
  }

  lemma {:induction false} MembersRoundTrip(ms: seq<Member>)
    requires ms != [] && forall k :: 0 <= k < |ms| ==> PrintableMember(ms[k])
    ensures ParseMembers(PrintMembers(ms)) == Some(ms)
  {
    if |ms| == 1 {
      MemberRoundTrip(ms[0], "}");
      assert ms == [ms[0]];
    } else {
      MembersRoundTrip(ms[1..]);
      MoreMembers(ms[0], ms[1..]);
      assert ms == [ms[0]] + ms[1..];
    }
  }

  lemma MoreMembers(m: Member, others: seq<Member>)
    requires PrintableMember(m) && others != [] && ParseMembers(PrintMembers(others)) == Some(others)
    ensures ParseMembers(PrintMember(m) + ("," + PrintMembers(others))) == Some([m] + others)
  {
    var rest := "," + PrintMembers(others);
    Headed(',', PrintMembers(others), []);
    assert "," + PrintMembers(others) + [] == rest && PrintMembers(others) + [] == PrintMembers(others);
    MemberRoundTrip(m, rest);
  }

  /** Every flat object of printable members comes back from its text. */
  lemma ObjectRoundTrip(ms: seq<Member>)
    requires forall k :: 0 <= k < |ms| ==> PrintableMember(ms[k])
    ensures ParseObject(PrintObject(ms)) == Some(ms)
  {
    if ms != [] {
      MembersRoundTrip(ms);
      assert PrintObject(ms)[1..] == PrintMembers(ms);
      assert PrintMembers(ms)[0] == '"';
    }
  }

  /** A repeated name means its last value. */
  function Lookup(ms: seq<Member>, name: string): Option<Value> {
    if ms == [] then None
    else if ms[|ms| - 1].name == name then Some(ms[|ms| - 1].value)
    else Lookup(ms[..|ms| - 1], name)
  }

  lemma {:induction false} LookupFinds(ms: seq<Member>, k: nat)
    requires k < |ms| && forall n :: k < n < |ms| ==> ms[n].name != ms[k].name
    ensures Lookup(ms, ms[k].name) == Some(ms[k].value)
  {
    if k < |ms| - 1 { LookupFinds(ms[..|ms| - 1], k); }
  }

  lemma {:induction false} LookupMisses(ms: seq<Member>, name: string)
    requires forall k :: 0 <= k < |ms| ==> ms[k].name != name
    ensures Lookup(ms, name) == None
  {
    if ms != [] { LookupMisses(ms[..|ms| - 1], name); }
  }

  // ----- intents -----

  datatype Field =
    | Trader | SellToken | BuyToken | SellAmount | MinBuyAmount | MaxSlippageBps | Deadline | Nonce | SolverFeeBps

  /** The order in which an intent's properties are created. */
  const PROPERTY_ORDER: seq<Field> :=
    [Trader, SellToken, BuyToken, SellAmount, MinBuyAmount, MaxSlippageBps, Deadline, Nonce, SolverFeeBps]

  function NameOf(f: Field): string {
    match f
    case Trader => "trader"
    case SellToken => "sellToken"
    case BuyToken => "buyToken"
    case SellAmount => "sellAmount"
    case MinBuyAmount => "minBuyAmount"
    case MaxSlippageBps => "maxSlippageBps"
    case Deadline => "deadline"
    case Nonce => "nonce"
    case SolverFeeBps => "solverFeeBps"
  }

  /** Big integers travel as strings, plain numbers as numbers. */
  function ValueOf(i: WireIntent, f: Field): Value {
    match f
    case Trader => JString(i.trader)
    case SellToken => JString(i.sellToken)
    case BuyToken => JString(i.buyToken)
    case SellAmount => JString(PrintInt(i.sellAmount))
    case MinBuyAmount => JString(PrintInt(i.minBuyAmount))
    case MaxSlippageBps => JNumber(i.maxSlippageBps)
    case Deadline => JNumber(i.deadline)
    case Nonce => JString(PrintInt(i.nonce))
    case SolverFeeBps => JNumber(i.solverFeeBps)
  }

  function Members(i: WireIntent): seq<Member> {
    seq(|PROPERTY_ORDER|,
        k requires 0 <= k < |PROPERTY_ORDER| => Member(NameOf(PROPERTY_ORDER[k]), ValueOf(i, PROPERTY_ORDER[k])))
  }

  function SerializeIntent(i: WireIntent): string { PrintObject(Members(i)) }

  /** `String(value)`, with `undefined` for a missing property. */
  function ToText(v: Option<Value>): string {
    match v
    case None => "undefined"
    case Some(JString(s)) => s
    case Some(JNumber(n)) => PrintInt(n)
  }

  /** `BigInt(value)` or `Number(value)`, none when the one throws or the other is not a number. */
  function ToInteger(v: Option<Value>): Option<int> {
    match v
    case None => None
    case Some(JString(s)) => IntOf(s)
    case Some(JNumber(n)) => Some(n)
  }

  predicate ValidateIntent(isAddress: string -> bool, i: WireIntent) {
    && isAddress(i.trader) && isAddress(i.sellToken) && isAddress(i.buyToken)
    && i.sellToken != i.buyToken
    && 0 < i.sellAmount && 0 < i.minBuyAmount
    && 0 <= i.maxSlippageBps <= BPS_DENOMINATOR && 0 <= i.solverFeeBps <= BPS_DENOMINATOR
    && 0 < i.deadline && 0 <= i.nonce
  }

  /** An intent from the value of each field. */
  function Assemble(value: Field -> Option<Value>): Option<WireIntent> {
    var sellAmount :- ToInteger(value(SellAmount));
    var minBuyAmount :- ToInteger(value(MinBuyAmount));
    var maxSlippageBps :- ToInteger(value(MaxSlippageBps));
    var deadline :- ToInteger(value(Deadline));
    var nonce :- ToInteger(value(Nonce));
    var solverFeeBps :- ToInteger(value(SolverFeeBps));
    Some(WireIntent(ToText(value(Trader)), ToText(value(SellToken)), ToText(value(BuyToken)),
                    sellAmount, minBuyAmount, maxSlippageBps, deadline, nonce, solverFeeBps))
  }

  function CoerceIntent(ms: seq<Member>): Option<WireIntent> {
    Assemble(f => Lookup(ms, NameOf(f)))
  }

  /** The intent in a text, or none where the SDK throws.  Whatever it returns is valid. */
  function DeserializeIntent(isAddress: string -> bool, json: string): (r: Option<WireIntent>)
    ensures r.Some? ==> ValidateIntent(isAddress, r.value)
  {
    var ms :- ParseObject(json);
    var i :- CoerceIntent(ms);
    if ValidateIntent(isAddress, i) then Some(i) else None
  }

  lemma NamesDiffer(f: Field, g: Field)
    requires f != g
    ensures NameOf(f) != NameOf(g)
  {
    if |NameOf(f)| == |NameOf(g)| { assert NameOf(f)[0] != NameOf(g)[0]; }
  }

  lemma NamesArePlain(f: Field)
    ensures All(IsPlain, NameOf(f))
  {
  }

  /** Members that are none of an intent's own. */
  ghost predicate Foreign(others: seq<Member>) {
    forall n, f :: 0 <= n < |others| ==> others[n].name != NameOf(f)
  }

  lemma FieldFound(i: WireIntent, others: seq<Member>, f: Field, k: nat)
    requires k < |PROPERTY_ORDER| && PROPERTY_ORDER[k] == f && Foreign(others)
    ensures Lookup(Members(i) + others, NameOf(f)) == Some(ValueOf(i, f))
  {
    var ms := Members(i) + others;
    forall n | k < n < |ms| ensures ms[n].name != ms[k].name {
      if n < |PROPERTY_ORDER| {
        NamesDiffer(PROPERTY_ORDER[n], PROPERTY_ORDER[k]);
      } else {
        assert ms[n] == others[n - |PROPERTY_ORDER|];
      }
    }
    LookupFinds(ms, k);
  }

  lemma EveryFieldFound(i: WireIntent, others: seq<Member>)
    requires Foreign(others)
    ensures forall f :: Lookup(Members(i) + others, NameOf(f)) == Some(ValueOf(i, f))
  {
    forall f ensures Lookup(Members(i) + others, NameOf(f)) == Some(ValueOf(i, f)) {
      var k := match f
        case Trader => 0
        case SellToken => 1
        case BuyToken => 2
        case SellAmount => 3
        case MinBuyAmount => 4
        case MaxSlippageBps => 5
        case Deadline => 6
        case Nonce => 7
        case SolverFeeBps => 8;
      FieldFound(i, others, f, k);
    }
  }

  lemma BigIntegerReadsBack(n: int)
    ensures ToInteger(Some(JString(PrintInt(n)))) == Some(n)
  {
    IntRoundTrip(n);
  }

  /** The values read as the fields of the intent. */
  predicate CoercesTo(value: Field -> Option<Value>, i: WireIntent) {
    && ToText(value(Trader)) == i.trader
    && ToText(value(SellToken)) == i.sellToken
    && ToText(value(BuyToken)) == i.buyToken
    && ToInteger(value(SellAmount)) == Some(i.sellAmount)
    && ToInteger(value(MinBuyAmount)) == Some(i.minBuyAmount)
    && ToInteger(value(MaxSlippageBps)) == Some(i.maxSlippageBps)
    && ToInteger(value(Deadline)) == Some(i.deadline)
    && ToInteger(value(Nonce)) == Some(i.nonce)
    && ToInteger(value(SolverFeeBps)) == Some(i.solverFeeBps)
  }

  lemma AssemblesExactly(value: Field -> Option<Value>, i: WireIntent)
    ensures Assemble(value) == Some(i) <==> CoercesTo(value, i)
  {
  }

  lemma AddressesCoerce(i: WireIntent, value: Field -> Option<Value>)
    requires forall f :: value(f) == Some(ValueOf(i, f))
    ensures ToText(value(Trader)) == i.trader
    ensures ToText(value(SellToken)) == i.sellToken && ToText(value(BuyToken)) == i.buyToken
  {
  }

  lemma NumbersCoerce(i: WireIntent, value: Field -> Option<Value>)
    requires forall f :: value(f) == Some(ValueOf(i, f))
    ensures ToInteger(value(MaxSlippageBps)) == Some(i.maxSlippageBps)
    ensures ToInteger(value(Deadline)) == Some(i.deadline) && ToInteger(value(SolverFeeBps)) == Some(i.solverFeeBps)
  {
  }

  lemma BigIntegersCoerce(i: WireIntent, value: Field -> Option<Value>)
    requires forall f :: value(f) == Some(ValueOf(i, f))
    ensures ToInteger(value(SellAmount)) == Some(i.sellAmount)
    ensures ToInteger(value(MinBuyAmount)) == Some(i.minBuyAmount) && ToInteger(value(Nonce)) == Some(i.nonce)
  {
    BigIntegerReadsBack(i.sellAmount);
    BigIntegerReadsBack(i.minBuyAmount);
    BigIntegerReadsBack(i.nonce);
  }

  lemma ValuesCoerce(i: WireIntent, value: Field -> Option<Value>)
    requires forall f :: value(f) == Some(ValueOf(i, f))
    ensures CoercesTo(value, i)
  {
    AddressesCoerce(i, value);
    NumbersCoerce(i, value);
    BigIntegersCoerce(i, value);
  }

  lemma AssemblesBack(i: WireIntent, value: Field -> Option<Value>)
    requires forall f :: value(f) == Some(ValueOf(i, f))
    ensures Assemble(value) == Some(i)
  {
    ValuesCoerce(i, value);
    AssemblesExactly(value, i);
  }

  lemma MembersCoerceBack(i: WireIntent, others: seq<Member>)
    requires Foreign(others)
    ensures CoerceIntent(Members(i) + others) == Some(i)
  {
    EveryFieldFound(i, others);
    AssemblesBack(i, f => Lookup(Members(i) + others, NameOf(f)));
  }

  lemma IntIsPlain(n: int)
    ensures All(IsPlain, PrintInt(n))
  {
    NatRoundTrip(if n < 0 then -n else n);
    var digits := PrintNat(if n < 0 then -n else n);
    assert forall k :: 0 <= k < |digits| ==> IsDigit(digits[k]);
  }

  lemma MembersArePrintable(isAddress: string -> bool, i: WireIntent)
    requires forall s :: isAddress(s) ==> All(IsPlain, s)
    requires ValidateIntent(isAddress, i) && i.deadline <= MAX_SAFE_INTEGER
    ensures forall k :: 0 <= k < |Members(i)| ==> PrintableMember(Members(i)[k])
  {
    IntIsPlain(i.sellAmount);
    IntIsPlain(i.minBuyAmount);
    IntIsPlain(i.nonce);
    var ms := Members(i);
    forall k | 0 <= k < |ms| ensures PrintableMember(ms[k]) {
      NamesArePlain(PROPERTY_ORDER[k]);
      assert Printable(ValueOf(i, PROPERTY_ORDER[k]));
    }
  }

  /** A valid intent is read back from an object with other members beside its own. */
  lemma ObjectReadsBack(isAddress: string -> bool, i: WireIntent, others: seq<Member>)
    requires forall s :: isAddress(s) ==> All(IsPlain, s)
    requires ValidateIntent(isAddress, i) && i.deadline <= MAX_SAFE_INTEGER
    requires Foreign(others) && forall k :: 0 <= k < |others| ==> PrintableMember(others[k])
    ensures DeserializeIntent(isAddress, PrintObject(Members(i) + others)) == Some(i)
  {
    MembersArePrintable(isAddress, i);
    ObjectRoundTrip(Members(i) + others);
    MembersCoerceBack(i, others);
  }

  /** A valid intent whose deadline a double holds exactly survives its JSON text. */
  lemma IntentRoundTrip(isAddress: string -> bool, i: WireIntent)
    requires forall s :: isAddress(s) ==> All(IsPlain, s)
    requires ValidateIntent(isAddress, i) && i.deadline <= MAX_SAFE_INTEGER
    ensures DeserializeIntent(isAddress, SerializeIntent(i)) == Some(i)
  {
    ObjectReadsBack(isAddress, i, []);
    assert Members(i) + [] == Members(i);
  }

  /** What the SDK reads from the members of an object, name by name: each address as text, each amount
      as an integer, and nothing when one of the integers is missing or is none. */
  lemma CoercesExactly(ms: seq<Member>, i: WireIntent)
    ensures CoerceIntent(ms) == Some(i)
       <==> && ToText(Lookup(ms, "trader")) == i.trader
            && ToText(Lookup(ms, "sellToken")) == i.sellToken
            && ToText(Lookup(ms, "buyToken")) == i.buyToken
            && ToInteger(Lookup(ms, "sellAmount")) == Some(i.sellAmount)
            && ToInteger(Lookup(ms, "minBuyAmount")) == Some(i.minBuyAmount)
            && ToInteger(Lookup(ms, "maxSlippageBps")) == Some(i.maxSlippageBps)
            && ToInteger(Lookup(ms, "deadline")) == Some(i.deadline)
            && ToInteger(Lookup(ms, "nonce")) == Some(i.nonce)
            && ToInteger(Lookup(ms, "solverFeeBps")) == Some(i.solverFeeBps)
  {
    AssemblesExactly(f => Lookup(ms, NameOf(f)), i);
  }

  /** The SDK reads an intent from a printed object exactly when its members coerce to it and it is
      valid. */
  lemma DeserializesExactly(isAddress: string -> bool, ms: seq<Member>, i: WireIntent)
    requires forall k :: 0 <= k < |ms| ==> PrintableMember(ms[k])
    ensures DeserializeIntent(isAddress, PrintObject(ms)) == Some(i)
       <==> CoerceIntent(ms) == Some(i) && ValidateIntent(isAddress, i)
  {
    ObjectRoundTrip(ms);
  }
}
