/** The canonical encoding of an intent: an ScVal map with sorted symbol keys, in the XDR of
    RFC 4506, and a strict decoder for it.  Integers are big-endian (sections 4.2 and 4.5),
    opaque data is padded to four bytes (sections 4.9 and 4.11), arrays carry their length
    (section 4.13), unions their discriminant (section 4.15) and optional data a presence
    flag (section 4.19).  The discriminants are those of Stellar's ScVal and ScAddress. */
module Xdr {
  import opened Protocol

  const SCV_U32 := 3
  const SCV_U64 := 5
  const SCV_I128 := 10
  const SCV_SYMBOL := 15
  const SCV_MAP := 17
  const SCV_ADDRESS := 18
  const TWO_64: int := 0x1_0000_0000_0000_0000

  datatype ScVal =
    | ScU32(n: int)
    | ScU64(n: int)
    | ScI128(n: int)
    | ScSymbol(s: string)
    | ScAddress(a: Address)

  datatype ScMapEntry = ScMapEntry(key: ScVal, val: ScVal)

  predicate IsSymbol(s: string) {
    |s| <= 32 && forall k :: 0 <= k < |s| ==> s[k] < 128 as char
  }

  predicate Encodable(v: ScVal) {
    match v
    case ScU32(n) => FitsU32(n)
    case ScU64(n) => FitsU64(n)
    case ScI128(n) => FitsI128(n)
    case ScSymbol(s) => IsSymbol(s)
    case ScAddress(_) => true
  }

  // ----- integers -----

  function Pow256(k: nat): int {
    if k == 0 then 1 else 256 * Pow256(k - 1)
  }

  function BigEndian(n: nat, k: nat): (b: Bytes)
    ensures |b| == k
  {
    if k == 0 then [] else BigEndian(n / 256, k - 1) + [(n % 256) as Byte]
  }

  function FromBigEndian(b: Bytes): nat {
    if b == [] then 0 else 256 * FromBigEndian(b[..|b| - 1]) + b[|b| - 1] as nat
  }

  lemma {:induction false} IntegerRoundTrip(n: nat, k: nat)
    requires n < Pow256(k)
    ensures FromBigEndian(BigEndian(n, k)) == n
  {
    if k > 0 {
      IntegerRoundTrip(n / 256, k - 1);
      assert BigEndian(n, k)[..k - 1] == BigEndian(n / 256, k - 1);
    }
  }

  lemma {:induction false} IntegerCanonical(b: Bytes)
    ensures FromBigEndian(b) < Pow256(|b|)
    ensures BigEndian(FromBigEndian(b), |b|) == b
  {
    if b != [] {
      IntegerCanonical(b[..|b| - 1]);
      assert b == b[..|b| - 1] + [b[|b| - 1]];
    }
  }

  lemma WordSizes()
    ensures Pow256(4) == U32_MAX + 1 && Pow256(8) == U64_MAX + 1 == TWO_64
  {
    assert Pow256(2) == 65536;
    assert Pow256(4) == 65536 * 65536;
    assert Pow256(6) == 65536 * Pow256(4);
    assert Pow256(8) == 65536 * Pow256(6);
  }

  // ----- parsers -----

  /** A parsed value and the bytes after it. */
  type Parsed<T> = Option<(T, Bytes)>

  function Take(b: Bytes, k: nat): Parsed<Bytes> {
    if k <= |b| then Some((b[..k], b[k..])) else None
  }

  function ParseWord(b: Bytes, k: nat): Parsed<nat> {
    var (word, rest) :- Take(b, k);
    Some((FromBigEndian(word), rest))
  }

  lemma TakeRoundTrip(a: Bytes, rest: Bytes)
    ensures Take(a + rest, |a|) == Some((a, rest))
  {
    assert (a + rest)[..|a|] == a && (a + rest)[|a|..] == rest;
  }

  lemma WordRoundTrip(n: nat, k: nat, rest: Bytes)
    requires n < Pow256(k)
    ensures ParseWord(BigEndian(n, k) + rest, k) == Some((n, rest))
  {
    TakeRoundTrip(BigEndian(n, k), rest);
    IntegerRoundTrip(n, k);
  }

  lemma WordCanonical(b: Bytes, k: nat)
    requires ParseWord(b, k).Some?
    ensures var (n, rest) := ParseWord(b, k).value; n < Pow256(k) && b == BigEndian(n, k) + rest
  {
    IntegerCanonical(b[..k]);
    assert b == b[..k] + b[k..];
  }

  // ----- 128-bit integers: a signed high word and an unsigned low word -----

  function EncodeI128(n: int): Bytes
    requires FitsI128(n)
  {
    var hi, lo := n / TWO_64, n % TWO_64;
    BigEndian(if hi < 0 then hi + TWO_64 else hi, 8) + BigEndian(lo, 8)
  }

  function ParseI128(b: Bytes): Parsed<int> {
    var (hi, b1) :- ParseWord(b, 8);
    var (lo, rest) :- ParseWord(b1, 8);
    Some(((if hi >= 0x8000_0000_0000_0000 then hi - TWO_64 else hi) * TWO_64 + lo, rest))
  }

  lemma HighAndLow(hi: int, lo: int)
    requires 0 <= lo < TWO_64 && -0x8000_0000_0000_0000 <= hi < 0x8000_0000_0000_0000
    ensures var n := hi * TWO_64 + lo; FitsI128(n) && n / TWO_64 == hi && n % TWO_64 == lo
  {
  }

  lemma I128RoundTrip(n: int, rest: Bytes)
    requires FitsI128(n)
    ensures ParseI128(EncodeI128(n) + rest) == Some((n, rest))
  {
    WordSizes();
    var hi, lo := n / TWO_64, n % TWO_64;
    var word := if hi < 0 then hi + TWO_64 else hi;
    WordRoundTrip(word, 8, BigEndian(lo, 8) + rest);
    WordRoundTrip(lo, 8, rest);
    Regroup(BigEndian(word, 8), BigEndian(lo, 8), rest);
  }

  lemma I128Canonical(b: Bytes)
    requires ParseI128(b).Some?
    ensures var (n, rest) := ParseI128(b).value; FitsI128(n) && b == EncodeI128(n) + rest
  {
    WordSizes();
    var (word, b1) := ParseWord(b, 8).value;
    var (lo, rest) := ParseWord(b1, 8).value;
    WordCanonical(b, 8);
    WordCanonical(b1, 8);
    HighAndLow(if word >= 0x8000_0000_0000_0000 then word - TWO_64 else word, lo);
    Regroup(BigEndian(word, 8), BigEndian(lo, 8), rest);
  }

  // ----- symbols -----

  function CharBytes(s: string): (b: Bytes)
    requires IsSymbol(s)
    ensures |b| == |s| && forall k :: 0 <= k < |s| ==> b[k] as int == s[k] as int
  {
    seq(|s|, k requires 0 <= k < |s| => s[k] as Byte)
  }

  function Padding(n: nat): nat { (4 - n % 4) % 4 }

  function Zeros(n: nat): Bytes { seq(n, _ => 0) }

  function EncodeSymbol(s: string): Bytes
    requires IsSymbol(s)
  {
    BigEndian(|s|, 4) + (CharBytes(s) + Zeros(Padding(|s|)))
  }

  function ParseSymbol(b: Bytes): Parsed<string> {
    var (n, b1) :- ParseWord(b, 4);
    var (chars, b2) :- Take(b1, n);
    var (pad, rest) :- Take(b2, Padding(n));
    if n <= 32 && (forall k :: 0 <= k < n ==> chars[k] < 128) && pad == Zeros(Padding(n)) then
      Some((seq(n, k requires 0 <= k < n => chars[k] as char), rest))
    else None
  }

  lemma CharsRoundTrip(s: string)
    requires IsSymbol(s)
    ensures seq(|s|, k requires 0 <= k < |s| => CharBytes(s)[k] as char) == s
  {
    var t := seq(|s|, k requires 0 <= k < |s| => CharBytes(s)[k] as char);
    forall k | 0 <= k < |s| ensures t[k] == s[k] {
      assert CharBytes(s)[k] as int == s[k] as int;
    }
  }

  lemma SymbolRoundTrip(s: string, rest: Bytes)
    requires IsSymbol(s)
    ensures ParseSymbol(EncodeSymbol(s) + rest) == Some((s, rest))
  {
    WordSizes();
    var chars, pad := CharBytes(s), Zeros(Padding(|s|));
    WordRoundTrip(|s|, 4, chars + pad + rest);
    Regroup(BigEndian(|s|, 4), chars + pad, rest);
    Regroup(chars, pad, rest);
    TakeRoundTrip(chars, pad + rest);
    TakeRoundTrip(pad, rest);
    CharsRoundTrip(s);
  }

  lemma CharsCanonical(chars: Bytes)
    requires |chars| <= 32 && forall k :: 0 <= k < |chars| ==> chars[k] < 128
    ensures var s := seq(|chars|, k requires 0 <= k < |chars| => chars[k] as char);
            IsSymbol(s) && CharBytes(s) == chars
  {
  }

  lemma SymbolCanonical(b: Bytes)
    requires ParseSymbol(b).Some?
    ensures var (s, rest) := ParseSymbol(b).value; IsSymbol(s) && b == EncodeSymbol(s) + rest
  {
    var (n, b1) := ParseWord(b, 4).value;
    WordCanonical(b, 4);
    var (chars, b2) := Take(b1, n).value;
    var (pad, rest) := Take(b2, Padding(n)).value;
    CharsCanonical(chars);
    TakeCanonical(b1, n);
    TakeCanonical(b2, Padding(n));
    Regroup(chars, pad, rest);
    Regroup(BigEndian(n, 4), chars + pad, rest);
  }

  lemma TakeCanonical(b: Bytes, k: nat)
    requires Take(b, k).Some?
    ensures var (a, rest) := Take(b, k).value; |a| == k && b == a + rest
  {
    assert b == b[..k] + b[k..];
  }

  // ----- addresses -----

  function EncodeAddress(a: Address): Bytes {
    match a
    case Account(key) => BigEndian(0, 4) + (BigEndian(0, 4) + key)
    case Contract(id) => BigEndian(1, 4) + id
    case Muxed(memo, key) => BigEndian(2, 4) + (BigEndian(memo, 8) + key)
  }

  function ParseAccount(b: Bytes): Parsed<Address> {
    var (keyType, b1) :- ParseWord(b, 4);
    var (key, rest) :- Take(b1, 32);
    if keyType == 0 then Some((Account(key), rest)) else None
  }

  function ParseContract(b: Bytes): Parsed<Address> {
    var (id, rest) :- Take(b, 32);
    Some((Contract(id), rest))
  }

  function ParseMuxed(b: Bytes): Parsed<Address> {
    var (memo, b1) :- ParseWord(b, 8);
    var (key, rest) :- Take(b1, 32);
    if memo <= U64_MAX then Some((Muxed(memo, key), rest)) else None
  }

  function ParseAddress(b: Bytes): Parsed<Address> {
    var (kind, b1) :- ParseWord(b, 4);
    if kind == 0 then ParseAccount(b1)
    else if kind == 1 then ParseContract(b1)
    else if kind == 2 then ParseMuxed(b1)
    else None
  }

  lemma AccountRoundTrip(key: Bytes32, rest: Bytes)
    ensures ParseAccount(BigEndian(0, 4) + key + rest) == Some((Account(key), rest))
  {
    WordSizes();
    WordRoundTrip(0, 4, key + rest);
    TakeRoundTrip(key, rest);
    Regroup(BigEndian(0, 4), key, rest);
  }

  lemma MuxedRoundTrip(memo: U64, key: Bytes32, rest: Bytes)
    ensures ParseMuxed(BigEndian(memo, 8) + key + rest) == Some((Muxed(memo, key), rest))
  {
    WordSizes();
    WordRoundTrip(memo, 8, key + rest);
    TakeRoundTrip(key, rest);
    Regroup(BigEndian(memo, 8), key, rest);
  }

  lemma AddressRoundTrip(a: Address, rest: Bytes)
    ensures ParseAddress(EncodeAddress(a) + rest) == Some((a, rest))
  {
    WordSizes();
    match a
    case Account(key) =>
      AccountRoundTrip(key, rest);
      WordRoundTrip(0, 4, BigEndian(0, 4) + key + rest);
      Regroup(BigEndian(0, 4), BigEndian(0, 4) + key, rest);
    case Contract(id) =>
      TakeRoundTrip(id, rest);
      WordRoundTrip(1, 4, id + rest);
      Regroup(BigEndian(1, 4), id, rest);
    case Muxed(memo, key) =>
      MuxedRoundTrip(memo, key, rest);
      WordRoundTrip(2, 4, BigEndian(memo, 8) + key + rest);
      Regroup(BigEndian(2, 4), BigEndian(memo, 8) + key, rest);
  }

  lemma AccountCanonical(b: Bytes)
    requires ParseAccount(b).Some?
    ensures var (a, rest) := ParseAccount(b).value; a.Account? && b == BigEndian(0, 4) + a.key + rest
  {
    WordCanonical(b, 4);
    var (a, rest) := ParseAccount(b).value;
    Regroup(BigEndian(0, 4), a.key, rest);
  }

  lemma MuxedCanonical(b: Bytes)
    requires ParseMuxed(b).Some?
    ensures var (a, rest) := ParseMuxed(b).value; a.Muxed? && b == BigEndian(a.memo, 8) + a.key + rest
  {
    WordCanonical(b, 8);
    var (a, rest) := ParseMuxed(b).value;
    Regroup(BigEndian(a.memo, 8), a.key, rest);
  }

  lemma AddressCanonical(b: Bytes)
    requires ParseAddress(b).Some?
    ensures var (a, rest) := ParseAddress(b).value; b == EncodeAddress(a) + rest
  {
    var (kind, b1) := ParseWord(b, 4).value;
    var (a, rest) := ParseAddress(b).value;
    WordCanonical(b, 4);
    if kind == 0 {
      AccountCanonical(b1);
      Regroup(BigEndian(0, 4), BigEndian(0, 4) + a.key, rest);
    } else if kind == 1 {
      Regroup(BigEndian(1, 4), a.id, rest);
    } else {
      MuxedCanonical(b1);
      Regroup(BigEndian(2, 4), BigEndian(a.memo, 8) + a.key, rest);
    }
  }

  // ----- values and maps -----

  function Tag(v: ScVal): nat {
    match v
    case ScU32(_) => SCV_U32
    case ScU64(_) => SCV_U64
    case ScI128(_) => SCV_I128
    case ScSymbol(_) => SCV_SYMBOL
    case ScAddress(_) => SCV_ADDRESS
  }

  function EncodeBody(v: ScVal): Bytes
    requires Encodable(v)
  {
    match v
    case ScU32(n) => BigEndian(n, 4)
    case ScU64(n) => BigEndian(n, 8)
    case ScI128(n) => EncodeI128(n)
    case ScSymbol(s) => EncodeSymbol(s)
    case ScAddress(a) => EncodeAddress(a)
  }

  function EncodeVal(v: ScVal): Bytes
    requires Encodable(v)
  {
    BigEndian(Tag(v), 4) + EncodeBody(v)
  }

  function ParseBody(tag: nat, b: Bytes): Parsed<ScVal> {
    if tag == SCV_U32 then var (n, rest) :- ParseWord(b, 4); Some((ScU32(n), rest))
    else if tag == SCV_U64 then var (n, rest) :- ParseWord(b, 8); Some((ScU64(n), rest))
    else if tag == SCV_I128 then var (n, rest) :- ParseI128(b); Some((ScI128(n), rest))
    else if tag == SCV_SYMBOL then var (s, rest) :- ParseSymbol(b); Some((ScSymbol(s), rest))
    else if tag == SCV_ADDRESS then var (a, rest) :- ParseAddress(b); Some((ScAddress(a), rest))
    else None
  }

  function ParseVal(b: Bytes): Parsed<ScVal> {
    var (tag, b1) :- ParseWord(b, 4);
    ParseBody(tag, b1)
  }

  lemma BodyRoundTrip(v: ScVal, rest: Bytes)
    requires Encodable(v)
    ensures ParseBody(Tag(v), EncodeBody(v) + rest) == Some((v, rest))
  {
    WordSizes();
    match v
    case ScU32(n) => WordRoundTrip(n, 4, rest);
    case ScU64(n) => WordRoundTrip(n, 8, rest);
    case ScI128(n) => I128RoundTrip(n, rest);
    case ScSymbol(s) => SymbolRoundTrip(s, rest);
    case ScAddress(a) => AddressRoundTrip(a, rest);
  }

  lemma ValRoundTrip(v: ScVal, rest: Bytes)
    requires Encodable(v)
    ensures ParseVal(EncodeVal(v) + rest) == Some((v, rest))
  {
    WordSizes();
    BodyRoundTrip(v, rest);
    WordRoundTrip(Tag(v), 4, EncodeBody(v) + rest);
    Regroup(BigEndian(Tag(v), 4), EncodeBody(v), rest);
  }

  lemma BodyCanonical(tag: nat, b: Bytes)
    requires ParseBody(tag, b).Some?
    ensures var (v, rest) := ParseBody(tag, b).value; Encodable(v) && tag == Tag(v) && b == EncodeBody(v) + rest
  {
    WordSizes();
    if tag == SCV_U32 { WordCanonical(b, 4); }
    else if tag == SCV_U64 { WordCanonical(b, 8); }
    else if tag == SCV_I128 { I128Canonical(b); }
    else if tag == SCV_SYMBOL { SymbolCanonical(b); }
    else { AddressCanonical(b); }
  }

  lemma ValCanonical(b: Bytes)
    requires ParseVal(b).Some?
    ensures var (v, rest) := ParseVal(b).value; Encodable(v) && b == EncodeVal(v) + rest
  {
    var (tag, b1) := ParseWord(b, 4).value;
    var (v, rest) := ParseBody(tag, b1).value;
    WordCanonical(b, 4);
    BodyCanonical(tag, b1);
    Regroup(BigEndian(tag, 4), EncodeBody(v), rest);
  }

  predicate EncodableEntry(e: ScMapEntry) { Encodable(e.key) && Encodable(e.val) }

  predicate EncodableMap(m: seq<ScMapEntry>) {
    |m| <= U32_MAX && forall k :: 0 <= k < |m| ==> EncodableEntry(m[k])
  }

  function EncodeEntry(e: ScMapEntry): Bytes
    requires EncodableEntry(e)
  {
    EncodeVal(e.key) + EncodeVal(e.val)
  }

  function ParseEntry(b: Bytes): Parsed<ScMapEntry> {
    var (key, b1) :- ParseVal(b);
    var (val, rest) :- ParseVal(b1);
    Some((ScMapEntry(key, val), rest))
  }

  lemma EntryRoundTrip(e: ScMapEntry, rest: Bytes)
    requires EncodableEntry(e)
    ensures ParseEntry(EncodeEntry(e) + rest) == Some((e, rest))
  {
    ValRoundTrip(e.val, rest);
    ValRoundTrip(e.key, EncodeVal(e.val) + rest);
    assert EncodeEntry(e) + rest == EncodeVal(e.key) + (EncodeVal(e.val) + rest);
  }

  lemma EntryCanonical(b: Bytes)
    requires ParseEntry(b).Some?
    ensures var (e, rest) := ParseEntry(b).value; EncodableEntry(e) && b == EncodeEntry(e) + rest
  {
    var (key, b1) := ParseVal(b).value;
    var (val, rest) := ParseVal(b1).value;
    ValCanonical(b);
    ValCanonical(b1);
    assert b == EncodeVal(key) + (EncodeVal(val) + rest) == EncodeVal(key) + EncodeVal(val) + rest;
  }

  // ----- fixed-count arrays of any element codec -----

  function EncodeAll<T>(encode: T --> Bytes, m: seq<T>): Bytes
    requires forall e :: e in m ==> encode.requires(e)
  {
    if m == [] then [] else encode(m[0]) + EncodeAll(encode, m[1..])
  }

  function ParseAll<T>(parse: Bytes -> Parsed<T>, b: Bytes, n: nat): Parsed<seq<T>>
    decreases n
  {
    if n == 0 then Some(([], b))
    else
      var (first, b1) :- parse(b);
      var (others, rest) :- ParseAll(parse, b1, n - 1);
      Some(([first] + others, rest))
  }

  ghost predicate RoundTrips<T(!new)>(encode: T --> Bytes, parse: Bytes -> Parsed<T>) {
    forall e, rest :: encode.requires(e) ==> parse(encode(e) + rest) == Some((e, rest))
  }

  ghost predicate IsCanonical<T(!new)>(encode: T --> Bytes, parse: Bytes -> Parsed<T>) {
    forall b :: parse(b).Some? ==>
      encode.requires(parse(b).value.0) && b == encode(parse(b).value.0) + parse(b).value.1
  }

  lemma {:induction false} AllRoundTrip<T(!new)>(encode: T --> Bytes, parse: Bytes -> Parsed<T>, m: seq<T>, rest: Bytes)
    requires RoundTrips(encode, parse) && forall e :: e in m ==> encode.requires(e)
    ensures ParseAll(parse, EncodeAll(encode, m) + rest, |m|) == Some((m, rest))
  {
    if m == [] {
      assert EncodeAll(encode, m) + rest == rest;
    } else {
      var tail := EncodeAll(encode, m[1..]) + rest;
      AllRoundTrip(encode, parse, m[1..], rest);
      assert EncodeAll(encode, m) + rest == encode(m[0]) + tail;
      assert m == [m[0]] + m[1..];
    }
  }

  lemma {:induction false} AllCanonical<T(!new)>(encode: T --> Bytes, parse: Bytes -> Parsed<T>, b: Bytes, n: nat)
    requires IsCanonical(encode, parse) && ParseAll(parse, b, n).Some?
    ensures var (m, rest) := ParseAll(parse, b, n).value;
            && |m| == n && (forall e :: e in m ==> encode.requires(e))
            && b == EncodeAll(encode, m) + rest
    decreases n
  {
    if n > 0 {
      var (first, b1) := parse(b).value;
      var (others, rest) := ParseAll(parse, b1, n - 1).value;
      AllCanonical(encode, parse, b1, n - 1);
      var m := [first] + others;
      assert m[1..] == others;
      assert b == encode(first) + (EncodeAll(encode, others) + rest) == EncodeAll(encode, m) + rest;
    } else {
      assert b == EncodeAll(encode, []) + b;
    }
  }

  lemma EntriesRoundTrip()
    ensures RoundTrips(EncodeEntry, ParseEntry) && IsCanonical(EncodeEntry, ParseEntry)
  {
    forall e, rest | EncodeEntry.requires(e) ensures ParseEntry(EncodeEntry(e) + rest) == Some((e, rest)) {
      EntryRoundTrip(e, rest);
    }
    forall b | ParseEntry(b).Some?
      ensures EncodeEntry.requires(ParseEntry(b).value.0)
              && b == EncodeEntry(ParseEntry(b).value.0) + ParseEntry(b).value.1
    {
      EntryCanonical(b);
    }
  }

  /** The discriminant, the presence flag and the number of entries. */
  function EncodeHeader(n: nat): Bytes {
    BigEndian(SCV_MAP, 4) + (BigEndian(1, 4) + BigEndian(n, 4))
  }

  function ParseHeader(b: Bytes): Parsed<nat> {
    var (tag, b1) :- ParseWord(b, 4);
    var (present, b2) :- ParseWord(b1, 4);
    var (n, rest) :- ParseWord(b2, 4);
    if tag == SCV_MAP && present == 1 then Some((n, rest)) else None
  }

  lemma HeaderRoundTrip(n: nat, rest: Bytes)
    requires n <= U32_MAX
    ensures ParseHeader(EncodeHeader(n) + rest) == Some((n, rest))
  {
    WordSizes();
    WordRoundTrip(n, 4, rest);
    WordRoundTrip(1, 4, BigEndian(n, 4) + rest);
    WordRoundTrip(SCV_MAP, 4, BigEndian(1, 4) + (BigEndian(n, 4) + rest));
    Regroup(BigEndian(SCV_MAP, 4), BigEndian(1, 4) + BigEndian(n, 4), rest);
    Regroup(BigEndian(1, 4), BigEndian(n, 4), rest);
  }

  lemma HeaderCanonical(b: Bytes)
    requires ParseHeader(b).Some?
    ensures var (n, rest) := ParseHeader(b).value; n <= U32_MAX && b == EncodeHeader(n) + rest
  {
    WordSizes();
    var (tag, b1) := ParseWord(b, 4).value;
    var (present, b2) := ParseWord(b1, 4).value;
    var (n, rest) := ParseWord(b2, 4).value;
    WordCanonical(b, 4);
    WordCanonical(b1, 4);
    WordCanonical(b2, 4);
    assert b == BigEndian(SCV_MAP, 4) + (BigEndian(1, 4) + (BigEndian(n, 4) + rest)) == EncodeHeader(n) + rest;
  }

  function EncodeMap(m: seq<ScMapEntry>): Bytes
    requires EncodableMap(m)
  {
    EncodeHeader(|m|) + EncodeAll(EncodeEntry, m)
  }

  function ParseMap(b: Bytes): Parsed<seq<ScMapEntry>> {
    var (n, b1) :- ParseHeader(b);
    ParseAll(ParseEntry, b1, n)
  }

  lemma MapRoundTrip(m: seq<ScMapEntry>)
    requires EncodableMap(m)
    ensures ParseMap(EncodeMap(m)) == Some((m, []))
  {
    var body := EncodeAll(EncodeEntry, m);
    EntriesRoundTrip();
    AllRoundTrip(EncodeEntry, ParseEntry, m, []);
    assert body + [] == body;
    HeaderRoundTrip(|m|, body);
  }

  lemma EntriesCanonical(b: Bytes, n: nat)
    requires n <= U32_MAX && ParseAll(ParseEntry, b, n).Some? && ParseAll(ParseEntry, b, n).value.1 == []
    ensures var m := ParseAll(ParseEntry, b, n).value.0;
            |m| == n && EncodableMap(m) && b == EncodeAll(EncodeEntry, m)
  {
    EntriesRoundTrip();
    AllCanonical(EncodeEntry, ParseEntry, b, n);
    var m := ParseAll(ParseEntry, b, n).value.0;
    assert b == EncodeAll(EncodeEntry, m) + [] == EncodeAll(EncodeEntry, m);
    forall k | 0 <= k < |m| ensures EncodableEntry(m[k]) {
      assert m[k] in m;
    }
  }

  lemma MapCanonical(b: Bytes)
    requires ParseMap(b).Some? && ParseMap(b).value.1 == []
    ensures var m := ParseMap(b).value.0; EncodableMap(m) && b == EncodeMap(m)
  {
    var (n, b1) := ParseHeader(b).value;
    HeaderCanonical(b);
    EntriesCanonical(b1, n);
  }

  // ----- intents -----

  datatype Field =
    | BuyToken | Deadline | MaxSlippageBps | MinBuyAmount | Nonce | SellAmount | SellToken | SolverFeeBps | Trader

  /** The order of the map's keys. */
  const FIELD_ORDER: seq<Field> :=
    [BuyToken, Deadline, MaxSlippageBps, MinBuyAmount, Nonce, SellAmount, SellToken, SolverFeeBps, Trader]

  function NameOf(f: Field): string {
    match f
    case BuyToken => "buy_token"
    case Deadline => "deadline"
    case MaxSlippageBps => "max_slippage_bps"
    case MinBuyAmount => "min_buy_amount"
    case Nonce => "nonce"
    case SellAmount => "sell_amount"
    case SellToken => "sell_token"
    case SolverFeeBps => "solver_fee_bps"
    case Trader => "trader"
  }

  function ValueOf(i: TraderIntent, f: Field): ScVal {
    match f
    case BuyToken => ScAddress(i.buyToken)
    case Deadline => ScU64(i.deadline)
    case MaxSlippageBps => ScU32(i.maxSlippageBps)
    case MinBuyAmount => ScI128(i.minBuyAmount)
    case Nonce => ScU64(i.nonce)
    case SellAmount => ScI128(i.sellAmount)
    case SellToken => ScAddress(i.sellToken)
    case SolverFeeBps => ScU32(i.solverFeeBps)
    case Trader => ScAddress(i.trader)
  }

  function EntryOf(i: TraderIntent, f: Field): ScMapEntry {
    ScMapEntry(ScSymbol(NameOf(f)), ValueOf(i, f))
  }

  function IntentToScMap(i: TraderIntent): seq<ScMapEntry> {
    seq(|FIELD_ORDER|, k requires 0 <= k < |FIELD_ORDER| => EntryOf(i, FIELD_ORDER[k]))
  }

  lemma EntriesEncodable(i: TraderIntent)
    requires i.Representable()
    ensures EncodableMap(IntentToScMap(i))
  {
    NamesAreSymbols();
    forall f ensures EncodableEntry(EntryOf(i, f)) { }
  }

  function ScMapToIntent(m: seq<ScMapEntry>): Option<TraderIntent> {
    if HasKeys(m) && HasTypes(m) then
      Some(TraderIntent(m[8].val.a, m[6].val.a, m[0].val.a, m[5].val.n, m[3].val.n, m[2].val.n, m[1].val.n, m[4].val.n,
                        m[7].val.n))
    else None
  }

  /** The nine keys in order. */
  predicate HasKeys(m: seq<ScMapEntry>) {
    |m| == |FIELD_ORDER| && forall k :: 0 <= k < |m| ==> m[k].key == ScSymbol(NameOf(FIELD_ORDER[k]))
  }

  /** Each of the nine values has the type of its field. */
  predicate HasTypes(m: seq<ScMapEntry>)
    requires |m| == 9
  {
    && m[0].val.ScAddress? && m[1].val.ScU64? && m[2].val.ScU32? && m[3].val.ScI128? && m[4].val.ScU64?
    && m[5].val.ScI128? && m[6].val.ScAddress? && m[7].val.ScU32? && m[8].val.ScAddress?
  }

  /** The bytes that are hashed, defined for intents whose fields fit their types. */
  function EncodeIntent(i: TraderIntent): Bytes
    requires i.Representable()
  {
    EntriesEncodable(i);
    EncodeMap(IntentToScMap(i))
  }

  function DecodeIntent(b: Bytes): Option<TraderIntent> {
    var (m, rest) :- ParseMap(b);
    if rest == [] then ScMapToIntent(m) else None
  }

  /** Decoding undoes encoding. */
  lemma EncodingRoundTrip(i: TraderIntent)
    requires i.Representable()
    ensures DecodeIntent(EncodeIntent(i)) == Some(i)
  {
    EntriesEncodable(i);
    MapRoundTrip(IntentToScMap(i));
    IntentIsScMap(i);
  }

  lemma NamesAreSymbols()
    ensures forall f :: IsSymbol(NameOf(f))
  {
  }

  lemma KeysInOrder(i: TraderIntent)
    ensures HasKeys(IntentToScMap(i))
  {
  }

  lemma IntentIsScMap(i: TraderIntent)
    ensures ScMapToIntent(IntentToScMap(i)) == Some(i)
  {
    KeysInOrder(i);
    var m := IntentToScMap(i);
    assert forall k :: 0 <= k < 9 ==> m[k].val == ValueOf(i, FIELD_ORDER[k]);
  }

  /** Only the encoding of an intent decodes to it: no other bytes stand for the same order. */
  lemma EncodingCanonical(b: Bytes)
    requires DecodeIntent(b).Some?
    ensures DecodeIntent(b).value.Representable() && b == EncodeIntent(DecodeIntent(b).value)
  {
    MapCanonical(b);
    var m := ParseMap(b).value.0;
    var i := DecodeIntent(b).value;
    ScMapIsIntent(m);
  }

  lemma ScMapIsIntent(m: seq<ScMapEntry>)
    requires EncodableMap(m) && ScMapToIntent(m).Some?
    ensures ScMapToIntent(m).value.Representable() && m == IntentToScMap(ScMapToIntent(m).value)
  {
    var i := ScMapToIntent(m).value;
    assert forall k :: 0 <= k < 9 ==> EncodableEntry(m[k]) && m[k].val == ValueOf(i, FIELD_ORDER[k]);
  }

  /** Distinct intents have distinct hash preimages. */
  lemma EncodingInjective(i: TraderIntent, j: TraderIntent)
    requires i.Representable() && j.Representable() && EncodeIntent(i) == EncodeIntent(j)
    ensures i == j
  {
    EncodingRoundTrip(i);
    EncodingRoundTrip(j);
  }

  // ----- key order -----

  /** Byte order: at the first difference `s` ends or has the smaller character. */
  ghost predicate Before(s: string, t: string) {
    exists k :: DiffersAt(s, t, k)
  }

  predicate DiffersAt(s: string, t: string, k: nat) {
    k <= |s| && k < |t| && s[..k] == t[..k] && (k == |s| || s[k] < t[k])
  }

  /** The keys ascend strictly byte by byte, as the host requires of a map. */
  lemma FieldOrderIsSorted(k: nat)
    requires k + 1 < |FIELD_ORDER|
    ensures Before(NameOf(FIELD_ORDER[k]), NameOf(FIELD_ORDER[k + 1]))
  {
    var shared := match FIELD_ORDER[k]
      case MaxSlippageBps => 1
      case SellAmount => 5
      case SellToken => 1
      case _ => 0;
    assert DiffersAt(NameOf(FIELD_ORDER[k]), NameOf(FIELD_ORDER[k + 1]), shared);
  }

  // ----- the bytes -----

  /** The first byte is the most significant. */
  lemma {:induction false} MostSignificantFirst(b: Bytes)
    requires b != []
    ensures FromBigEndian(b) == b[0] as int * Pow256(|b| - 1) + FromBigEndian(b[1..])
  {
    if |b| == 1 {
      assert b[..0] == [] && b[1..] == [];
    } else {
      var front, last := b[..|b| - 1], b[|b| - 1] as int;
      MostSignificantFirst(front);
      assert b[1..][..|b| - 2] == front[1..] && b[1..][|b| - 2] == b[|b| - 1];
      Shifted(b[0] as int, |b| - 2, FromBigEndian(front[1..]), last);
    }
  }

  lemma Shifted(first: int, k: nat, middle: int, last: int)
    ensures 256 * (first * Pow256(k) + middle) + last == first * Pow256(k + 1) + (256 * middle + last)
  {
    assert first * Pow256(k + 1) == first * (256 * Pow256(k)) == 256 * (first * Pow256(k));
  }

  lemma {:induction false} WordsJoin(hi: nat, lo: nat, j: nat, k: nat)
    requires lo < Pow256(k)
    ensures BigEndian(hi, j) + BigEndian(lo, k) == BigEndian(hi * Pow256(k) + lo, j + k)
  {
    if k == 0 {
      assert BigEndian(hi, j) + [] == BigEndian(hi, j);
    } else {
      var n := hi * Pow256(k) + lo;
      var low, digit := lo / 256, lo % 256;
      WordsJoin(hi, low, j, k - 1);
      assert n == 256 * (hi * Pow256(k - 1) + low) + digit by {
        assert hi * (256 * Pow256(k - 1)) == 256 * (hi * Pow256(k - 1));
      }
      assert n / 256 == hi * Pow256(k - 1) + low && n % 256 == digit;
      Regroup(BigEndian(hi, j), BigEndian(low, k - 1), [digit as Byte]);
    }
  }

  /** A signed integer is its two's complement in sixteen bytes. */
  lemma TwosComplement(n: int)
    requires FitsI128(n)
    ensures EncodeI128(n) == BigEndian(if n < 0 then n + TWO_64 * TWO_64 else n, 16)
  {
    WordSizes();
    var hi, lo := n / TWO_64, n % TWO_64;
    var word := if hi < 0 then hi + TWO_64 else hi;
    assert n == hi * TWO_64 + lo;
    assert word * TWO_64 + lo == if n < 0 then n + TWO_64 * TWO_64 else n;
    WordsJoin(word, lo, 8, 8);
  }

  lemma SmallWord(n: nat)
    requires n < 256
    ensures BigEndian(n, 4) == [0, 0, 0, n as Byte]
  {
    assert BigEndian(0, 0) == [] && BigEndian(0, 1) == [0] && BigEndian(0, 2) == [0, 0] && BigEndian(0, 3) == [0, 0, 0];
  }

  /** An address is its kind's discriminant in Stellar's ScAddress, and its key. */
  lemma AddressLayout(a: Address)
    ensures EncodeAddress(a) ==
            match a
            case Account(key) => [0, 0, 0, 0] + ([0, 0, 0, 0] + key)
            case Contract(id) => [0, 0, 0, 1] + id
            case Muxed(memo, key) => [0, 0, 0, 2] + (BigEndian(memo, 8) + key)
  {
    SmallWord(0);
    SmallWord(1);
    SmallWord(2);
  }

  /** Each value begins with its type's discriminant in Stellar's ScVal. */
  lemma TypeTags(v: ScVal)
    requires Encodable(v)
    ensures EncodeVal(v) ==
            match v
            case ScU32(n) => [0, 0, 0, 3] + BigEndian(n, 4)
            case ScU64(n) => [0, 0, 0, 5] + BigEndian(n, 8)
            case ScI128(n) => [0, 0, 0, 10] + EncodeI128(n)
            case ScSymbol(s) => [0, 0, 0, 15] + EncodeSymbol(s)
            case ScAddress(a) => [0, 0, 0, 18] + EncodeAddress(a)
  {
    SmallWord(Tag(v));
  }

  /** A symbol is its length, its characters and zeros up to a multiple of four. */
  lemma SymbolLayout(s: string)
    requires IsSymbol(s)
    ensures var b := EncodeSymbol(s);
            && |b| % 4 == 0 && 4 + |s| <= |b| < 8 + |s|
            && b[..4] == [0, 0, 0, |s| as Byte]
            && (forall k :: 0 <= k < |s| ==> b[4 + k] as int == s[k] as int)
            && forall k :: 4 + |s| <= k < |b| ==> b[k] == 0
  {
    SmallWord(|s|);
  }

  /** The hashed bytes: a present map of nine entries, each its key and its value, in order. */
  lemma IntentLayout(i: TraderIntent)
    requires i.Representable()
    ensures EncodableMap(IntentToScMap(i)) && |IntentToScMap(i)| == 9
    ensures EncodeIntent(i) == [0, 0, 0, 17, 0, 0, 0, 1, 0, 0, 0, 9] + EncodeAll(EncodeEntry, IntentToScMap(i))
  {
    EntriesEncodable(i);
    HeaderOfNine();
  }

  lemma HeaderOfNine()
    ensures EncodeHeader(9) == [0, 0, 0, 17, 0, 0, 0, 1, 0, 0, 0, 9]
  {
    SmallWord(SCV_MAP);
    SmallWord(1);
    SmallWord(9);
  }
}
