/** The loadout URL codec shared by storage.js and next/storage.js: a 32-bit
    string hash, the encoding of 24 bits as four characters of the base64url
    alphabet (sections 4 and 5 of RFC 4648), single-character counts, and the
    record grammar that `serialize` writes and `deserialize` reads:

      <version> <list>
      <list>    = <count> <record>*
      <record>  = ('B' | 'G') <name hash> <item hash> <list>

    where the count is one character and each hash is four. */
module Codec {
  import opened Wrappers
  import opened Text

  const Two32: int := 0x1_0000_0000
  const Two31: int := 0x8000_0000
  const Two24: int := 0x100_0000

  // ---- hashString ----

  /** `x | 0`: the signed 32-bit integer congruent to `x` modulo 2^32. */
  function Int32(x: int): (r: int)
    ensures -Two31 <= r < Two31
    ensures (r - x) % Two32 == 0
  {
    var m := x % Two32;
    if m >= Two31 then m - Two32 else m
  }

  /** Values congruent modulo 2^32 have the same signed 32-bit form. */
  lemma Int32Congruent(x: int, y: int)
    requires (x - y) % Two32 == 0
    ensures Int32(x) == Int32(y)
  {
    var q := (x - y) / Two32;
    assert x == y + q * Two32;
    assert x % Two32 == y % Two32;
  }

  /** The UTF-16 code units of one character: one below U+10000, a surrogate pair above. */
  function Units(c: char): (r: seq<int>)
    ensures 1 <= |r| <= 2 && forall i :: 0 <= i < |r| ==> 0 <= r[i] < 0x10000
  {
    var v := c as int;
    if v < 0x10000 then [v]
    else [0xD800 + (v - 0x10000) / 0x400, 0xDC00 + (v - 0x10000) % 0x400]
  }

  /** What `charCodeAt(0)`, `charCodeAt(1)`, ... read: the UTF-16 code units of `s`. */
  function CodeUnits(s: string): (r: seq<int>)
    ensures |r| >= |s|
    ensures forall i :: 0 <= i < |r| ==> 0 <= r[i] < 0x10000
    ensures |s| > 0 && s[0] as int < 0x10000 ==> r[0] == s[0] as int
  {
    if s == [] then [] else Units(s[0]) + CodeUnits(s[1..])
  }

  /** The hash after the loop has read the code units `u`: `hash = (hash * 31) + c; hash |= 0` for each. */
  function HashOf(u: seq<int>): (r: int)
    ensures -Two31 <= r < Two31
  {
    if u == [] then 0 else Int32(HashOf(u[..|u| - 1]) * 31 + u[|u| - 1])
  }

  /** `hashString(str)`; None stands for `undefined` and `null`. */
  function Hash(str: Option<string>): (r: int)
    ensures str.None? || str == Some("") ==> r == 0
    ensures -Two31 <= r < Two31
  {
    if str.None? || str.value == "" then 0 else HashOf(CodeUnits(str.value))
  }

  /** The polynomial `u[0]*31^(n-1) + ... + u[n-1]` with no truncation. */
  function Poly(u: seq<int>): int {
    if u == [] then 0 else Poly(u[..|u| - 1]) * 31 + u[|u| - 1]
  }

  lemma MultipleScaled(d: int, k: int)
    requires d % Two32 == 0
    ensures (k * d) % Two32 == 0
  {
    var q := d / Two32;
    assert d == q * Two32;
    assert k * d == (k * q) * Two32;
  }

  /** Truncating at every step gives the same hash as truncating the exact polynomial once. */
  lemma {:induction false} HashIsTruncatedPoly(u: seq<int>)
    ensures HashOf(u) == Int32(Poly(u))
  {
    if u != [] {
      var p := u[..|u| - 1];
      HashIsTruncatedPoly(p);
      var h := HashOf(p);
      assert (h - Poly(p)) % Two32 == 0;
      MultipleScaled(h - Poly(p), 31);
      assert (h * 31 + u[|u| - 1]) - (Poly(p) * 31 + u[|u| - 1]) == 31 * (h - Poly(p));
      Int32Congruent(h * 31 + u[|u| - 1], Poly(p) * 31 + u[|u| - 1]);
    }
  }

  /** The loop of `hashString`. */
  method HashString(str: Option<string>) returns (hash: int)
    ensures hash == Hash(str)
    ensures -Two31 <= hash < Two31
  {
    hash := 0;
    if str.None? || str.value == "" {
      return hash;
    }
    var units := CodeUnits(str.value);
    var i := 0;
    while i < |units|
      invariant 0 <= i <= |units|
      invariant hash == HashOf(units[..i])
    {
      assert units[..i + 1][..i] == units[..i];
      hash := Int32(hash * 31 + units[i]);
      i := i + 1;
    }
    assert units[..i] == units;
  }

  // ---- encodeInt24 ----

  lemma MulAtLeast(k: int, m: int)
    requires k >= 1 && m > 0
    ensures k * m >= m
  {
  }

  /** Euclidean division is unique: a quotient and remainder in range are the ones `/` and `%` give. */
  lemma DivUnique(x: int, a: int, b: int, m: int)
    requires m > 0 && 0 <= b < m && x == a * m + b
    ensures x / m == a && x % m == b
  {
    var q := x / m;
    var r := x % m;
    assert x == q * m + r;
    assert (a - q) * m == r - b;
    if a > q { MulAtLeast(a - q, m); }
    if q > a { assert (q - a) * m == b - r; MulAtLeast(q - a, m); }
  }

  /** The bits of `x | 0` read as unsigned are those of `x` modulo 2^32. */
  lemma Int32Bits(x: int)
    ensures Int32(x) % 0x1_0000_0000 == x % 0x1_0000_0000
  {
    var m := x % 0x1_0000_0000;
    if m >= 0x8000_0000 {
      DivUnique(m - 0x1_0000_0000, -1, m, 0x1_0000_0000);
    } else {
      DivUnique(m, 0, m, 0x1_0000_0000);
    }
  }

  /** The low 24 bits of `x` are the low 24 bits of its low 32 bits. */
  lemma Low24OfLow32(x: int)
    ensures x % 0x1_0000_0000 % 0x100_0000 == x % 0x100_0000
  {
    var g := x / 0x1_0000_0000;
    var m := x % 0x1_0000_0000;
    var h := m / 0x100_0000;
    var l := m % 0x100_0000;
    assert x == (g * 256 + h) * 0x100_0000 + l;
    DivUnique(x, g * 256 + h, l, 0x100_0000);
  }

  /** `(x & 0xff0000) >> 16`, `(x & 0xff00) >> 8` and `x & 0xff` for `x` read as unsigned. */
  lemma ByteFields(x: int)
    requires 0 <= x
    ensures var l := x % 0x100_0000;
      && x / 0x1_0000 % 256 == l / 0x1_0000
      && x / 0x100 % 256 == l % 0x1_0000 / 0x100
      && x % 256 == l % 0x1_0000 % 0x100
      && l == l / 0x1_0000 * 0x1_0000 + l % 0x1_0000 / 0x100 * 0x100 + l % 0x1_0000 % 0x100
  {
    var h := x / 0x100_0000;
    var l := x % 0x100_0000;
    var a := l / 0x1_0000;
    var rest := l % 0x1_0000;
    var b := rest / 0x100;
    var c := rest % 0x100;
    assert x == h * 0x100_0000 + l;
    assert l == a * 0x1_0000 + rest;
    assert rest == b * 0x100 + c;
    DivUnique(x, h * 256 + a, rest, 0x1_0000);
    DivUnique(h * 256 + a, h, a, 256);
    DivUnique(x, h * 0x1_0000 + a * 256 + b, c, 0x100);
    DivUnique(h * 0x1_0000 + a * 256 + b, h * 256 + a, b, 256);
  }

  /** `(num & mask) >> shift` for a mask of eight bits starting at `shift`, on the 32-bit form of `num`. */
  function ByteAt(num: int, shift: nat): (r: int)
    requires shift == 0 || shift == 8 || shift == 16
    ensures 0 <= r < 256
  {
    var bits := Int32(num) % Two32;
    if shift == 16 then bits / 0x1_0000 % 256
    else if shift == 8 then bits / 0x100 % 256
    else bits % 256
  }

  /** The three bytes, most significant first, read back as one number: the low 24 bits of `num`. */
  lemma BytesAreLow24(num: int)
    ensures ByteAt(num, 16) * 0x1_0000 + ByteAt(num, 8) * 0x100 + ByteAt(num, 0) == num % Two24
  {
    var bits := Int32(num) % Two32;
    Int32Bits(num);
    Low24OfLow32(num);
    ByteFields(bits);
  }

  /** Character `v` of the base64 alphabet of section 4 of RFC 4648. */
  function Base64Char(v: int): (c: char)
    requires 0 <= v < 64
  {
    if v < 26 then ('A' as int + v) as char
    else if v < 52 then ('a' as int + v - 26) as char
    else if v < 62 then ('0' as int + v - 52) as char
    else if v == 62 then '+'
    else '/'
  }

  /** Character `v` of the base64url alphabet of section 5 of RFC 4648. */
  function UrlChar(v: int): (c: char)
    requires 0 <= v < 64
  {
    if v < 62 then Base64Char(v) else if v == 62 then '-' else '_'
  }

  /** `btoa` of three bytes: one 24-bit group cut into four 6-bit values, each
      written with the alphabet of section 4 of RFC 4648; no padding is needed. */
  function Base64Group(b0: int, b1: int, b2: int): (r: string)
    requires 0 <= b0 < 256 && 0 <= b1 < 256 && 0 <= b2 < 256
    ensures |r| == 4
  {
    var n := b0 * 0x1_0000 + b1 * 0x100 + b2;
    [Base64Char(n / 0x4_0000), Base64Char(n / 0x1000 % 64), Base64Char(n / 64 % 64), Base64Char(n % 64)]
  }

  /** `encodeInt24(num)`: the three low bytes, most significant first, in base64, then
      `.replace(/\+/g, '-').replace(/\//g, '_')`. */
  function EncodeInt24(num: int): (r: string)
    ensures |r| == 4
  {
    var b := Base64Group(ByteAt(num, 16), ByteAt(num, 8), ByteAt(num, 0));
    ReplaceChar(ReplaceChar(b, '+', '-'), '/', '_')
  }

  /** `hashAndEncode(str)` */
  function HashAndEncode(str: Option<string>): (r: string)
    ensures |r| == 4
  {
    EncodeInt24(Hash(str))
  }

  /** The two replacements turn the base64 alphabet into the base64url one. */
  lemma Replaced(v: int)
    requires 0 <= v < 64
    ensures var c := Base64Char(v);
      var c1 := if c == '+' then '-' else c;
      (if c1 == '/' then '_' else c1) == UrlChar(v)
  {
  }

  /** The position of a character in the base64url alphabet, or -1. */
  function UrlValue(c: char): (r: int)
    ensures -1 <= r < 64
    ensures r >= 0 ==> UrlChar(r) == c
  {
    if 'A' <= c <= 'Z' then c as int - 'A' as int
    else if 'a' <= c <= 'z' then c as int - 'a' as int + 26
    else if '0' <= c <= '9' then c as int - '0' as int + 52
    else if c == '-' then 62
    else if c == '_' then 63
    else -1
  }

  /** The base64url alphabet has 64 distinct characters. */
  lemma UrlValueOf(v: int)
    requires 0 <= v < 64
    ensures UrlValue(UrlChar(v)) == v
  {
  }

  /** Four base64url characters read back as the 24-bit number they encode. */
  function DecodeInt24(s: string): (r: Option<int>)
    ensures r.Some? ==> 0 <= r.value < Two24
  {
    if |s| != 4 || UrlValue(s[0]) < 0 || UrlValue(s[1]) < 0 || UrlValue(s[2]) < 0 || UrlValue(s[3]) < 0 then None
    else Some(UrlValue(s[0]) * 0x4_0000 + UrlValue(s[1]) * 0x1000 + UrlValue(s[2]) * 64 + UrlValue(s[3]))
  }

  /** Every character of the encoding is the base64url character of one 6-bit group of the low 24 bits. */
  lemma EncodeInt24Groups(num: int)
    ensures var n := num % Two24;
      && EncodeInt24(num)[0] == UrlChar(n / 0x4_0000)
      && EncodeInt24(num)[1] == UrlChar(n / 0x1000 % 64)
      && EncodeInt24(num)[2] == UrlChar(n / 64 % 64)
      && EncodeInt24(num)[3] == UrlChar(n % 64)
  {
    var n := num % Two24;
    BytesAreLow24(num);
    var b := Base64Group(ByteAt(num, 16), ByteAt(num, 8), ByteAt(num, 0));
    assert b == [Base64Char(n / 0x4_0000), Base64Char(n / 0x1000 % 64), Base64Char(n / 64 % 64), Base64Char(n % 64)];
    Replaced(n / 0x4_0000);
    Replaced(n / 0x1000 % 64);
    Replaced(n / 64 % 64);
    Replaced(n % 64);
  }

  /** The encoding is four characters of the base64url alphabet and decodes to the
      low 24 bits of the argument, so distinct 24-bit values encode differently. */
  lemma EncodeInt24RoundTrip(num: int)
    ensures forall i :: 0 <= i < 4 ==> UrlValue(EncodeInt24(num)[i]) >= 0
    ensures DecodeInt24(EncodeInt24(num)) == Some(num % Two24)
  {
    var n := num % Two24;
    EncodeInt24Groups(num);
    UrlValueOf(n / 0x4_0000);
    UrlValueOf(n / 0x1000 % 64);
    UrlValueOf(n / 64 % 64);
    UrlValueOf(n % 64);
    SixBitDigits(n);
  }

  /** A 24-bit number is the sum of its four 6-bit digits, most significant first. */
  lemma SixBitDigits(n: int)
    requires 0 <= n < Two24
    ensures 0 <= n / 0x4_0000 < 64
    ensures n / 0x4_0000 * 0x4_0000 + n / 0x1000 % 64 * 0x1000 + n / 64 % 64 * 64 + n % 64 == n
  {
    var a := n / 0x4_0000;
    var r1 := n % 0x4_0000;
    var b := r1 / 0x1000;
    var r2 := r1 % 0x1000;
    var c := r2 / 64;
    var d := r2 % 64;
    assert n == a * 0x4_0000 + b * 0x1000 + c * 64 + d;
    DivUnique(n, a * 64 + b, r2, 0x1000);
    DivUnique(a * 64 + b, a, b, 64);
    DivUnique(n, a * 0x1000 + b * 64 + c, d, 64);
    DivUnique(a * 0x1000 + b * 64 + c, a * 64 + b, c, 64);
  }

  /** Only the low 24 bits matter: arguments congruent modulo 2^24 encode the same. */
  lemma EncodeInt24Low24(a: int, b: int)
    requires a % Two24 == b % Two24
    ensures EncodeInt24(a) == EncodeInt24(b)
  {
    EncodeInt24Groups(a);
    EncodeInt24Groups(b);
  }

  // ---- encodeSmallInt / decodeSmallInt ----

  /** The counts one character can hold: `'A' + n` must be a character below the surrogates. */
  predicate SmallInt(n: int) {
    0 <= n && 'A' as int + n < 0xD800
  }

  /** `encodeSmallInt(num)`: `String.fromCharCode('A'.charCodeAt(0) + num)`. */
  function EncodeSmallInt(n: int): (r: string)
    requires SmallInt(n)
    ensures |r| == 1
  {
    [('A' as int + n) as char]
  }

  /** `decodeSmallInt(str)`: the first code unit less that of `'A'`; None is the NaN of an empty string. */
  function DecodeSmallInt(s: string): (r: Option<int>)
    ensures s == [] <==> r.None?
  {
    if s == [] then None else Some(CodeUnits(s)[0] - 'A' as int)
  }

  /** Decoding reads back every count that encoding can write, 0 to 25 among them. */
  lemma SmallIntRoundTrip(n: int)
    requires SmallInt(n)
    ensures DecodeSmallInt(EncodeSmallInt(n)) == Some(n)
  {
  }

  // ---- the record grammar ----

  /** `'B'` for a binding, `'G'` for a group of identical bindings. */
  datatype Kind = BindingRecord | GroupRecord

  function KindChar(k: Kind): char {
    match k
    case BindingRecord => 'B'
    case GroupRecord => 'G'
  }

  /** What `serialize` writes for one binding or group: its port or group name, its
      item name (`undefined` for an empty port) and the list of its children. */
  datatype Record = Record(kind: Kind, name: string, itemName: Option<string>, children: seq<Record>)

  /** One record as it is written and read back: the discriminator, the two
      four-character hashes, and the children. */
  datatype Token = Token(kind: char, name: string, value: string, children: seq<Token>)

  /** The tokens a list of records is written as. */
  function TokensOf(rs: seq<Record>): (ts: seq<Token>)
    ensures |ts| == |rs|
    decreases rs, 1
  {
    if rs == [] then [] else [TokenOf(rs[0])] + TokensOf(rs[1..])
  }

  /** `"B" + hashAndEncode(name) + hashAndEncode(itemName)` (`"G"` for a group), with the children. */
  function TokenOf(r: Record): Token
    decreases r, 0
  {
    Token(KindChar(r.kind), HashAndEncode(Some(r.name)), HashAndEncode(r.itemName), TokensOf(r.children))
  }

  /** Every list is short enough for its count to fit one character. */
  predicate Encodable(rs: seq<Record>) {
    SmallInt(|rs|) && forall i :: 0 <= i < |rs| ==> Encodable(rs[i].children)
  }

  /** The shape `serialize` writes: discriminators `'B'` or `'G'`, four-character hashes,
      and counts that fit one character. */
  predicate Writable(ts: seq<Token>) {
    SmallInt(|ts|) && forall i :: 0 <= i < |ts| ==> WritableToken(ts[i])
  }

  predicate WritableToken(t: Token) {
    (t.kind == 'B' || t.kind == 'G') && |t.name| == 4 && |t.value| == 4 && Writable(t.children)
  }

  lemma {:induction false} TokensWritable(rs: seq<Record>)
    requires Encodable(rs)
    ensures Writable(TokensOf(rs))
    decreases rs
  {
    forall i | 0 <= i < |rs| ensures WritableToken(TokensOf(rs)[i]) {
      TokensAt(rs, i);
      TokensWritable(rs[i].children);
    }
  }

  lemma {:induction false} TokensAt(rs: seq<Record>, i: nat)
    requires i < |rs|
    ensures TokensOf(rs)[i] == TokenOf(rs[i])
    decreases i
  {
    if i > 0 {
      TokensAt(rs[1..], i - 1);
    }
  }

  /** `encodeSmallInt(count) + result`: the count, then the records in order. */
  function WriteList(ts: seq<Token>): (r: string)
    requires Writable(ts)
    ensures |r| >= 1
    decreases ts, 2
  {
    EncodeSmallInt(|ts|) + WriteRecords(ts)
  }

  function WriteRecords(ts: seq<Token>): string
    requires forall i :: 0 <= i < |ts| ==> WritableToken(ts[i])
    decreases ts, 1
  {
    if ts == [] then "" else WriteRecord(ts[0]) + WriteRecords(ts[1..])
  }

  /** A record: the discriminator, the two hashes, and the list of children. */
  function WriteRecord(t: Token): (s: string)
    requires WritableToken(t)
    ensures |s| >= 10
    decreases t, 0
  {
    [t.kind] + t.name + t.value + WriteList(t.children)
  }

  /** `serialize`: the version `"2"`, then the top-level list. */
  function Serialize(rs: seq<Record>): (r: string)
    requires Encodable(rs)
    ensures |r| >= 2 && r[0] == '2'
  {
    TokensWritable(rs);
    "2" + WriteList(TokensOf(rs))
  }

  /** `str.substr(i, n)`: the characters from `i`, at most `n` of them, clipped to the end. */
  function Substr(s: string, i: nat, n: nat): (r: string)
    ensures i + n <= |s| ==> r == s[i..i + n]
    ensures i >= |s| ==> r == ""
  {
    if i >= |s| then "" else if i + n >= |s| then s[i..] else s[i..i + n]
  }

  /** The largest index reading can reach past the end of the text. */
  const Slack: nat := 14

  /** `walk(containers, index)` of `deserialize`, reading only: the count, then as many
      records; the index after them. A discriminator other than `'B'` or `'G'` throws;
      a missing count is NaN, and no record is read. */
  function ReadList(s: string, index: nat): (r: Result<(seq<Token>, nat)>)
    requires index <= |s| + Slack - 1
    ensures r.Ok? ==> index < r.value.1 <= |s| + Slack
    decreases |s| + Slack - index, 1, 0, 0
  {
    match DecodeSmallInt(Substr(s, index, 1))
    case None => Ok(([], index + 1))
    case Some(count) => ReadRecords(s, index + 1, count)
  }

  /** The `count` records of a list, from `index`. */
  function ReadRecords(s: string, index: nat, count: int): (r: Result<(seq<Token>, nat)>)
    requires index <= |s| + Slack
    ensures r.Ok? ==> index <= r.value.1 <= |s| + Slack
    ensures r.Ok? ==> count <= 0 ==> r.value == ([], index)
    decreases |s| + Slack - index, 0, count, 1
  {
    if count <= 0 then Ok(([], index))
    else
      var discriminator := Substr(s, index, 1);
      if discriminator != "B" && discriminator != "G" then Err(Thrown("Invalid discriminator '" + discriminator + "'"))
      else ReadRecord(s, index, count, discriminator[0])
  }

  /** One record whose discriminator has been read, then the ones after it. */
  function ReadRecord(s: string, index: nat, count: int, kind: char): (r: Result<(seq<Token>, nat)>)
    requires index < |s| && count > 0
    ensures r.Ok? ==> index <= r.value.1 <= |s| + Slack
    decreases |s| + Slack - index, 0, count, 0
  {
    var name := Substr(s, index + 1, 4);
    var value := Substr(s, index + 5, 4);
    var list :- ReadList(s, index + 9);
    RecordThen(s, Token(kind, name, value, list.0), list.1, count)
  }

  /** The record `t`, read up to `next`, followed by the `count - 1` records after it. */
  function RecordThen(s: string, t: Token, next: nat, count: int): (r: Result<(seq<Token>, nat)>)
    requires next <= |s| + Slack && count > 0
    ensures r.Ok? ==> next <= r.value.1 <= |s| + Slack
    decreases |s| + Slack - next, 0, count, 0
  {
    var more :- ReadRecords(s, next, count - 1);
    Ok(([t] + more.0, more.1))
  }

  /** `deserialize` reading only: version `"1"` skips twelve more characters of the old ship id. */
  function Deserialize(s: string): (r: Result<seq<Token>>)
    ensures |s| <= 1 ==> r == Ok([])
  {
    var prefix := if Substr(s, 0, 1) == "1" then 13 else 1;
    var (tokens, _) :- ReadList(s, prefix);
    Ok(tokens)
  }

  /** A reading result with its final index moved `k` characters on. */
  function Shifted(r: Result<(seq<Token>, nat)>, k: nat): Result<(seq<Token>, nat)> {
    match r
    case Err(e) => Err(e)
    case Ok((ts, j)) => Ok((ts, j + k))
  }

  /** Text in front of `b` moves every `substr` of `b` by its length. */
  lemma SubstrShift(q: string, b: string, i: nat, n: nat)
    ensures Substr(q + b, |q| + i, n) == Substr(b, i, n)
  {
    if i < |b| {
      if i + n >= |b| {
        assert (q + b)[|q| + i..] == b[i..];
      } else {
        assert (q + b)[|q| + i..|q| + i + n] == b[i..i + n];
      }
    }
  }

  /** Reading a list behind a prefix reads what the list alone holds. */
  lemma {:induction false} ReadListShift(q: string, b: string, i: nat)
    requires i <= |b| + Slack - 1
    ensures ReadList(q + b, |q| + i) == Shifted(ReadList(b, i), |q|)
    decreases |b| + Slack - i, 1, 0, 0
  {
    SubstrShift(q, b, i, 1);
    match DecodeSmallInt(Substr(b, i, 1))
    case None =>
    case Some(count) => ReadRecordsShift(q, b, i + 1, count);
  }

  lemma {:induction false} ReadRecordsShift(q: string, b: string, i: nat, count: int)
    requires i <= |b| + Slack
    ensures ReadRecords(q + b, |q| + i, count) == Shifted(ReadRecords(b, i, count), |q|)
    decreases |b| + Slack - i, 0, count, 1
  {
    if count > 0 {
      SubstrShift(q, b, i, 1);
      var discriminator := Substr(b, i, 1);
      if discriminator == "B" || discriminator == "G" {
        ReadRecordShift(q, b, i, count, discriminator[0]);
      }
    }
  }

  lemma {:induction false} ReadRecordShift(q: string, b: string, i: nat, count: int, kind: char)
    requires i < |b| && count > 0
    ensures ReadRecord(q + b, |q| + i, count, kind) == Shifted(ReadRecord(b, i, count, kind), |q|)
    decreases |b| + Slack - i, 0, count, 0
  {
    SubstrShift(q, b, i + 1, 4);
    SubstrShift(q, b, i + 5, 4);
    ReadListShift(q, b, i + 9);
    var children := ReadList(b, i + 9);
    if children.Ok? {
      var t := Token(kind, Substr(b, i + 1, 4), Substr(b, i + 5, 4), children.value.0);
      RecordThenShift(q, b, t, children.value.1, count);
    }
  }

  lemma {:induction false} RecordThenShift(q: string, b: string, t: Token, next: nat, count: int)
    requires next <= |b| + Slack && count > 0
    ensures RecordThen(q + b, t, |q| + next, count) == Shifted(RecordThen(b, t, next, count), |q|)
    decreases |b| + Slack - next, 0, count, 0
  {
    ReadRecordsShift(q, b, next, count - 1);
  }

  /** Version `"1"` carries a twelve-character ship id after the version; with it
      skipped, the text reads exactly as the same body under version `"2"`. */
  lemma VersionOneSkipsShipId(id: string, body: string)
    requires |id| == 12
    ensures Deserialize("1" + id + body) == Deserialize("2" + body)
  {
    assert ("1" + id + body)[0..1] == "1";
    assert ("2" + body)[0..1] == "2";
    ReadListShift("1" + id, body, 0);
    ReadListShift("2", body, 0);
    assert ("1" + id) + body == "1" + id + body;
  }

  /** `w` is written in `s` from position `i`. */
  predicate WrittenAt(s: string, i: nat, w: string) {
    i + |w| <= |s| && s[i..i + |w|] == w
  }

  /** A record header of one character and two of four, followed by `t`, read piece by piece. */
  lemma HeaderAt(s: string, i: nat, k: char, x: string, y: string, t: string)
    requires |x| == 4 && |y| == 4 && WrittenAt(s, i, [k] + x + y + t)
    ensures Substr(s, i, 1) == [k] && Substr(s, i + 1, 4) == x && Substr(s, i + 5, 4) == y
    ensures WrittenAt(s, i + 9, t)
  {
    SplitAt(s, i, [k] + x + y, t);
    SplitAt(s, i, [k] + x, y);
    SplitAt(s, i, [k], x);
  }

  /** Two pieces written one after the other. */
  lemma SplitAt(s: string, i: nat, a: string, b: string)
    requires WrittenAt(s, i, a + b)
    ensures WrittenAt(s, i, a) && WrittenAt(s, i + |a|, b)
  {
    assert s[i..i + |a|] == (a + b)[..|a|] == a;
    assert s[i + |a|..i + |a| + |b|] == (a + b)[|a|..] == b;
  }

  /** Reading what `WriteList` wrote, wherever it sits in the text, gives back the
      tokens and stops right after them. */
  lemma {:induction false} ReadListAt(s: string, i: nat, ts: seq<Token>)
    requires Writable(ts) && WrittenAt(s, i, WriteList(ts))
    ensures ReadList(s, i) == Ok((ts, i + |WriteList(ts)|))
    decreases ts, 1
  {
    var e := EncodeSmallInt(|ts|);
    SplitAt(s, i, e, WriteRecords(ts));
    assert Substr(s, i, 1) == e;
    SmallIntRoundTrip(|ts|);
    ReadRecordsAt(s, i + 1, ts);
  }

  /** One step of reading records: a header and a list of children, then the rest. */
  lemma ReadRecordsStep(s: string, i: nat, count: int, t: Token, next: nat, rest: seq<Token>, end: nat)
    requires i < |s| && count > 0 && (t.kind == 'B' || t.kind == 'G')
    requires Substr(s, i, 1) == [t.kind] && Substr(s, i + 1, 4) == t.name && Substr(s, i + 5, 4) == t.value
    requires next <= |s| + Slack
    requires ReadList(s, i + 9) == Ok((t.children, next))
    requires ReadRecords(s, next, count - 1) == Ok((rest, end))
    ensures ReadRecords(s, i, count) == Ok(([t] + rest, end))
  {
    assert [t.kind][0] == t.kind;
    assert RecordThen(s, t, next, count) == Ok(([t] + rest, end));
    assert ReadRecord(s, i, count, t.kind) == RecordThen(s, t, next, count);
  }

  /** The records of a list, read back from where they were written. */
  lemma {:induction false} ReadRecordsAt(s: string, i: nat, ts: seq<Token>)
    requires forall j :: 0 <= j < |ts| ==> WritableToken(ts[j])
    requires WrittenAt(s, i, WriteRecords(ts))
    ensures ReadRecords(s, i, |ts|) == Ok((ts, i + |WriteRecords(ts)|))
    decreases ts, 0
  {
    if ts != [] {
      var t, rest := ts[0], ts[1..];
      var head := WriteRecord(t);
      assert WriteRecords(ts) == head + WriteRecords(rest);
      SplitAt(s, i, head, WriteRecords(rest));
      RecordHeaderAt(s, i, t);
      ReadRecordsAt(s, i + |head|, rest);
      ReadRecordsStep(s, i, |ts|, t, i + |head|, rest, i + |head| + |WriteRecords(rest)|);
      assert [t] + rest == ts;
    }
  }

  /** The header of a written record reads back, and so does the list of its children. */
  lemma {:induction false} RecordHeaderAt(s: string, i: nat, t: Token)
    requires WritableToken(t) && WrittenAt(s, i, WriteRecord(t))
    ensures Substr(s, i, 1) == [t.kind] && Substr(s, i + 1, 4) == t.name && Substr(s, i + 5, 4) == t.value
    ensures ReadList(s, i + 9) == Ok((t.children, i + |WriteRecord(t)|))
    decreases t
  {
    HeaderAt(s, i, t.kind, t.name, t.value, WriteList(t.children));
    ReadListAt(s, i + 9, t.children);
  }

  /** `deserialize` reads back exactly the records `serialize` wrote: each discriminator,
      each name and item hash, and the nesting of the lists. */
  lemma SerializeRoundTrip(rs: seq<Record>)
    requires Encodable(rs)
    ensures Deserialize(Serialize(rs)) == Ok(TokensOf(rs))
  {
    var s := Serialize(rs);
    TokensWritable(rs);
    assert Substr(s, 0, 1) == "2" by { assert s[0..1] == "2"; }
    SplitAt(s, 0, "2", WriteList(TokensOf(rs)));
    ReadListAt(s, 1, TokensOf(rs));
  }
}
