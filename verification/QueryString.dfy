/** The query-string codec behind URLSearchParams (application/x-www-form-urlencoded,
    section 5 of the WHATWG URL Standard), on strings of octets. */
module QueryString {
  import opened Options

  /** One octet of UTF-8 text. */
  type Octet = c: char | c as int < 256 witness 'a'
  type Octets = seq<Octet>

  datatype Param = Param(name: Octets, value: Octets)

  // ---- percent encoding ----

  predicate Unreserved(c: Octet) {
    'a' <= c <= 'z' || 'A' <= c <= 'Z' || '0' <= c <= '9' || c == '*' || c == '-' || c == '.' || c == '_'
  }

  function HexDigit(n: nat): Octet
    requires n < 16
  {
    if n < 10 then (48 + n) as char else (55 + n) as char
  }

  predicate IsHex(c: Octet) {
    '0' <= c <= '9' || 'A' <= c <= 'F' || 'a' <= c <= 'f'
  }

  function HexValue(c: Octet): (n: nat)
    requires IsHex(c)
    ensures n < 16
  {
    if c <= '9' then c as int - 48 else if c <= 'F' then c as int - 55 else c as int - 87
  }

  function EncodeOctet(c: Octet): Octets {
    if c == ' ' then ['+']
    else if Unreserved(c) then [c]
    else ['%', HexDigit(c as int / 16), HexDigit(c as int % 16)]
  }

  function Encode(s: Octets): Octets {
    if s == [] then [] else EncodeOctet(s[0]) + Encode(s[1..])
  }

  /** A percent sign that no two hex digits follow stands for itself. */
  function Decode(s: Octets): Octets {
    if s == [] then []
    else if s[0] == '+' then [' '] + Decode(s[1..])
    else if s[0] == '%' && |s| >= 3 && IsHex(s[1]) && IsHex(s[2]) then
      [(16 * HexValue(s[1]) + HexValue(s[2])) as char] + Decode(s[3..])
    else [s[0]] + Decode(s[1..])
  }

  lemma DecodeEncodedOctet(c: Octet, t: Octets)
    ensures Decode(EncodeOctet(c) + t) == [c] + Decode(t)
  {
    var s := EncodeOctet(c) + t;
    if c == ' ' || Unreserved(c) {
      assert s[1..] == t;
    } else {
      var n := c as int;
      assert IsHex(s[1]) && IsHex(s[2]) && HexValue(s[1]) == n / 16 && HexValue(s[2]) == n % 16;
      assert s[3..] == t;
    }
  }

  /** Decoding gives back whatever was encoded. */
  lemma {:induction false} DecodeEncode(s: Octets)
    ensures Decode(Encode(s)) == s
  {
    if s == [] {
    } else {
      DecodeEncode(s[1..]);
      DecodeEncodedOctet(s[0], Encode(s[1..]));
    }
  }

  /** None of the characters that structure a URL. */
  predicate Plain(s: Octets) {
    '&' !in s && '=' !in s && '?' !in s
  }

  lemma {:induction false} EncodePlain(s: Octets)
    ensures Plain(Encode(s))
  {
    if s == [] {
    } else {
      EncodePlain(s[1..]);
      assert Plain(EncodeOctet(s[0]));
    }
  }

  /** Letters, digits and `*-._` stand for themselves, a blank becomes a plus sign,
      and every other octet a percent sign and two hex digits of its number. */
  lemma EncodedOctet(c: Octet)
    ensures var n, code := c as int, EncodeOctet(c);
      if 48 <= n <= 57 || 65 <= n <= 90 || 97 <= n <= 122 || n in {42, 45, 46, 95} then code == [c]
      else if n == 32 then code == "+"
      else |code| == 3 && code[0] == '%' && n == 16 * UpperHex(code[1]) + UpperHex(code[2])
  {}

  /** The value of a hex digit in upper case. */
  function UpperHex(c: Octet): int {
    var n := c as int;
    if 48 <= n <= 57 then n - 48 else if 65 <= n <= 70 then n - 55 else -1000
  }

  /** The value of a hex digit in either case. */
  function AnyHex(c: Octet): Option<nat> {
    var n := c as int;
    if 48 <= n <= 57 then Some(n - 48)
    else if 65 <= n <= 70 then Some(n - 55)
    else if 97 <= n <= 102 then Some(n - 87)
    else None
  }

  /** Two hex digits in either case are decoded; without them a percent sign stays. */
  lemma DecodedPercent(a: Octet, b: Octet, t: Octets)
    ensures Decode(['%', a, b] + t) ==
      if AnyHex(a).Some? && AnyHex(b).Some? then [(16 * AnyHex(a).value + AnyHex(b).value) as char] + Decode(t)
      else ['%'] + Decode([a, b] + t)
  {
    var s := ['%', a, b] + t;
    assert s[3..] == t && s[1..] == [a, b] + t;
  }

  // ---- parsing and serializing ----

  /** The position of the first `c`, or the length when there is none. */
  function IndexOf(s: Octets, c: Octet): (i: nat)
    ensures i <= |s|
    ensures c !in s[..i]
    ensures i < |s| <==> c in s
    ensures i < |s| ==> s[i] == c
  {
    if s == [] then 0
    else if s[0] == c then 0
    else
      assert s == [s[0]] + s[1..];
      1 + IndexOf(s[1..], c)
  }

  lemma {:induction false} IndexOfFirst(s: Octets, c: Octet, t: Octets)
    requires c !in s
    ensures IndexOf(s + [c] + t, c) == |s|
    ensures IndexOf(s, c) == |s|
  {
    if s == [] {
    } else {
      IndexOfFirst(s[1..], c, t);
      assert (s + [c] + t)[1..] == s[1..] + [c] + t;
    }
  }

  function Fields(s: Octets): seq<Octets>
    decreases |s|
  {
    var i := IndexOf(s, '&');
    if i == |s| then [s] else [s[..i]] + Fields(s[i + 1..])
  }

  function ParseField(f: Octets): Param {
    var i := IndexOf(f, '=');
    Param(Decode(f[..i]), Decode(if i == |f| then [] else f[i + 1..]))
  }

  function ParseFields(fields: seq<Octets>): seq<Param> {
    if fields == [] then []
    else if fields[0] == [] then ParseFields(fields[1..])
    else [ParseField(fields[0])] + ParseFields(fields[1..])
  }

  function Parse(query: Octets): seq<Param> {
    ParseFields(Fields(query))
  }

  function SerializeParam(p: Param): Octets {
    Encode(p.name) + ['='] + Encode(p.value)
  }

  function Serialize(params: seq<Param>): Octets {
    if params == [] then []
    else if |params| == 1 then SerializeParam(params[0])
    else SerializeParam(params[0]) + ['&'] + Serialize(params[1..])
  }

  lemma ParseSerializedParam(p: Param)
    ensures ParseField(SerializeParam(p)) == p
    ensures SerializeParam(p) != [] && '&' !in SerializeParam(p) && '?' !in SerializeParam(p)
  {
    EncodePlain(p.name);
    EncodePlain(p.value);
    DecodeEncode(p.name);
    DecodeEncode(p.value);
    IndexOfFirst(Encode(p.name), '=', Encode(p.value));
    assert SerializeParam(p)[..|Encode(p.name)|] == Encode(p.name);
    assert SerializeParam(p)[|Encode(p.name)| + 1..] == Encode(p.value);
  }

  lemma FieldsSplit(piece: Octets, rest: Octets)
    requires '&' !in piece
    ensures Fields(piece) == [piece]
    ensures Fields(piece + ['&'] + rest) == [piece] + Fields(rest)
  {
    var all := piece + ['&'] + rest;
    IndexOfFirst(piece, '&', rest);
    assert all[..|piece|] == piece && all[|piece| + 1..] == rest;
  }

  lemma ParseFirstField(piece: Octets, fields: seq<Octets>)
    ensures ParseFields([piece]) == if piece == [] then [] else [ParseField(piece)]
    ensures ParseFields([piece] + fields) == ParseFields([piece]) + ParseFields(fields)
  {
    assert ([piece] + fields)[1..] == fields && [piece][1..] == [];
  }

  /** A query is parsed piece by piece, split at each ampersand; empty pieces count for nothing. */
  lemma ParsePieces(piece: Octets, rest: Octets)
    requires '&' !in piece
    ensures Parse(piece) == if piece == [] then [] else [ParseField(piece)]
    ensures Parse(piece + ['&'] + rest) == Parse(piece) + Parse(rest)
  {
    FieldsSplit(piece, rest);
    ParseFirstField(piece, Fields(rest));
  }

  /** Parsing gives back every list of parameters that was serialized, with
      empty, repeated and reserved names and values. */
  lemma {:induction false} ParseSerialize(params: seq<Param>)
    ensures Parse(Serialize(params)) == params
  {
    if params == [] {
      ParsePieces([], []);
    } else {
      ParseSerializedParam(params[0]);
      ParseSerialize(params[1..]);
      ParsePieces(SerializeParam(params[0]), Serialize(params[1..]));
      assert [params[0]] + params[1..] == params;
    }
  }

  lemma {:induction false} SerializeShape(params: seq<Param>)
    ensures '?' !in Serialize(params)
    ensures params != [] ==> Serialize(params) != []
  {
    if params == [] {
    } else {
      ParseSerializedParam(params[0]);
      SerializeShape(params[1..]);
    }
  }

  /** A piece is split at its first equals sign; without one it has no value. */
  lemma ParsePiece(name: Octets, value: Octets)
    requires '=' !in name
    ensures ParseField(name + ['='] + value) == Param(Decode(name), Decode(value))
    ensures ParseField(name) == Param(Decode(name), [])
  {
    IndexOfFirst(name, '=', value);
    assert (name + ['='] + value)[..|name|] == name && (name + ['='] + value)[|name| + 1..] == value;
    assert name[..|name|] == name;
  }

  /** A plus sign is a blank, and other octets but the percent sign are themselves. */
  lemma DecodedOther(c: Octet, t: Octets)
    ensures c == '+' ==> Decode([c] + t) == [' '] + Decode(t)
    ensures c != '+' && c != '%' ==> Decode([c] + t) == [c] + Decode(t)
    ensures |t| < 2 ==> Decode(['%'] + t) == ['%'] + Decode(t)
  {
    assert ([c] + t)[1..] == t && (['%'] + t)[1..] == t;
  }

  // ---- looking up and setting a parameter ----

  function Get(params: seq<Param>, name: Octets): Option<Octets> {
    if params == [] then None
    else if params[0].name == name then Some(params[0].value)
    else Get(params[1..], name)
  }

  function Others(params: seq<Param>, name: Octets): seq<Param> {
    if params == [] then []
    else if params[0].name == name then Others(params[1..], name)
    else [params[0]] + Others(params[1..], name)
  }

  /** The first occurrence takes the value and the others go; with none, it is appended. */
  function Set(params: seq<Param>, name: Octets, value: Octets): seq<Param> {
    if params == [] then [Param(name, value)]
    else if params[0].name == name then [Param(name, value)] + Others(params[1..], name)
    else [params[0]] + Set(params[1..], name, value)
  }

  lemma {:induction false} GetAfterSet(params: seq<Param>, name: Octets, value: Octets)
    ensures Get(Set(params, name, value), name) == Some(value)
    ensures Others(Set(params, name, value), name) == Others(params, name)
    ensures Set(params, name, value) != []
  {
    if params == [] {
      assert Others([Param(name, value)], name) == [];
    } else if params[0].name == name {
      OthersTwice(params[1..], name);
      assert ([Param(name, value)] + Others(params[1..], name))[1..] == Others(params[1..], name);
    } else {
      GetAfterSet(params[1..], name, value);
      assert ([params[0]] + Set(params[1..], name, value))[1..] == Set(params[1..], name, value);
    }
  }

  lemma {:induction false} OthersTwice(params: seq<Param>, name: Octets)
    ensures Others(Others(params, name), name) == Others(params, name)
  {
    if params == [] {
    } else {
      OthersTwice(params[1..], name);
      if params[0].name != name {
        assert ([params[0]] + Others(params[1..], name))[1..] == Others(params[1..], name);
      }
    }
  }

  /** Looking up finds the first parameter of the name, and setting puts the value
      in its place and drops later ones. */
  lemma {:induction false} FirstOfName(front: seq<Param>, p: Param, back: seq<Param>, value: Octets)
    requires forall q :: q in front ==> q.name != p.name
    ensures Get(front + [p] + back, p.name) == Some(p.value)
    ensures Set(front + [p] + back, p.name, value) == front + [Param(p.name, value)] + Others(back, p.name)
  {
    var all := front + [p] + back;
    if front == [] {
      assert all[1..] == back;
    } else {
      assert front[0] in front && forall q :: q in front[1..] ==> q in front;
      assert all[1..] == front[1..] + [p] + back;
      FirstOfName(front[1..], p, back, value);
      var rest := front[1..] + [Param(p.name, value)] + Others(back, p.name);
      assert [front[0]] + rest == front + [Param(p.name, value)] + Others(back, p.name);
    }
  }

  /** The others of a name are all the parameters but those, in their order. */
  lemma {:induction false} OthersOf(params: seq<Param>, name: Octets, p: Param)
    ensures Others(params + [p], name) == Others(params, name) + if p.name == name then [] else [p]
  {
    if params == [] {
      assert [] + [p] == [p] && Others([p][1..], name) == [];
    } else {
      OthersOf(params[1..], name, p);
      assert (params + [p])[1..] == params[1..] + [p];
    }
  }
}
