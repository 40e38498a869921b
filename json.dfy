/** The parsed query string as the handlers see it (`req.query`), and the two
    JavaScript conversions applied to it: `JSON.stringify` and `String(...)`. */
module Json {
  import opened Common
  import opened JsRuntime

  /** A value of the parsed query string: a string (`a=1`), an array (`a=1&a=2`)
      or a nested object (`a[gte]=1`). Objects keep their keys in insertion order. */
  datatype QueryValue = Str(s: string) | Arr(items: seq<QueryValue>) | Obj(props: Props)

  type Props = seq<(string, QueryValue)>

  /** `obj[key]`: the value of the first property named `key`, if any. */
  function Lookup(props: Props, key: string): (r: Option<QueryValue>)
    ensures r.Some? <==> exists i :: 0 <= i < |props| && props[i].0 == key
  {
    if props == [] then None
    else if props[0].0 == key then Some(props[0].1)
    else Lookup(props[1..], key)
  }

  /** A found value is the value of the first property named `key`. */
  lemma {:induction false} LookupFound(props: Props, key: string)
    ensures Lookup(props, key).Some? ==>
      exists i :: 0 <= i < |props| && props[i] == (key, Lookup(props, key).value) &&
        forall j :: 0 <= j < i ==> props[j].0 != key
  {
    if props != [] && props[0].0 != key {
      LookupFound(props[1..], key);
      if Lookup(props, key).Some? {
        var i :| 0 <= i < |props[1..]| && props[1..][i] == (key, Lookup(props, key).value) &&
          forall j :: 0 <= j < i ==> props[1..][j].0 != key;
        assert props[i + 1] == (key, Lookup(props, key).value);
        assert forall j :: 0 <= j < i + 1 ==> props[j].0 != key by {
          forall j | 0 <= j < i + 1 ensures props[j].0 != key {
            if j > 0 {
              assert props[j] == props[1..][j - 1];
            }
          }
        }
      }
    }
  }

  /** Conversely, the value of the first property named `key` is what is found. */
  lemma {:induction false} LookupFirst(props: Props, key: string, i: nat)
    requires i < |props| && props[i].0 == key
    requires forall j :: 0 <= j < i ==> props[j].0 != key
    ensures Lookup(props, key) == Some(props[i].1)
  {
    if i > 0 {
      assert props[0].0 != key;
      LookupFirst(props[1..], key, i - 1);
    }
  }

  // ---------------------------------------------------------------------------
  // String(value)

  /** `String(v)`: a string is itself, an array is its elements' strings joined
      by commas (`Array.prototype.toString`), a plain object is `[object Object]`. */
  function ToJsString(v: QueryValue): string
    decreases v
  {
    match v
    case Str(s) => s
    case Arr(items) => Join(seq(|items|, i requires 0 <= i < |items| => ToJsString(items[i])), ',')
    case Obj(_) => "[object Object]"
  }

  /** What a built-in that converts its argument to a string sees: an absent
      query parameter is `undefined`, which converts to the text `undefined`. */
  function ArgumentString(v: Option<QueryValue>): string {
    match v
    case None => "undefined"
    case Some(x) => ToJsString(x)
  }

  // ---------------------------------------------------------------------------
  // JSON.stringify

  /** The lower-case hexadecimal digit of `d`. */
  function HexDigit(d: nat): char
    requires d < 16
  {
    if d < 10 then ('0' as int + d) as char else ('a' as int + d - 10) as char
  }

  /** One character of a string as QuoteJSONString writes it: `"` and `\` and the
      control characters below U+0020 are escaped, the short forms `\b \t \n \f \r`
      where they exist and `\u00xx` in lower-case hexadecimal otherwise. */
  function EscapeChar(c: char): string {
    if c == '"' then "\\\""
    else if c == '\\' then "\\\\"
    else if c == '\U{8}' then "\\b"
    else if c == '\t' then "\\t"
    else if c == '\n' then "\\n"
    else if c == '\U{C}' then "\\f"
    else if c == '\r' then "\\r"
    else if (c as int) < 0x20 then "\\u00" + [HexDigit(c as int / 16), HexDigit(c as int % 16)]
    else [c]
  }

  function EscapeChars(s: string): string {
    if s == [] then [] else EscapeChar(s[0]) + EscapeChars(s[1..])
  }

  /** QuoteJSONString: the JSON string literal for `s`. */
  function Quote(s: string): string {
    "\"" + EscapeChars(s) + "\""
  }

  /** `JSON.stringify(v)` for the values a query string parses to. */
  function Stringify(v: QueryValue): string
    decreases v
  {
    match v
    case Str(s) => Quote(s)
    case Arr(items) =>
      "[" + Join(seq(|items|, i requires 0 <= i < |items| => Stringify(items[i])), ',') + "]"
    case Obj(props) =>
      "{" + Join(seq(|props|, i requires 0 <= i < |props| => Quote(props[i].0) + ":" + Stringify(props[i].1)), ',') + "}"
  }

  // ---------------------------------------------------------------------------
  // Reading escaped text back (the string part of JSON.parse)

  predicate IsHexDigit(c: char) {
    '0' <= c <= '9' || 'a' <= c <= 'f' || 'A' <= c <= 'F'
  }

  function HexValue(c: char): (v: nat)
    requires IsHexDigit(c)
    ensures v < 16
  {
    if '0' <= c <= '9' then c as int - '0' as int
    else if 'a' <= c <= 'f' then c as int - 'a' as int + 10
    else c as int - 'A' as int + 10
  }

  /** The code unit four hexadecimal digits spell, most significant first. */
  function HexQuadValue(a: char, b: char, c: char, d: char): (n: nat)
    requires IsHexDigit(a) && IsHexDigit(b) && IsHexDigit(c) && IsHexDigit(d)
    ensures n < 0x1_0000
  {
    ((HexValue(a) * 16 + HexValue(b)) * 16 + HexValue(c)) * 16 + HexValue(d)
  }

  /** The characters that may follow a backslash in a two-character escape. */
  predicate IsShortEscape(c: char) {
    c == '"' || c == '\\' || c == '/' || c == 'b' || c == 'f' || c == 'n' || c == 'r' || c == 't'
  }

  /** The character a two-character escape `\c` stands for. */
  function ShortEscapeValue(c: char): char {
    if c == 'b' then '\U{8}' else if c == 'f' then '\U{C}' else if c == 'n' then '\n'
    else if c == 'r' then '\r' else if c == 't' then '\t' else c
  }

  /** Decodes the escape sequences of a JSON string body. A `\u` escape of a
      surrogate code unit, which no Dafny character can hold, is kept as text. */
  function Unescape(t: string): string
    decreases |t|
  {
    if t == [] then []
    else if t[0] == '\\' && |t| >= 2 && IsShortEscape(t[1]) then
      [ShortEscapeValue(t[1])] + Unescape(t[2..])
    else if t[0] == '\\' && |t| >= 6 && t[1] == 'u' &&
            IsHexDigit(t[2]) && IsHexDigit(t[3]) && IsHexDigit(t[4]) && IsHexDigit(t[5]) then
      var n := HexQuadValue(t[2], t[3], t[4], t[5]);
      if n < 0xD800 || 0xDFFF < n then [n as char] + Unescape(t[6..]) else [t[0]] + Unescape(t[1..])
    else [t[0]] + Unescape(t[1..])
  }

  /** Decoding one escaped character gives the character back. */
  lemma UnescapeEscapeChar(c: char, rest: string)
    ensures Unescape(EscapeChar(c) + rest) == [c] + Unescape(rest)
  {
    if c == '"' || c == '\\' || c == '\U{8}' || c == '\t' || c == '\n' || c == '\U{C}' || c == '\r' {
      UnescapeShort(c, rest);
    } else if (c as int) < 0x20 {
      UnescapeControl(c, rest);
    } else {
      var t := EscapeChar(c) + rest;
      assert t[0] == c && t[1..] == rest;
    }
  }

  lemma UnescapeShort(c: char, rest: string)
    requires c == '"' || c == '\\' || c == '\U{8}' || c == '\t' || c == '\n' || c == '\U{C}' || c == '\r'
    ensures Unescape(EscapeChar(c) + rest) == [c] + Unescape(rest)
  {
    var e := EscapeChar(c);
    assert |e| == 2 && e[0] == '\\' && IsShortEscape(e[1]) && ShortEscapeValue(e[1]) == c;
    var t := e + rest;
    assert t[0] == e[0] && t[1] == e[1] && t[2..] == rest;
  }

  lemma UnescapeControl(c: char, rest: string)
    requires (c as int) < 0x20
    requires !(c == '"' || c == '\\' || c == '\U{8}' || c == '\t' || c == '\n' || c == '\U{C}' || c == '\r')
    ensures Unescape(EscapeChar(c) + rest) == [c] + Unescape(rest)
  {
    var hi, lo := c as int / 16, c as int % 16;
    var e := EscapeChar(c);
    assert e == "\\u00" + [HexDigit(hi), HexDigit(lo)];
    var t := e + rest;
    assert t[0] == '\\' && t[1] == 'u' && t[2] == '0' && t[3] == '0';
    assert t[4] == HexDigit(hi) && t[5] == HexDigit(lo);
    assert HexValue(HexDigit(hi)) == hi && HexValue(HexDigit(lo)) == lo;
    assert HexQuadValue(t[2], t[3], t[4], t[5]) == c as int;
    assert t[6..] == rest;
  }

  /** Decoding the escapes gives back the string JSON.stringify quoted. */
  lemma {:induction false} UnescapeEscapeChars(s: string)
    ensures Unescape(EscapeChars(s)) == s
  {
    if s != [] {
      UnescapeEscapeChars(s[1..]);
      UnescapeEscapeChar(s[0], EscapeChars(s[1..]));
      assert s == [s[0]] + s[1..];
    }
  }
}
