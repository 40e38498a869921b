/** The JavaScript built-ins the handlers and schemas lean on, as ECMA-262 defines them:
    white space, `String.prototype.trim`, `String.prototype.length` (UTF-16 code units),
    `parseInt` with radix 10, `String.prototype.split` and `Array.prototype.join`. */
module JsRuntime {
  import opened Common

  // ---------------------------------------------------------------------------
  // White space and trimming

  /** WhiteSpace of ECMA-262: TAB, VT, FF, ZWNBSP and every code point of general
      category Space_Separator (Zs). */
  predicate IsWhiteSpace(c: char) {
    c == '\t' || c == '\U{B}' || c == '\U{C}' || c == '\U{FEFF}' ||
    c == ' ' || c == '\U{A0}' || c == '\U{1680}' || ('\U{2000}' <= c <= '\U{200A}') ||
    c == '\U{202F}' || c == '\U{205F}' || c == '\U{3000}'
  }

  /** LineTerminator of ECMA-262: LF, CR, LINE SEPARATOR, PARAGRAPH SEPARATOR. */
  predicate IsLineTerminator(c: char) {
    c == '\n' || c == '\r' || c == '\U{2028}' || c == '\U{2029}'
  }

  /** StrWhiteSpaceChar: what `trim` and `parseInt` skip. */
  predicate IsStrWhiteSpace(c: char) {
    IsWhiteSpace(c) || IsLineTerminator(c)
  }

  predicate AllStrWhiteSpace(s: string) {
    forall i :: 0 <= i < |s| ==> IsStrWhiteSpace(s[i])
  }

  /** Drops the leading white space: the result is the longest suffix of `s`
      that does not start with white space, and everything dropped is white space. */
  function TrimStart(s: string): (r: string)
    ensures |r| <= |s| && r == s[|s| - |r|..]
    ensures AllStrWhiteSpace(s[..|s| - |r|])
    ensures r == [] || !IsStrWhiteSpace(r[0])
  {
    if s != [] && IsStrWhiteSpace(s[0]) then TrimStart(s[1..]) else s
  }

  /** Drops the trailing white space, symmetrically to TrimStart. */
  function TrimEnd(s: string): (r: string)
    ensures |r| <= |s| && r == s[..|r|]
    ensures AllStrWhiteSpace(s[|r|..])
    ensures r == [] || !IsStrWhiteSpace(r[|r| - 1])
  {
    if s != [] && IsStrWhiteSpace(s[|s| - 1]) then TrimEnd(s[..|s| - 1]) else s
  }

  /** `String.prototype.trim`: the schemas' `trim: true` setter. */
  function Trim(s: string): string {
    TrimEnd(TrimStart(s))
  }

  lemma TrimStartOfTrimmed(s: string)
    requires s == [] || !IsStrWhiteSpace(s[0])
    ensures TrimStart(s) == s
  {
  }

  lemma TrimEndOfTrimmed(s: string)
    requires s == [] || !IsStrWhiteSpace(s[|s| - 1])
    ensures TrimEnd(s) == s
  {
  }

  /** A string `trim` leaves alone: it neither starts nor ends with white space. */
  predicate IsTrimmed(s: string) {
    s == [] || (!IsStrWhiteSpace(s[0]) && !IsStrWhiteSpace(s[|s| - 1]))
  }

  /** `trim` yields a trimmed string, and a string is trimmed exactly when `trim`
      returns it unchanged. */
  lemma TrimCharacterised(s: string)
    ensures IsTrimmed(Trim(s))
    ensures IsTrimmed(s) <==> Trim(s) == s
  {
    var t := TrimStart(s);
    var u := TrimEnd(t);
    if u != [] {
      assert u[0] == t[0];
    }
    if IsTrimmed(s) {
      TrimStartOfTrimmed(s);
      TrimEndOfTrimmed(s);
    }
  }

  /** Trimming a trimmed string changes nothing. */
  lemma TrimIdempotent(s: string)
    ensures Trim(Trim(s)) == Trim(s)
  {
    var t := TrimStart(s);
    var u := TrimEnd(t);
    if u != [] {
      assert u[0] == t[0];
    }
    TrimStartOfTrimmed(u);
    TrimEndOfTrimmed(u);
  }

  lemma {:induction false} TrimStartSkipsWhiteSpace(ws: string, s: string)
    requires AllStrWhiteSpace(ws)
    requires s == [] || !IsStrWhiteSpace(s[0])
    ensures TrimStart(ws + s) == s
  {
    if ws != [] {
      assert (ws + s)[1..] == ws[1..] + s;
      TrimStartSkipsWhiteSpace(ws[1..], s);
    }
  }

  /** `length` of a JavaScript string counts UTF-16 code units: a code point
      above U+FFFF takes two (a surrogate pair). */
  function Utf16Length(s: string): (n: nat)
    ensures |s| <= n <= 2 * |s|
    ensures (forall i :: 0 <= i < |s| ==> s[i] as int <= 0xFFFF) ==> n == |s|
  {
    if s == [] then 0 else (if s[0] as int > 0xFFFF then 2 else 1) + Utf16Length(s[1..])
  }

  /** A single character is one unit, or two (a surrogate pair) above U+FFFF. */
  lemma Utf16LengthChar(c: char)
    ensures Utf16Length([c]) == if c as int > 0xFFFF then 2 else 1
  {
  }

  /** The length of a concatenation is the sum of the lengths. */
  lemma {:induction false} Utf16LengthAppend(s: string, t: string)
    ensures Utf16Length(s + t) == Utf16Length(s) + Utf16Length(t)
  {
    if s != [] {
      assert (s + t)[0] == s[0] && (s + t)[1..] == s[1..] + t;
      Utf16LengthAppend(s[1..], t);
    } else {
      assert s + t == t;
    }
  }

  /** A string made only of characters above U+FFFF is twice as long in units. */
  lemma {:induction false} Utf16LengthAstral(s: string)
    requires forall i :: 0 <= i < |s| ==> s[i] as int > 0xFFFF
    ensures Utf16Length(s) == 2 * |s|
  {
    if s != [] {
      Utf16LengthAstral(s[1..]);
    }
  }

  // ---------------------------------------------------------------------------
  // parseInt(string, 10)

  predicate IsDigit(c: char) {
    '0' <= c <= '9'
  }

  predicate AllDigits(s: string) {
    forall i :: 0 <= i < |s| ==> IsDigit(s[i])
  }

  function DigitValue(c: char): (d: nat)
    requires IsDigit(c)
    ensures d < 10
  {
    c as int - '0' as int
  }

  function DigitChar(d: nat): (c: char)
    requires d < 10
    ensures IsDigit(c) && DigitValue(c) == d
  {
    ('0' as int + d) as char
  }

  /** The length of the longest prefix of `s` made of decimal digits. */
  function LeadingDigits(s: string): (k: nat)
    ensures k <= |s| && AllDigits(s[..k])
    ensures k == |s| || !IsDigit(s[k])
  {
    if s != [] && IsDigit(s[0]) then 1 + LeadingDigits(s[1..]) else 0
  }

  /** The mathematical value of a string of decimal digits. */
  function DecimalValue(d: string): nat
    requires AllDigits(d)
    decreases |d|
  {
    if d == [] then 0 else 10 * DecimalValue(d[..|d| - 1]) + DigitValue(d[|d| - 1])
  }

  /** `t` without its leading sign character, if it has one. */
  function DropSign(t: string): string {
    if t != [] && (t[0] == '+' || t[0] == '-') then t[1..] else t
  }

  /** The value of the leading run of decimal digits of `u`, or `None` when `u`
      does not start with a digit. */
  function ParseDigits(u: string): Option<nat> {
    var k := LeadingDigits(u);
    if k == 0 then None else Some(DecimalValue(u[..k]))
  }

  /** `parseInt(s, 10)` (ECMA-262, section 19.2.5), with `None` for NaN: skip leading
      white space, take an optional sign, then the longest run of decimal digits; no
      digits gives NaN. With radix 10 no `0x` prefix is recognised, and a zero
      (including `-0`) is returned as 0. */
  function ParseInt(s: string): Option<int> {
    ParseTrimmed(TrimStart(s))
  }

  /** parseInt of a text that no longer starts with white space. */
  function ParseTrimmed(t: string): Option<int> {
    match ParseDigits(DropSign(t))
    case None => None
    case Some(v) => Some(if t != [] && t[0] == '-' then -(v as int) else v as int)
  }

  /** The shortest decimal rendering of a natural number. */
  function Decimal(n: nat): (d: string)
    ensures |d| > 0 && AllDigits(d)
  {
    if n < 10 then [DigitChar(n)] else Decimal(n / 10) + [DigitChar(n % 10)]
  }

  /** The decimal rendering of an integer, with a leading `-` when negative. */
  function IntToString(n: int): string {
    if n < 0 then "-" + Decimal(-n) else Decimal(n)
  }

  lemma {:induction false} DecimalValueOfDecimal(n: nat)
    ensures DecimalValue(Decimal(n)) == n
  {
    var d := Decimal(n);
    if n >= 10 {
      assert d[..|d| - 1] == Decimal(n / 10);
      DecimalValueOfDecimal(n / 10);
    }
  }

  lemma {:induction false} LeadingDigitsOfDigits(d: string, tail: string)
    requires AllDigits(d)
    requires tail == [] || !IsDigit(tail[0])
    ensures LeadingDigits(d + tail) == |d|
  {
    if d != [] {
      assert (d + tail)[1..] == d[1..] + tail;
      LeadingDigitsOfDigits(d[1..], tail);
    }
  }

  /** parseInt reads back any integer written in decimal, whatever white space
      precedes it and whatever non-digit text follows it. The bound is the range
      in which a JavaScript number holds every integer exactly (2^53). */
  lemma {:induction false} ParseIntReadsDecimal(ws: string, n: int, tail: string)
    requires -MaxSafeInteger <= n <= MaxSafeInteger
    requires AllStrWhiteSpace(ws)
    requires tail == [] || !IsDigit(tail[0])
    ensures ParseInt(ws + IntToString(n) + tail) == Some(n)
  {
    var x := IntToString(n) + tail;
    assert ws + IntToString(n) + tail == ws + x;
    IntToStringStart(n);
    assert x[0] == IntToString(n)[0];
    ParseIntSkipsWhiteSpace(ws, x);
    ParseIntUnpadded(n, tail);
  }

  /** 2^53: up to here every integer is exactly a JavaScript number. */
  const MaxSafeInteger: int := 0x20_0000_0000_0000

  lemma IntToStringStart(n: int)
    ensures IntToString(n) != [] && (IntToString(n)[0] == '-' || IsDigit(IntToString(n)[0]))
  {
    if n >= 0 {
      assert IsDigit(Decimal(n)[0]);
    }
  }

  /** parseInt ignores leading white space. */
  lemma ParseIntSkipsWhiteSpace(ws: string, x: string)
    requires AllStrWhiteSpace(ws)
    requires x == [] || !IsStrWhiteSpace(x[0])
    ensures ParseInt(ws + x) == ParseInt(x)
  {
    calc {
      ParseInt(ws + x);
      ParseTrimmed(TrimStart(ws + x));
      { TrimStartSkipsWhiteSpace(ws, x); }
      ParseTrimmed(x);
      { TrimStartOfTrimmed(x); }
      ParseTrimmed(TrimStart(x));
      ParseInt(x);
    }
  }

  lemma {:induction false} ParseIntUnpadded(n: int, tail: string)
    requires tail == [] || !IsDigit(tail[0])
    ensures ParseInt(IntToString(n) + tail) == Some(n)
  {
    if n < 0 {
      var m: nat := -n;
      assert IntToString(n) == "-" + Decimal(m);
      ParseIntNegative(m, tail);
    } else {
      var m: nat := n;
      assert IntToString(n) == Decimal(m);
      ParseIntNonNegative(m, tail);
    }
  }

  lemma {:induction false} ParseIntNegative(m: nat, tail: string)
    requires tail == [] || !IsDigit(tail[0])
    ensures ParseInt("-" + Decimal(m) + tail) == Some(-(m as int))
  {
    var u := Decimal(m) + tail;
    ParseDigitsOfDecimal(m, tail);
    var x := "-" + Decimal(m) + tail;
    assert x == ['-'] + u;
    assert x[1..] == u;
    assert DropSign(x) == u;
    ParseIntOfUnpadded(x, m);
  }

  lemma {:induction false} ParseIntNonNegative(m: nat, tail: string)
    requires tail == [] || !IsDigit(tail[0])
    ensures ParseInt(Decimal(m) + tail) == Some(m as int)
  {
    var d := Decimal(m);
    var x := d + tail;
    ParseDigitsOfDecimal(m, tail);
    assert IsDigit(d[0]);
    assert x[0] == d[0];
    assert DropSign(x) == x;
    ParseIntOfUnpadded(x, m);
  }

  lemma ParseIntOfUnpadded(x: string, m: nat)
    requires x != [] && (x[0] == '-' || IsDigit(x[0]))
    requires ParseDigits(DropSign(x)) == Some(m)
    ensures ParseInt(x) == Some(if x[0] == '-' then -(m as int) else m as int)
  {
    assert !IsStrWhiteSpace(x[0]);
    TrimStartOfTrimmed(x);
  }

  lemma {:induction false} ParseDigitsOfDecimal(m: nat, tail: string)
    requires tail == [] || !IsDigit(tail[0])
    ensures ParseDigits(Decimal(m) + tail) == Some(m)
  {
    var d := Decimal(m);
    var u := d + tail;
    LeadingDigitsOfDigits(d, tail);
    assert u[..|d|] == d;
    DecimalValueOfDecimal(m);
  }

  /** parseInt yields NaN exactly when, after the white space and an optional sign,
      no decimal digit follows. */
  lemma ParseIntNaN(s: string)
    ensures ParseInt(s).None? <==>
      var u := DropSign(TrimStart(s));
      u == [] || !IsDigit(u[0])
  {
  }

  // ---------------------------------------------------------------------------
  // split and join

  /** `s.split(sep)` for a one-character separator: the maximal separator-free
      pieces between separators, empty pieces included. */
  function Split(s: string, sep: char): (parts: seq<string>)
    ensures |parts| >= 1
    ensures forall i :: 0 <= i < |parts| ==> sep !in parts[i]
  {
    if s == [] then [[]]
    else
      var rest := Split(s[1..], sep);
      if s[0] == sep then [[]] + rest else [[s[0]] + rest[0]] + rest[1..]
  }

  /** `parts.join(glue)` for a one-character glue. */
  function Join(parts: seq<string>, glue: char): string {
    if |parts| == 0 then []
    else if |parts| == 1 then parts[0]
    else parts[0] + [glue] + Join(parts[1..], glue)
  }

  /** Each `sep` of `s` replaced by `with`, every other character kept. */
  function ReplaceChar(s: string, sep: char, with: char): (r: string)
    ensures |r| == |s|
    ensures forall i :: 0 <= i < |s| ==> r[i] == (if s[i] == sep then with else s[i])
  {
    seq(|s|, i requires 0 <= i < |s| => if s[i] == sep then with else s[i])
  }

  lemma JoinPrepend(x: string, parts: seq<string>, glue: char)
    requires |parts| >= 1
    ensures Join([x + parts[0]] + parts[1..], glue) == x + Join(parts, glue)
  {
    var ps := [x + parts[0]] + parts[1..];
    if |parts| > 1 {
      assert ps[1..] == parts[1..];
    }
  }

  /** Splitting on one character and joining with another replaces the one by the other. */
  lemma {:induction false} SplitJoinReplaces(s: string, sep: char, glue: char)
    ensures Join(Split(s, sep), glue) == ReplaceChar(s, sep, glue)
  {
    if s != [] {
      var rest := Split(s[1..], sep);
      SplitJoinReplaces(s[1..], sep, glue);
      if s[0] == sep {
        var ps: seq<string> := [[]] + rest;
        assert Split(s, sep) == ps;
        assert |ps| >= 2 && ps[0] == [] && ps[1..] == rest;
        assert Join(ps, glue) == [] + [glue] + Join(rest, glue);
      } else {
        JoinPrepend([s[0]], rest, glue);
      }
      ReplaceCharCons(s, sep, glue);
    }
  }

  lemma ReplaceCharCons(s: string, sep: char, glue: char)
    requires s != []
    ensures ReplaceChar(s, sep, glue) ==
      [if s[0] == sep then glue else s[0]] + ReplaceChar(s[1..], sep, glue)
  {
    var r, r' := ReplaceChar(s, sep, glue), ReplaceChar(s[1..], sep, glue);
    var q := [if s[0] == sep then glue else s[0]] + r';
    assert |q| == |r|;
    forall i | 0 <= i < |r| ensures r[i] == q[i] {
      if i > 0 { assert q[i] == r'[i - 1] && s[1..][i - 1] == s[i]; }
    }
  }

  /** Splitting and joining on the same character gives the string back. */
  lemma SplitJoinRoundTrip(s: string, sep: char)
    ensures Join(Split(s, sep), sep) == s
  {
    SplitJoinReplaces(s, sep, sep);
    assert ReplaceChar(s, sep, sep) == s;
  }
}
