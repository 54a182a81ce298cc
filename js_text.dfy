/**
 * The JavaScript string and number primitives the controllers and schemas
 * rely on: `String.prototype.trim`, `split`/`join`, `parseInt(_, 10)`,
 * the `Number(_)` coercion of `-=`, `String(_)`, UTF-16 length and
 * `JSON.stringify`.
 */
module JsText {
  import opened Common

  // ---------------------------------------------------------------------
  // Character classes
  // ---------------------------------------------------------------------

  /** WhiteSpace and LineTerminator code points, which `trim` and `parseInt` skip. */
  predicate IsWhitespace(c: char) {
    var n := c as int;
    n == 0x09 || n == 0x0A || n == 0x0B || n == 0x0C || n == 0x0D || n == 0x20
    || n == 0xA0 || n == 0x1680 || (0x2000 <= n <= 0x200A) || n == 0x2028
    || n == 0x2029 || n == 0x202F || n == 0x205F || n == 0x3000 || n == 0xFEFF
  }

  predicate IsDigit(c: char) {
    '0' <= c <= '9'
  }

  /** The regular-expression word class `\w`: `[A-Za-z0-9_]`. */
  predicate IsWordChar(c: char) {
    'a' <= c <= 'z' || 'A' <= c <= 'Z' || IsDigit(c) || c == '_'
  }

  // ---------------------------------------------------------------------
  // trim
  // ---------------------------------------------------------------------

  function TrimStart(s: string): (r: string)
    ensures |r| <= |s| && r == s[|s| - |r|..]
    ensures forall i :: 0 <= i < |s| - |r| ==> IsWhitespace(s[i])
    ensures r == [] || !IsWhitespace(r[0])
  {
    if s != [] && IsWhitespace(s[0]) then TrimStart(s[1..]) else s
  }

  function TrimEnd(s: string): (r: string)
    ensures |r| <= |s| && r == s[..|r|]
    ensures forall i :: |r| <= i < |s| ==> IsWhitespace(s[i])
    ensures r == [] || !IsWhitespace(r[|r| - 1])
  {
    if s != [] && IsWhitespace(s[|s| - 1]) then TrimEnd(s[..|s| - 1]) else s
  }

  /** A string with no leading and no trailing white space. */
  predicate IsTrimmed(s: string) {
    s == [] || (!IsWhitespace(s[0]) && !IsWhitespace(s[|s| - 1]))
  }

  /** `s.trim()` */
  function Trim(s: string): (r: string)
    ensures |r| <= |s|
    ensures IsTrimmed(r)
  {
    TrimEnd(TrimStart(s))
  }

  /** Trimming leaves a trimmed string alone, so `trim` is idempotent. */
  lemma TrimOfTrimmed(s: string)
    requires IsTrimmed(s)
    ensures Trim(s) == s
  {
    if s != [] {
      assert TrimStart(s) == s;
      assert TrimEnd(s) == s;
    }
  }

  lemma TrimIdempotent(s: string)
    ensures Trim(Trim(s)) == Trim(s)
  {
    TrimOfTrimmed(Trim(s));
  }

  /** Leading white space in front of a string that does not start with white space is skipped exactly. */
  lemma {:induction false} TrimStartSkips(ws: string, x: string)
    requires forall i :: 0 <= i < |ws| ==> IsWhitespace(ws[i])
    requires x == [] || !IsWhitespace(x[0])
    ensures TrimStart(ws + x) == x
  {
    if ws != [] {
      assert (ws + x)[1..] == ws[1..] + x;
      TrimStartSkips(ws[1..], x);
    }
  }

  // ---------------------------------------------------------------------
  // length as JavaScript counts it
  // ---------------------------------------------------------------------

  /** `s.length`: UTF-16 code units, two for a code point above U+FFFF. */
  function Utf16Length(s: string): (n: nat)
    ensures |s| <= n <= 2 * |s|
  {
    if s == [] then 0 else (if s[0] as int > 0xFFFF then 2 else 1) + Utf16Length(s[1..])
  }

  // ---------------------------------------------------------------------
  // split and join
  // ---------------------------------------------------------------------

  /** `s.split(sep)` for a one-character separator: never empty, pieces hold no separator. */
  function Split(s: string, sep: char): (parts: seq<string>)
    ensures |parts| >= 1
    ensures forall i :: 0 <= i < |parts| ==> sep !in parts[i]
  {
    if s == [] then [[]]
    else
      var rest := Split(s[1..], sep);
      if s[0] == sep then [[]] + rest
      else [[s[0]] + rest[0]] + rest[1..]
  }

  /** `parts.join(sep)` */
  function Join(parts: seq<string>, sep: char): string {
    if parts == [] then []
    else if |parts| == 1 then parts[0]
    else parts[0] + [sep] + Join(parts[1..], sep)
  }

  /** Every occurrence of `a` in `s` replaced by `b`, every other character kept. */
  function ReplaceChar(s: string, a: char, b: char): (r: string)
    ensures |r| == |s|
    ensures forall i :: 0 <= i < |s| ==> r[i] == if s[i] == a then b else s[i]
  {
    seq(|s|, i requires 0 <= i < |s| => if s[i] == a then b else s[i])
  }

  lemma JoinCons(c: char, p: string, ps: seq<string>, sep: char)
    ensures Join([[c] + p] + ps, sep) == [c] + Join([p] + ps, sep)
  {
    if ps != [] {
      assert ([[c] + p] + ps)[1..] == ps;
      assert ([p] + ps)[1..] == ps;
    }
  }

  /** `s.split(a).join(b)` replaces each `a` by `b` and changes nothing else. */
  lemma {:induction false} SplitJoinReplaces(s: string, a: char, b: char)
    ensures Join(Split(s, a), b) == ReplaceChar(s, a, b)
  {
    if s != [] {
      var rest := Split(s[1..], a);
      SplitJoinReplaces(s[1..], a, b);
      assert ReplaceChar(s, a, b) == [ReplaceChar(s, a, b)[0]] + ReplaceChar(s[1..], a, b);
      if s[0] == a {
        assert Join([[]] + rest, b) == [b] + Join(rest, b);
      } else {
        JoinCons(s[0], rest[0], rest[1..], b);
        assert [rest[0]] + rest[1..] == rest;
      }
    }
  }

  /** Splitting at the replacement character gives back the original pieces, in order. */
  lemma {:induction false} SplitOfReplaced(s: string, a: char, b: char)
    requires b !in s
    ensures Split(ReplaceChar(s, a, b), b) == Split(s, a)
  {
    if s != [] {
      var r := ReplaceChar(s, a, b);
      assert r[1..] == ReplaceChar(s[1..], a, b);
      assert b !in s[1..] by {
        forall i | 0 <= i < |s[1..]| ensures s[1..][i] != b {
          assert s[1..][i] == s[i + 1];
        }
      }
      SplitOfReplaced(s[1..], a, b);
      if s[0] != a {
        assert s[0] != b by { assert s[0] in s; }
      }
    }
  }

  // ---------------------------------------------------------------------
  // decimal integers
  // ---------------------------------------------------------------------

  function DigitValue(c: char): nat
    requires IsDigit(c)
  {
    (c as int) - ('0' as int)
  }

  function DigitChar(d: nat): (c: char)
    requires d < 10
    ensures IsDigit(c) && DigitValue(c) == d
  {
    (('0' as int) + d) as char
  }

  /** Length of the longest prefix of decimal digits. */
  function DigitLen(s: string): (n: nat)
    ensures n <= |s|
    ensures forall i :: 0 <= i < n ==> IsDigit(s[i])
    ensures n < |s| ==> !IsDigit(s[n])
  {
    if s != [] && IsDigit(s[0]) then 1 + DigitLen(s[1..]) else 0
  }

  /** The number a string of decimal digits denotes, read left to right. */
  function DigitsValue(d: string): nat
    requires forall i :: 0 <= i < |d| ==> IsDigit(d[i])
  {
    if d == [] then 0 else DigitsValue(d[..|d| - 1]) * 10 + DigitValue(d[|d| - 1])
  }

  /** Decimal digits of a natural number, without leading zeros. */
  function NatToString(n: nat): (s: string)
    ensures s != []
    ensures forall i :: 0 <= i < |s| ==> IsDigit(s[i])
  {
    if n < 10 then [DigitChar(n)] else NatToString(n / 10) + [DigitChar(n % 10)]
  }

  /** `String(n)` for an integer. */
  function IntToString(n: int): (s: string)
    ensures s != [] && (IsDigit(s[0]) || s[0] == '-')
  {
    if n < 0 then "-" + NatToString(-n) else NatToString(n)
  }

  lemma {:induction false} DigitsValueOfNatToString(n: nat)
    ensures DigitsValue(NatToString(n)) == n
  {
    if n >= 10 {
      var s := NatToString(n);
      DigitsValueOfNatToString(n / 10);
      assert s[..|s| - 1] == NatToString(n / 10);
    }
  }

  /** A maximal run of digits followed by a non-digit is read to its end. */
  lemma {:induction false} DigitLenOfDigits(d: string, rest: string)
    requires forall i :: 0 <= i < |d| ==> IsDigit(d[i])
    requires rest == [] || !IsDigit(rest[0])
    ensures DigitLen(d + rest) == |d|
  {
    if d != [] {
      assert (d + rest)[1..] == d[1..] + rest;
      DigitLenOfDigits(d[1..], rest);
    }
  }

  /**
   * `parseInt(s, 10)`: skip leading white space, take an optional sign and
   * the longest run of decimal digits after it; NaN (`None`) when there is
   * no digit.  Whatever follows the digits is ignored.
   */
  function ParseInt(s: string): (r: Option<int>) {
    ParseSigned(TrimStart(s))
  }

  /** An optional sign, then the longest run of decimal digits. */
  function ParseSigned(t: string): (r: Option<int>)
    ensures r.Some? <==> DigitLen(Unsigned(t)) > 0
  {
    var u := Unsigned(t);
    var n := DigitLen(u);
    if n == 0 then None
    else
      var v: int := DigitsValue(u[..n]);
      Some(if t != [] && t[0] == '-' then -v else v)
  }

  /** What follows an optional leading sign. */
  function Unsigned(t: string): string {
    if t != [] && (t[0] == '-' || t[0] == '+') then t[1..] else t
  }

  /** The digits of `m`, followed by something that is not a digit, read back as `m`. */
  lemma ReadsDigits(m: nat, rest: string)
    requires rest == [] || !IsDigit(rest[0])
    ensures var u := NatToString(m) + rest;
      && IsDigit(u[0]) && DigitLen(u) == |NatToString(m)| && DigitsValue(u[..DigitLen(u)]) == m
  {
    var d := NatToString(m);
    var u := d + rest;
    DigitLenOfDigits(d, rest);
    assert u[..|d|] == d;
    DigitsValueOfNatToString(m);
  }

  /** What `ParseSigned` gives once the digits after the sign and their value are known. */
  lemma ParseSignedParts(t: string, u: string, k: nat, v: int)
    requires u == Unsigned(t) && k == DigitLen(u) && 0 < k && v == DigitsValue(u[..k])
    ensures ParseSigned(t) == Some(if t != [] && t[0] == '-' then -v else v)
  {
  }

  lemma UnsignedOfMinus(u: string)
    ensures Unsigned(['-'] + u) == u && (['-'] + u)[0] == '-'
  {
    assert (['-'] + u)[1..] == u;
  }

  lemma ParseSignedReadsNegative(m: nat, rest: string)
    requires rest == [] || !IsDigit(rest[0])
    ensures ParseSigned(['-'] + (NatToString(m) + rest)) == Some(-(m as int))
  {
    var u := NatToString(m) + rest;
    ReadsDigits(m, rest);
    UnsignedOfMinus(u);
    ParseSignedParts(['-'] + u, u, |NatToString(m)|, m);
  }

  lemma ParseSignedReadsNatural(m: nat, rest: string)
    requires rest == [] || !IsDigit(rest[0])
    ensures ParseSigned(NatToString(m) + rest) == Some(m)
  {
    var u := NatToString(m) + rest;
    ReadsDigits(m, rest);
    ParseSignedParts(u, u, |NatToString(m)|, m);
  }

  lemma ParseSignedReadsDecimal(n: int, rest: string)
    requires rest == [] || !IsDigit(rest[0])
    ensures ParseSigned(IntToString(n) + rest) == Some(n)
  {
    if n < 0 {
      assert IntToString(n) + rest == ['-'] + (NatToString(-n) + rest);
      ParseSignedReadsNegative(-n, rest);
    } else {
      ParseSignedReadsNatural(n, rest);
    }
  }

  /** `parseInt` reads back what `String` wrote, whatever white space precedes and whatever non-digit follows. */
  lemma ParseIntReadsDecimal(ws: string, n: int, rest: string)
    requires forall i :: 0 <= i < |ws| ==> IsWhitespace(ws[i])
    requires rest == [] || !IsDigit(rest[0])
    ensures ParseInt(ws + IntToString(n) + rest) == Some(n)
  {
    var x := IntToString(n) + rest;
    assert ws + IntToString(n) + rest == ws + x;
    TrimStartSkips(ws, x);
    ParseSignedReadsDecimal(n, rest);
  }

  /**
   * The `Number(_)` coercion JavaScript applies to a string operand of `-`:
   * surrounding white space is ignored, the empty string is 0, a signed
   * run of decimal digits is its value, anything else is NaN (`None`).
   */
  function StringToNumber(s: string): (r: Option<int>)
    ensures Trim(s) == [] ==> r == Some(0)
  {
    SignedDecimal(Trim(s))
  }

  /** The number a trimmed string denotes: 0 when empty, else a sign and nothing but digits. */
  function SignedDecimal(t: string): Option<int> {
    if t == [] then Some(0)
    else
      var negative := t[0] == '-';
      var u := if t[0] == '-' || t[0] == '+' then t[1..] else t;
      if u != [] && DigitLen(u) == |u| then
        var v: int := DigitsValue(u);
        Some(if negative then -v else v)
      else None
  }

  /** `String(v)` for a value that may be `undefined`. */
  function ToJsString(v: Option<Json>): string {
    match v
    case None => "undefined"
    case Some(j) => JsonToString(j)
  }

  /** `String(j)`: arrays join their elements' strings with ',' (null becomes ''). */
  function JsonToString(j: Json): string {
    match j
    case JNull => "null"
    case JBool(b) => if b then "true" else "false"
    case JNum(n) => IntToString(n)
    case JStr(s) => s
    case JArr(items) =>
      Join(seq(|items|, i requires 0 <= i < |items| =>
             if items[i].JNull? then "" else JsonToString(items[i])), ',')
    case JObj(_) => "[object Object]"
  }

  /** `Number(v)` as `-=` applies it to a value that may be `undefined`. */
  function ToNumber(v: Option<Json>): (r: Option<int>)
    ensures v == None ==> r == None
    ensures v == Some(JNull) ==> r == Some(0)
    ensures forall n :: v == Some(JNum(n)) ==> r == Some(n)
  {
    match v
    case None => None
    case Some(JNull) => Some(0)
    case Some(JBool(b)) => Some(if b then 1 else 0)
    case Some(JNum(n)) => Some(n)
    case Some(other) => StringToNumber(JsonToString(other))
  }

  /** Trailing white space behind a string that does not end in white space is dropped exactly. */
  lemma {:induction false} TrimEndSkips(x: string, ws: string)
    requires forall i :: 0 <= i < |ws| ==> IsWhitespace(ws[i])
    requires x == [] || !IsWhitespace(x[|x| - 1])
    ensures TrimEnd(x + ws) == x
  {
    if ws != [] {
      var init := ws[..|ws| - 1];
      assert (x + ws)[..|x + ws| - 1] == x + init;
      TrimEndSkips(x, init);
    } else {
      assert x + ws == x;
    }
  }

  /** `trim` removes exactly the white space around a trimmed, non-empty string. */
  lemma TrimAround(ws1: string, x: string, ws2: string)
    requires forall i :: 0 <= i < |ws1| ==> IsWhitespace(ws1[i])
    requires forall i :: 0 <= i < |ws2| ==> IsWhitespace(ws2[i])
    requires x != [] && IsTrimmed(x)
    ensures Trim(ws1 + x + ws2) == x
  {
    assert ws1 + x + ws2 == ws1 + (x + ws2);
    TrimStartSkips(ws1, x + ws2);
    TrimEndSkips(x, ws2);
  }

  /** `Number` reads back what `String` wrote, whatever white space surrounds it. */
  lemma StringToNumberReadsDecimal(ws1: string, n: int, ws2: string)
    requires forall i :: 0 <= i < |ws1| ==> IsWhitespace(ws1[i])
    requires forall i :: 0 <= i < |ws2| ==> IsWhitespace(ws2[i])
    ensures StringToNumber(ws1 + IntToString(n) + ws2) == Some(n)
  {
    var x := IntToString(n);
    var u := if x[0] == '-' || x[0] == '+' then x[1..] else x;
    var v: int := if n < 0 then -n else n;
    DecimalShape(n, x, u, v);
    TrimAround(ws1, x, ws2);
    StringToNumberDigits(ws1 + x + ws2, x, u, v, Some(n));
  }

  /** `String(n)` is trimmed: an optional minus sign, then the digits of `|n|`. */
  lemma DecimalShape(n: int, x: string, u: string, v: int)
    requires x == IntToString(n) && v == (if n < 0 then -n else n)
    requires u == (if x[0] == '-' || x[0] == '+' then x[1..] else x)
    ensures x != [] && IsTrimmed(x)
    ensures u != [] && DigitLen(u) == |u| && v == DigitsValue(u)
    ensures n == (if x[0] == '-' then -v else v)
  {
    var d := NatToString(v);
    assert x == (if n < 0 then "-" + d else d);
    assert u == d by {
      if n < 0 {
        assert x[1..] == d;
      }
    }
    assert x[|x| - 1] == d[|d| - 1];
    DigitLenOfDigits(d, []);
    assert d + [] == d;
    DigitsValueOfNatToString(v);
  }

  /**
   * Where `Number` reads a non-blank string, `parseInt` reads the same
   * integer from it: both skip the white space and read the sign and digits.
   */
  lemma {:induction false} NumberAgreesWithParseInt(s: string)
    requires StringToNumber(s).Some? && Trim(s) != []
    ensures ParseInt(s) == StringToNumber(s)
  {
    var t := Trim(s);
    var tail := TrailingSpace(s);
    var u := if t[0] == '-' || t[0] == '+' then t[1..] else t;
    NumberDigits(s, t, u);
    var v: int := DigitsValue(u);
    var r := Some(if t[0] == '-' then -v else v);
    StringToNumberDigits(s, t, u, v, r);
    ParseSignedWithTail(t, tail, u, v);
  }

  /** The white space `trim` drops at the end. */
  function TrailingSpace(s: string): (tail: string)
    ensures TrimStart(s) == Trim(s) + tail
    ensures forall i :: 0 <= i < |tail| ==> IsWhitespace(tail[i])
  {
    var p := TrimStart(s);
    TrimEndSplit(p);
    p[|TrimEnd(p)|..]
  }

  lemma TrimEndSplit(p: string)
    ensures p == TrimEnd(p) + p[|TrimEnd(p)|..]
    ensures forall i :: 0 <= i < |p| - |TrimEnd(p)| ==> IsWhitespace(p[|TrimEnd(p)|..][i])
  {
    var t := TrimEnd(p);
    var tail := p[|t|..];
    forall i | 0 <= i < |tail| ensures IsWhitespace(tail[i]) {
      assert tail[i] == p[|t| + i];
    }
  }

  /** A non-blank string `Number` reads is a sign and a run of digits. */
  lemma NumberDigits(s: string, t: string, u: string)
    requires StringToNumber(s).Some? && t == Trim(s) && t != []
    requires u == (if t[0] == '-' || t[0] == '+' then t[1..] else t)
    ensures u != [] && DigitLen(u) == |u|
  {
  }

  /** White space after the digits does not change what `parseInt` reads. */
  lemma ParseSignedWithTail(t: string, tail: string, u: string, v: int)
    requires t != [] && u == (if t[0] == '-' || t[0] == '+' then t[1..] else t)
    requires u != [] && DigitLen(u) == |u| && v == DigitsValue(u)
    requires forall i :: 0 <= i < |tail| ==> IsWhitespace(tail[i])
    ensures ParseSigned(t + tail) == Some(if t[0] == '-' then -v else v)
  {
    var p := t + tail;
    UnsignedAppend(t, tail);
    var up := Unsigned(p);
    assert tail == [] || !IsDigit(tail[0]);
    DigitLenOfDigits(u, tail);
    assert up[..|u|] == u;
    ParseSignedParts(p, up, |u|, v);
  }

  /** The sign is read from the front, so text appended after it stays behind the digits. */
  lemma UnsignedAppend(t: string, tail: string)
    requires t != []
    ensures (t + tail)[0] == t[0] && Unsigned(t + tail) == Unsigned(t) + tail
  {
    if t[0] == '-' || t[0] == '+' {
      assert (t + tail)[1..] == t[1..] + tail;
    }
  }

  /** What `StringToNumber` gives once the trimmed text and its digits after the sign are known. */
  lemma StringToNumberDigits(s: string, t: string, u: string, v: int, r: Option<int>)
    requires t == Trim(s) && t != []
    requires u == (if t[0] == '-' || t[0] == '+' then t[1..] else t)
    requires u != [] && DigitLen(u) == |u| && v == DigitsValue(u)
    requires r == Some(if t[0] == '-' then -v else v)
    ensures StringToNumber(s) == r
  {
    assert StringToNumber(s) == SignedDecimal(t);
  }

  /** A quantity sent as a decimal string is that number. */
  lemma ToNumberOfDecimalString(n: int)
    ensures ToNumber(Some(JStr(IntToString(n)))) == Some(n)
  {
    var e: string := [];
    assert e + IntToString(n) + e == IntToString(n);
    StringToNumberReadsDecimal(e, n, e);
  }

  /** A quantity sent as a one-element array `[n]` is `n`, since `String([n])` is `String(n)`. */
  lemma ToNumberOfSingleton(n: int)
    ensures ToNumber(Some(JArr([JNum(n)]))) == Some(n)
  {
    var e: string := [];
    assert JsonToString(JArr([JNum(n)])) == IntToString(n);
    assert e + IntToString(n) + e == IntToString(n);
    StringToNumberReadsDecimal(e, n, e);
  }

  /** A quantity sent as an object is NaN: `String` of an object is `[object Object]`. */
  lemma ToNumberOfObject(ms: seq<Member>)
    ensures ToNumber(Some(JObj(ms))) == None
  {
    var t: string := "[object Object]";
    assert JsonToString(JObj(ms)) == t;
    assert t[0] == '[' && t[|t| - 1] == ']';
    TrimOfTrimmed(t);
    assert DigitLen(t) == 0;
  }

  // ---------------------------------------------------------------------
  // JSON.stringify
  // ---------------------------------------------------------------------

  function HexDigit(d: nat): char
    requires d < 16
  {
    if d < 10 then DigitChar(d) else (('a' as int) + d - 10) as char
  }

  /** How `JSON.stringify` writes one character inside a string literal. */
  function EscapeChar(c: char): (r: string)
    ensures r != []
    ensures forall i :: 0 <= i < |r| ==> r[i] as int >= 0x20
    ensures c as int >= 0x20 && c != '"' && c != '\\' ==> r == [c]
    ensures c == '"' || c == '\\' ==> r == ['\\', c]
  {
    if c == '"' || c == '\\' then ['\\', c]
    else if c as int == 0x08 then "\\b"
    else if c as int == 0x0C then "\\f"
    else if c == '\n' then "\\n"
    else if c == '\r' then "\\r"
    else if c == '\t' then "\\t"
    else if c as int < 0x20 then "\\u00" + [HexDigit(c as int / 16), HexDigit(c as int % 16)]
    else [c]
  }

  function Escape(s: string): string {
    if s == [] then [] else EscapeChar(s[0]) + Escape(s[1..])
  }

  lemma {:induction false} EscapeAppend(a: string, b: string)
    ensures Escape(a + b) == Escape(a) + Escape(b)
  {
    if a != [] {
      assert (a + b)[0] == a[0];
      assert (a + b)[1..] == a[1..] + b;
      EscapeAppend(a[1..], b);
      calc {
        Escape(a + b);
        EscapeChar(a[0]) + Escape(a[1..] + b);
        EscapeChar(a[0]) + (Escape(a[1..]) + Escape(b));
      }
    } else {
      assert a + b == b;
    }
  }

  /** The value of a hexadecimal digit, in either case; `None` for any other character. */
  function HexValue(c: char): Option<nat> {
    if '0' <= c <= '9' then Some((c as int) - ('0' as int))
    else if 'a' <= c <= 'f' then Some((c as int) - ('a' as int) + 10)
    else if 'A' <= c <= 'F' then Some((c as int) - ('A' as int) + 10)
    else None
  }

  lemma HexValueOfDigit(d: nat)
    requires d < 16
    ensures HexValue(HexDigit(d)) == Some(d)
  {
  }

  /** The code unit four hexadecimal digits spell, as in `\uXXXX`. */
  function Hex4(h: string): (r: Option<nat>)
    requires |h| == 4
    ensures r.Some? ==> r.value < 0x10000
  {
    match (HexValue(h[0]), HexValue(h[1]), HexValue(h[2]), HexValue(h[3]))
    case (Some(a), Some(b), Some(c), Some(d)) =>
      assert a < 16 && b < 16 && c < 16 && d < 16;
      Some(((a * 16 + b) * 16 + c) * 16 + d)
    case _ => None
  }

  /** The character a one-letter escape `\x` stands for. */
  function SimpleEscape(c: char): Option<char> {
    match c
    case '"' => Some('"')
    case '\\' => Some('\\')
    case '/' => Some('/')
    case 'b' => Some(0x08 as char)
    case 'f' => Some(0x0C as char)
    case 'n' => Some('\n')
    case 'r' => Some('\r')
    case 't' => Some('\t')
    case _ => None
  }

  function Prepend(c: char, r: Option<string>): Option<string> {
    match r
    case Some(t) => Some([c] + t)
    case None => None
  }

  /**
   * How `JSON.parse` reads the text between the quotes of a string literal:
   * escapes are decoded; an unescaped quote or control character, or an
   * unknown or cut-off escape, is a syntax error (`None`).  A `\u` escape
   * of a surrogate code unit is refused here (Dafny characters are scalar
   * values).
   */
  function Unescape(s: string): Option<string>
    decreases |s|
  {
    if s == [] then Some([])
    else if s[0] == '"' || (s[0] as int) < 0x20 then None
    else if s[0] != '\\' then Prepend(s[0], Unescape(s[1..]))
    else if |s| >= 2 && SimpleEscape(s[1]).Some? then Prepend(SimpleEscape(s[1]).value, Unescape(s[2..]))
    else if |s| >= 6 && s[1] == 'u' && Hex4(s[2..6]).Some?
            && (Hex4(s[2..6]).value < 0xD800 || 0xE000 <= Hex4(s[2..6]).value)
    then Prepend(Hex4(s[2..6]).value as char, Unescape(s[6..]))
    else None
  }

  /** Reading back one escaped character gives the character, whatever follows. */
  lemma UnescapeEscapeChar(c: char, rest: string)
    ensures Unescape(EscapeChar(c) + rest) == Prepend(c, Unescape(rest))
  {
    var e := EscapeChar(c);
    var s := e + rest;
    if |e| == 1 {
      assert s[1..] == rest;
    } else if |e| == 2 {
      assert s[2..] == rest;
    } else {
      var n := c as int;
      assert s[1] == 'u';
      HexValueOfDigit(n / 16);
      HexValueOfDigit(n % 16);
      assert s[2..6] == ['0', '0', HexDigit(n / 16), HexDigit(n % 16)];
      assert s[6..] == rest;
    }
  }

  /** `JSON.parse` reads back every string `JSON.stringify` wrote: escaping loses nothing. */
  lemma {:induction false} UnescapeEscape(s: string)
    ensures Unescape(Escape(s)) == Some(s)
  {
    if s != [] {
      UnescapeEscape(s[1..]);
      UnescapeEscapeChar(s[0], Escape(s[1..]));
      assert [s[0]] + s[1..] == s;
    }
  }

  /** A JSON string literal. */
  function Quote(s: string): string {
    "\"" + Escape(s) + "\""
  }

  /** `JSON.stringify(j)` */
  function Stringify(j: Json): string {
    match j
    case JNull => "null"
    case JBool(b) => if b then "true" else "false"
    case JNum(n) => IntToString(n)
    case JStr(s) => Quote(s)
    case JArr(items) =>
      "[" + Join(seq(|items|, i requires 0 <= i < |items| => Stringify(items[i])), ',') + "]"
    case JObj(ms) =>
      "{" + Join(seq(|ms|, i requires 0 <= i < |ms| => Quote(ms[i].key) + ":" + Stringify(ms[i].value)), ',') + "}"
  }
}
