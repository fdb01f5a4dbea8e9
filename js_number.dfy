/** The part of JavaScript's number semantics the request handlers rely
    on: the global `parseInt` with no radix argument, `Math.min`, the
    `<` comparison and JSON rendering of a number that may be NaN.
    Numbers are kept as mathematical integers (every value `parseInt`
    can produce from a digit prefix is one) or NaN. */
module JsNumber {
  import opened Common

  datatype Num = NaN | Int(value: int)

  /** `a < b`: every comparison with NaN is false. */
  predicate Less(a: Num, b: Num) {
    a.Int? && b.Int? && a.value < b.value
  }

  /** `Math.min(a, b)`: NaN if either argument is NaN. */
  function Min(a: Num, b: Num): (r: Num)
    ensures r.NaN? <==> a.NaN? || b.NaN?
    ensures r.Int? ==> r.value <= a.value && r.value <= b.value
    ensures r.Int? ==> r == a || r == b
  {
    if a.NaN? || b.NaN? then NaN
    else if a.value <= b.value then a
    else b
  }

  /** The white space and line terminators `parseInt` skips before the
      number (StrWhiteSpaceChar of the ECMAScript grammar). */
  predicate IsStrWhiteSpace(c: char) {
    c == '\t' || c == '\n' || c == '\U{000B}' || c == '\U{000C}' || c == '\r' ||
    c == ' ' || c == '\U{00A0}' || c == '\U{1680}' ||
    ('\U{2000}' <= c <= '\U{200A}') ||
    c == '\U{2028}' || c == '\U{2029}' || c == '\U{202F}' || c == '\U{205F}' ||
    c == '\U{3000}' || c == '\U{FEFF}'
  }

  function TrimStart(s: string): (r: string)
    ensures |r| <= |s| && r == s[|s| - |r|..]
    ensures r == [] || !IsStrWhiteSpace(r[0])
    ensures forall i :: 0 <= i < |s| - |r| ==> IsStrWhiteSpace(s[i])
  {
    if s != [] && IsStrWhiteSpace(s[0]) then TrimStart(s[1..]) else s
  }

  /** The value of `c` as a digit in base `radix` (10 or 16), if it is one. */
  function DigitIn(c: char, radix: nat): (d: Option<nat>)
    requires radix == 10 || radix == 16
    ensures d.Some? ==> d.value < radix
    ensures radix == 10 ==> (d.Some? <==> IsDigit(c))
    ensures radix == 10 && IsDigit(c) ==> d == Some(DigitValue(c))
  {
    if IsDigit(c) then Some(DigitValue(c))
    else if radix == 16 && 'a' <= c <= 'f' then Some(c as int - 'a' as int + 10)
    else if radix == 16 && 'A' <= c <= 'F' then Some(c as int - 'A' as int + 10)
    else None
  }

  /** Length of the longest prefix of `s` made of base-`radix` digits. */
  function DigitRun(s: string, radix: nat): (n: nat)
    requires radix == 10 || radix == 16
    ensures n <= |s|
    ensures forall i :: 0 <= i < n ==> DigitIn(s[i], radix).Some?
    ensures n < |s| ==> DigitIn(s[n], radix).None?
  {
    if s != [] && DigitIn(s[0], radix).Some? then 1 + DigitRun(s[1..], radix) else 0
  }

  /** Value of a string of base-`radix` digits, most significant first. */
  function RadixValue(s: string, radix: nat): nat
    requires radix == 10 || radix == 16
    requires forall i :: 0 <= i < |s| ==> DigitIn(s[i], radix).Some?
  {
    if s == [] then 0
    else RadixValue(s[..|s| - 1], radix) * radix + DigitIn(s[|s| - 1], radix).value
  }

  predicate HasHexPrefix(s: string) {
    |s| >= 2 && s[0] == '0' && (s[1] == 'x' || s[1] == 'X')
  }

  /** The value of the longest digit prefix of `s` in the given radix, or
      NaN when there is none. */
  function DigitPrefixValue(s: string, radix: nat): (r: Option<nat>)
    requires radix == 10 || radix == 16
    ensures r.None? <==> DigitRun(s, radix) == 0
  {
    var n := DigitRun(s, radix);
    if n == 0 then None else Some(RadixValue(s[..n], radix))
  }

  /** `-n`; NaN stays NaN (the sign of a negative zero is not kept). */
  function Negate(n: Num): (r: Num)
    ensures r.NaN? <==> n.NaN?
    ensures n.Int? ==> r.value == -n.value
  {
    match n
    case NaN => NaN
    case Int(v) => Int(-v)
  }

  /** The digits after the sign: a `0x`/`0X` prefix asks for base 16,
      then the longest digit prefix is read; NaN when there is none. */
  function ParseUnsigned(u: string): (r: Num)
    ensures r.Int? ==> r.value >= 0
  {
    var digits := if HasHexPrefix(u) then DigitPrefixValue(u[2..], 16) else DigitPrefixValue(u, 10);
    match digits
    case None => NaN
    case Some(v) => Int(v)
  }

  /** An optional sign, then the digits. */
  function ParseSigned(t: string): (r: Num)
  {
    if t != [] && t[0] == '-' then Negate(ParseUnsigned(t[1..]))
    else if t != [] && t[0] == '+' then ParseUnsigned(t[1..])
    else ParseUnsigned(t)
  }

  /** `parseInt(s)`: skip leading white space, take an optional sign, then
      the digits; whatever comes after the digits is ignored. */
  function ParseInt(s: string): (r: Num)
  {
    ParseSigned(TrimStart(s))
  }

  /** Nothing is skipped before a character that is not white space. */
  lemma TrimStartNoSpace(s: string)
    requires s == [] || !IsStrWhiteSpace(s[0])
    ensures TrimStart(s) == s
  {
  }

  /** A digit is not white space. */
  lemma DigitNotSpace(c: char)
    requires IsDigit(c)
    ensures !IsStrWhiteSpace(c)
  {
  }

  /** A string that starts with a decimal digit and no `0x` is read as
      its longest decimal prefix. */
  lemma ParseIntDecimal(s: string)
    requires s != [] && IsDigit(s[0]) && !HasHexPrefix(s)
    ensures ParseInt(s) == Int(RadixValue(s[..DigitRun(s, 10)], 10))
  {
    DigitNotSpace(s[0]);
    TrimStartNoSpace(s);
    assert ParseSigned(s) == ParseUnsigned(s);
  }

  /** A string with no digit after the optional white space and sign is NaN. */
  lemma ParseIntNaN(s: string)
    requires s == [] || (!IsDigit(s[0]) && !IsStrWhiteSpace(s[0]) && s[0] != '-' && s[0] != '+')
    ensures ParseInt(s) == NaN
  {
    TrimStartNoSpace(s);
    if s != [] {
      assert DigitIn(s[0], 10).None?;
      assert !HasHexPrefix(s);
    }
  }

  lemma {:induction false} RadixValueDecimal(s: string)
    requires forall i :: 0 <= i < |s| ==> IsDigit(s[i])
    ensures RadixValue(s, 10) == DecimalValue(s)
    decreases |s|
  {
    if s != [] {
      RadixValueDecimal(s[..|s| - 1]);
    }
  }

  /** The digit run of `d + rest` is `d` when `rest` does not start with
      a digit. */
  lemma {:induction false} DigitRunPrefix(d: string, rest: string)
    requires forall i :: 0 <= i < |d| ==> IsDigit(d[i])
    requires rest == [] || !IsDigit(rest[0])
    ensures DigitRun(d + rest, 10) == |d|
    decreases |d|
  {
    if d != [] {
      assert (d + rest)[1..] == d[1..] + rest;
      DigitRunPrefix(d[1..], rest);
    } else {
      assert d + rest == rest;
    }
  }

  /** `parseInt(d + rest)` for decimal digits `d` followed by anything that
      does not start with a digit: the value of `d`; `rest` is ignored. */
  lemma ParseIntSuffixIgnored(d: string, rest: string)
    requires d != [] && forall i :: 0 <= i < |d| ==> IsDigit(d[i])
    requires rest == [] || !IsDigit(rest[0])
    requires !HasHexPrefix(d + rest)
    ensures ParseInt(d + rest) == Int(DecimalValue(d))
  {
    var s := d + rest;
    assert s[0] == d[0];
    DigitRunPrefix(d, rest);
    ParseIntDecimal(s);
    assert s[..|d|] == d;
    RadixValueDecimal(d);
  }

  /** `parseInt(n.toString()) === n` for every non-negative integer: the
      rate-limit header values read back as the limiter's numbers. */
  lemma ParseIntOfNatToString(n: nat)
    ensures ParseInt(NatToString(n)) == Int(n)
  {
    var s := NatToString(n);
    assert s + [] == s;
    ParseIntSuffixIgnored(s, []);
    NatToStringValue(n);
  }

  /** A leading `-` negates what follows it. */
  lemma ParseIntMinus(t: string)
    requires t != [] && t[0] == '-'
    ensures ParseInt(t) == Negate(ParseUnsigned(t[1..]))
  {
    TrimStartNoSpace(t);
  }

  /** A string without a digit right after the optional sign is NaN; in
      particular `parseInt('abc')`. */
  lemma ParseIntNonNumeric()
    ensures ParseInt("abc") == NaN
  {
    ParseIntNaN("abc");
  }

  /** `0x` or `0X` selects base 16: the longest hexadecimal prefix after
      it is read, and NaN when there is none (`parseInt('0x')`). */
  lemma ParseIntHex(x: char, h: string)
    requires x == 'x' || x == 'X'
    ensures var n := DigitRun(h, 16);
      ParseInt(['0', x] + h) == if n == 0 then NaN else Int(RadixValue(h[..n], 16))
  {
    var s := ['0', x] + h;
    TrimStartNoSpace(s);
    assert HasHexPrefix(s) && s[2..] == h;
  }

  /** How JSON.stringify renders a number: NaN becomes `null`. */
  datatype JsonNumber = JsonNull | JsonInt(value: int)

  function ToJson(n: Num): (j: JsonNumber)
    ensures j.JsonNull? <==> n.NaN?
    ensures n.Int? ==> j == JsonInt(n.value)
  {
    match n
    case NaN => JsonNull
    case Int(v) => JsonInt(v)
  }
}
