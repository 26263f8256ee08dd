/** JavaScript values and the few built-in operations the handlers and models
    rely on: truthiness, parseInt, parseFloat, toLowerCase/toUpperCase and
    String.prototype.includes. */
module Js {

  datatype Option<+T> = None | Some(value: T)

  /** A value as it arrives in a JSON request body or in a database row.
      `Undefined` is a missing key; JSON has no NaN, so `Num` is always finite. */
  datatype Value = Undefined | Null | Bool(b: bool) | Num(x: real) | Str(s: string)

  /** ToBoolean: `if (v)` takes its branch exactly when Truthy(v). */
  predicate Truthy(v: Value) {
    match v
    case Undefined => false
    case Null => false
    case Bool(b) => b
    case Num(x) => x != 0.0
    case Str(s) => s != ""
  }

  /** A query-string parameter as the router hands it over: absent or a string. */
  function QueryValue(p: Option<string>): Value {
    match p
    case None => Undefined
    case Some(s) => Str(s)
  }

  // ---------------------------------------------------------------------------
  // Numbers read by parseInt and parseFloat

  /** The result of parseFloat when it is not NaN. */
  datatype Number = Finite(r: real) | Infinity(negative: bool)

  predicate IsNegative(n: Number) {
    match n
    case Finite(r) => r < 0.0
    case Infinity(negative) => negative
  }

  /** The characters StringToNumber skips (WhiteSpace and LineTerminator). */
  predicate IsSpace(c: char) {
    c == ' ' || c == '\t' || c == '\n' || c == '\r' || c == '\U{000B}' || c == '\U{000C}'
    || c == '\U{00A0}' || c == '\U{1680}' || ('\U{2000}' <= c <= '\U{200A}')
    || c == '\U{2028}' || c == '\U{2029}' || c == '\U{202F}' || c == '\U{205F}'
    || c == '\U{3000}' || c == '\U{FEFF}'
  }

  /** Drops the leading white space: the result is the longest suffix that
      does not start with a space, and everything dropped was a space. */
  function TrimStart(s: string): (r: string)
    ensures |r| <= |s| && r == s[|s| - |r|..]
    ensures r != [] ==> !IsSpace(r[0])
    ensures forall i :: 0 <= i < |s| - |r| ==> IsSpace(s[i])
  {
    if s != [] && IsSpace(s[0]) then TrimStart(s[1..]) else s
  }

  /** Splits off an optional sign; the flag says whether it was a minus. */
  function SplitSign(t: string): (bool, string) {
    if t != [] && (t[0] == '-' || t[0] == '+') then (t[0] == '-', t[1..]) else (false, t)
  }

  /** The value of a digit in radix 36; 36 for a character that is no digit at all. */
  function DigitValue(c: char): nat {
    if '0' <= c <= '9' then c as int - '0' as int
    else if 'a' <= c <= 'z' then c as int - 'a' as int + 10
    else if 'A' <= c <= 'Z' then c as int - 'A' as int + 10
    else 36
  }

  /** The length of the longest prefix of `s` made of digits of `radix`. */
  function DigitRun(s: string, radix: nat): (n: nat)
    ensures n <= |s|
    ensures forall i :: 0 <= i < n ==> DigitValue(s[i]) < radix
    ensures n < |s| ==> DigitValue(s[n]) >= radix
  {
    if s != [] && DigitValue(s[0]) < radix then 1 + DigitRun(s[1..], radix) else 0
  }

  /** The number a string of digits denotes in `radix`, most significant first. */
  function DigitsValue(s: string, radix: nat): nat {
    if s == [] then 0 else DigitsValue(s[..|s| - 1], radix) * radix + DigitValue(s[|s| - 1])
  }

  /** `parseInt(s, 10)` is Decimal; `parseInt(s)` detects a 0x prefix. */
  datatype Radix = Decimal | Detect

  /** The longest run of `base` digits at the start of `d`, read as a number;
      None when `d` does not start with such a digit. */
  function ReadRun(d: string, base: nat): Option<nat> {
    var n := DigitRun(d, base);
    if n == 0 then None else Some(DigitsValue(d[..n], base))
  }

  predicate HasHexPrefix(t: string) {
    |t| >= 2 && t[0] == '0' && (t[1] == 'x' || t[1] == 'X')
  }

  /** The unsigned part of parseInt: with Detect a 0x or 0X prefix switches to
      radix 16, otherwise the digits are decimal. */
  function ReadUnsigned(t: string, radix: Radix): Option<nat> {
    if radix == Detect && HasHexPrefix(t) then ReadRun(t[2..], 16) else ReadRun(t, 10)
  }

  /** parseInt on a string: skip white space, read a sign, then the digits;
      None (NaN) when no digit follows. */
  function ParseIntText(s: string, radix: Radix): Option<int> {
    var signed := SplitSign(TrimStart(s));
    match ReadUnsigned(signed.1, radix)
    case None => None
    case Some(m) => var k: int := m; Some(if signed.0 then -k else k)
  }

  function Pow10(n: nat): (p: nat)
    ensures p >= 1
  {
    if n == 0 then 1 else 10 * Pow10(n - 1)
  }

  /** The longest decimal prefix `digits [. digits]` or `. digits` of `t`;
      None when it holds no digit. An exponent part is not read. */
  function ReadDecimal(t: string): (r: Option<real>)
    ensures r.Some? ==> r.value >= 0.0
  {
    var i := DigitRun(t, 10);
    var rest := t[i..];
    var point := rest != [] && rest[0] == '.';
    var f := if point then DigitRun(rest[1..], 10) else 0;
    if i == 0 && f == 0 then None
    else
      var whole := DigitsValue(t[..i], 10) as real;
      var frac := if point then DigitsValue(rest[1..][..f], 10) as real / Pow10(f) as real else 0.0;
      Some(whole + frac)
  }

  /** The unsigned part of parseFloat: "Infinity" or a decimal prefix. */
  function ReadMagnitude(t: string): (r: Option<Number>)
    ensures r.Some? ==> !IsNegative(r.value)
  {
    if |t| >= 8 && t[..8] == "Infinity" then Some(Infinity(false))
    else
      match ReadDecimal(t)
      case None => None
      case Some(x) => Some(Finite(x))
  }

  function Negate(n: Number): Number {
    match n
    case Finite(r) => Finite(-r)
    case Infinity(negative) => Infinity(!negative)
  }

  /** parseFloat on a string: skip white space, read a sign, then the magnitude;
      None (NaN) when there is none. */
  function ParseFloatText(s: string): Option<Number> {
    var signed := SplitSign(TrimStart(s));
    match ReadMagnitude(signed.1)
    case None => None
    case Some(n) => Some(if signed.0 then Negate(n) else n)
  }

  /** Truncation toward zero, as parseInt does to a number. */
  function Trunc(x: real): int {
    if x >= 0.0 then x.Floor else -((-x).Floor)
  }

  /** parseInt(v) / parseInt(v, 10) for a value: a non-string is first turned
      into its string form; "undefined", "null", "true" and "false" hold no digit. */
  function ParseInt(v: Value, radix: Radix): Option<int> {
    match v
    case Str(s) => ParseIntText(s, radix)
    case Num(x) => Some(Trunc(x))
    case _ => None
  }

  /** parseFloat(v) for a value. */
  function ParseFloat(v: Value): Option<Number> {
    match v
    case Str(s) => ParseFloatText(s)
    case Num(x) => Some(Finite(x))
    case _ => None
  }

  // ---------------------------------------------------------------------------
  // Decimal text and the parsers reading it back

  function DigitChar(d: nat): char
    requires d < 10
  {
    ('0' as int + d) as char
  }

  /** The decimal digits of `n`, without leading zeros. */
  function DecimalDigits(n: nat): (s: string)
    ensures s != []
    ensures forall i :: 0 <= i < |s| ==> '0' <= s[i] <= '9'
  {
    if n < 10 then [DigitChar(n)] else DecimalDigits(n / 10) + [DigitChar(n % 10)]
  }

  /** String(i) for an integer. */
  function IntText(i: int): string {
    if i < 0 then "-" + DecimalDigits(-i) else DecimalDigits(i)
  }

  lemma {:induction false} DigitsValueOfDecimal(n: nat)
    ensures DigitsValue(DecimalDigits(n), 10) == n
  {
    var s := DecimalDigits(n);
    if n >= 10 {
      DigitsValueOfDecimal(n / 10);
      assert s[..|s| - 1] == DecimalDigits(n / 10);
    }
  }

  lemma {:induction false} LeadingDigit(n: nat)
    ensures DecimalDigits(n)[0] == '0' ==> n == 0
  {
    if n >= 10 {
      LeadingDigit(n / 10);
    }
  }

  /** A run of digits followed by a non-digit is read up to its end. */
  lemma {:induction false} DigitRunOfDigits(d: string, rest: string, radix: nat)
    requires forall i :: 0 <= i < |d| ==> DigitValue(d[i]) < radix
    requires rest == [] || DigitValue(rest[0]) >= radix
    ensures DigitRun(d + rest, radix) == |d|
  {
    if d != [] {
      assert (d + rest)[1..] == d[1..] + rest;
      DigitRunOfDigits(d[1..], rest, radix);
    }
  }

  /** A decimal number followed by a non-digit is read in full. */
  lemma {:induction false} ReadRunOfDecimal(m: nat, rest: string)
    requires rest == [] || DigitValue(rest[0]) >= 10
    ensures ReadRun(DecimalDigits(m) + rest, 10) == Some(m)
  {
    var d := DecimalDigits(m);
    forall k | 0 <= k < |d| ensures DigitValue(d[k]) < 10 { }
    DigitRunOfDigits(d, rest, 10);
    assert (d + rest)[..|d|] == d;
    DigitsValueOfDecimal(m);
  }

  /** Text made of an optional minus and a digit string splits back into the two. */
  lemma {:induction false} SignedText(negative: bool, t: string)
    requires t != [] && '0' <= t[0] <= '9'
    ensures SplitSign(TrimStart((if negative then "-" else "") + t)) == (negative, t)
  {
    var s := (if negative then "-" else "") + t;
    assert s[0] == '-' || '0' <= s[0] <= '9';
    if negative { assert s[1..] == t; }
  }

  /** String(i) followed by any text splits into the sign of i and its digits. */
  lemma {:induction false} SignOfIntText(i: int, rest: string)
    ensures SplitSign(TrimStart(IntText(i) + rest)) == (i < 0, DecimalDigits(if i < 0 then -i else i) + rest)
  {
    var d := DecimalDigits(if i < 0 then -i else i);
    var s := IntText(i) + rest;
    assert s == (if i < 0 then "-" else "") + (d + rest);
    assert (d + rest)[0] == d[0];
    SignedText(i < 0, d + rest);
  }

  /** Text that ends the decimal text of n: nothing, or a character that is
      no decimal digit and, when n is 0 and the radix is detected, no `x` that
      would turn that 0 into a hexadecimal prefix. */
  predicate EndsDecimal(n: int, rest: string, radix: Radix) {
    rest == [] || (DigitValue(rest[0]) >= 10 && (radix == Detect && n == 0 ==> rest[0] != 'x' && rest[0] != 'X'))
  }

  /** parseInt reads String(i) back as i, whatever text that is no digit follows. */
  lemma {:induction false} ParseIntReadsIntText(i: int, rest: string, radix: Radix)
    requires EndsDecimal(i, rest, radix)
    ensures ParseIntText(IntText(i) + rest, radix) == Some(i)
  {
    var m := if i < 0 then -i else i;
    SignOfIntText(i, rest);
    ReadUnsignedOfDecimal(m, rest, radix);
  }

  /** Decimal digits never carry a 0x prefix, so both radix modes read them alike. */
  lemma {:induction false} ReadUnsignedOfDecimal(m: nat, rest: string, radix: Radix)
    requires EndsDecimal(m, rest, radix)
    ensures ReadUnsigned(DecimalDigits(m) + rest, radix) == Some(m)
  {
    var d := DecimalDigits(m);
    LeadingDigit(m);
    assert radix == Detect ==> !HasHexPrefix(d + rest);
    ReadRunOfDecimal(m, rest);
  }

  /** parseFloat reads String(i) back as i. */
  lemma {:induction false} ParseFloatReadsIntText(i: int)
    ensures ParseFloatText(IntText(i)) == Some(Finite(i as real))
  {
    var m := if i < 0 then -i else i;
    var d := DecimalDigits(m);
    var signed := SplitSign(TrimStart(IntText(i)));
    assert signed == (i < 0, d) by {
      SignOfIntText(i, []);
      assert IntText(i) + [] == IntText(i);
      assert d + [] == d;
    }
    ReadMagnitudeOfDecimal(m);
    assert ReadMagnitude(signed.1) == Some(Finite(m as real));
    if i < 0 {
      assert Negate(Finite(m as real)) == Finite(i as real);
    }
  }

  /** A digit string is read by parseFloat as the number it denotes. */
  lemma {:induction false} ReadMagnitudeOfDecimal(m: nat)
    ensures ReadMagnitude(DecimalDigits(m)) == Some(Finite(m as real))
  {
    var d := DecimalDigits(m);
    assert !(|d| >= 8 && d[..8] == "Infinity") by { assert d[0] != 'I'; }
    ReadRunOfDecimal(m, []);
    assert d + [] == d;
    assert ReadDecimal(d) == Some(m as real);
  }

  /** Only a minus sign makes parseFloat negative: text whose first
      non-space character is not '-' never fails a "must not be negative" test. */
  lemma ParseFloatSign(s: string)
    requires ParseFloatText(s).Some? && IsNegative(ParseFloatText(s).value)
    ensures var t := TrimStart(s); t != [] && t[0] == '-'
  {
  }

  // ---------------------------------------------------------------------------
  // Case mapping (ASCII letters; other characters are left as they are)

  function LowerChar(c: char): char {
    if 'A' <= c <= 'Z' then (c as int + 32) as char else c
  }

  function UpperChar(c: char): char {
    if 'a' <= c <= 'z' then (c as int - 32) as char else c
  }

  function ToLowerCase(s: string): string {
    seq(|s|, i requires 0 <= i < |s| => LowerChar(s[i]))
  }

  function ToUpperCase(s: string): string {
    seq(|s|, i requires 0 <= i < |s| => UpperChar(s[i]))
  }

  /** A letter of either case, a digit or an underscore. */
  predicate IsWordChar(c: char) {
    'a' <= c <= 'z' || 'A' <= c <= 'Z' || '0' <= c <= '9' || c == '_'
  }

  /** Lower-casing never produces a word character from anything but a word
      character: text whose lower-case form is a plain identifier is one too. */
  lemma LowerPreservesWordChars(s: string)
    requires forall i :: 0 <= i < |s| ==> IsWordChar(ToLowerCase(s)[i])
    ensures forall i :: 0 <= i < |s| ==> IsWordChar(s[i])
  {
    forall i | 0 <= i < |s| ensures IsWordChar(s[i]) {
      assert ToLowerCase(s)[i] == LowerChar(s[i]);
    }
  }

  // ---------------------------------------------------------------------------
  // String.prototype.includes

  predicate OccursAt(s: string, sub: string, i: int) {
    0 <= i && i + |sub| <= |s| && s[i..i + |sub|] == sub
  }

  /** `s.includes(sub)`. */
  predicate Includes(s: string, sub: string)
    decreases |s|
  {
    |sub| <= |s| && (s[..|sub|] == sub || Includes(s[1..], sub))
  }

  /** Includes agrees with "occurs at some position", in both directions. */
  lemma {:induction false} IncludesIffOccurs(s: string, sub: string)
    ensures Includes(s, sub) <==> exists i :: OccursAt(s, sub, i)
    decreases |s|
  {
    if |sub| <= |s| {
      if s[..|sub|] == sub {
        assert OccursAt(s, sub, 0);
      } else {
        IncludesIffOccurs(s[1..], sub);
        if Includes(s[1..], sub) {
          var i :| OccursAt(s[1..], sub, i);
          assert s[i + 1..i + 1 + |sub|] == s[1..][i..i + |sub|];
          assert OccursAt(s, sub, i + 1);
        }
        if i :| OccursAt(s, sub, i) {
          assert i != 0;
          assert s[1..][i - 1..i - 1 + |sub|] == s[i..i + |sub|];
          assert OccursAt(s[1..], sub, i - 1);
        }
      }
    }
  }

  /** A message includes each of its prefixes. */
  lemma IncludesPrefix(s: string, sub: string)
    requires |sub| <= |s| && s[..|sub|] == sub
    ensures Includes(s, sub)
  {
  }

  lemma IncludesConcat(sub: string, rest: string)
    ensures Includes(sub + rest, sub)
  {
    assert (sub + rest)[..|sub|] == sub;
    IncludesPrefix(sub + rest, sub);
  }
}
