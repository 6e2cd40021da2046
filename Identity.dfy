/** The identity helpers of the chat hook: the five-digit rendezvous code,
    its validation (with JavaScript's `parseInt` for string input), and the
    namespaced identifier under which a peer registers with the transport. */
module Identity {
  import opened Wrappers

  /** Namespace put in front of every code to form a transport identifier. */
  const Prefix: string := "aperkaz-p2p-chat-"

  /** The random draw `floor(random() * 89999)` takes a value in [0, DrawSpan). */
  const DrawSpan: int := 89999

  /** A code is 10000 plus the random draw `k`. */
  function GetCode(k: int): (c: int)
    requires 0 <= k < DrawSpan
    ensures 10000 <= c <= 99998
  {
    k + 10000
  }

  /** The codes that can be drawn are exactly [10000, 99998]: 99999 never is. */
  lemma GetCodeRange(c: int)
    ensures (exists k :: 0 <= k < DrawSpan && GetCode(k) == c) <==> 10000 <= c <= 99998
  {
    if 10000 <= c <= 99998 {
      assert GetCode(c - 10000) == c;
    }
  }

  /** Every drawn code passes validation, both as a number and as its decimal text. */
  lemma GetCodeIsValid(k: int)
    requires 0 <= k < DrawSpan
    ensures IsValidCode(Num(GetCode(k)))
    ensures IsValidCode(Str(DecimalText(GetCode(k))))
  {
    ValidTextMatchesNumber(GetCode(k), "");
    assert DecimalText(GetCode(k)) + "" == DecimalText(GetCode(k));
  }

  // ---------------------------------------------------------------------
  // JavaScript's parseInt(s) with no radix argument
  // ---------------------------------------------------------------------

  /** White space and line terminators that parseInt skips before the number. */
  predicate IsJsSpace(ch: char) {
    || ch == '\t' || ch == '\n' || ch == '\U{B}' || ch == '\U{C}' || ch == '\r' || ch == ' '
    || ch == '\U{A0}' || ch == '\U{1680}' || '\U{2000}' <= ch <= '\U{200A}'
    || ch == '\U{2028}' || ch == '\U{2029}' || ch == '\U{202F}' || ch == '\U{205F}'
    || ch == '\U{3000}' || ch == '\U{FEFF}'
  }

  /** The value of a character read as a digit of radix up to 36; 36 when it is no digit at all. */
  function DigitValue(ch: char): (v: nat)
    ensures v <= 36
    ensures v < 10 <==> '0' <= ch <= '9'
  {
    if '0' <= ch <= '9' then ch as int - '0' as int
    else if 'a' <= ch <= 'z' then ch as int - 'a' as int + 10
    else if 'A' <= ch <= 'Z' then ch as int - 'A' as int + 10
    else 36
  }

  predicate IsDigitIn(ch: char, radix: nat) {
    DigitValue(ch) < radix
  }

  /** `s` with its leading white space removed. */
  function TrimStart(s: string): (r: string)
    ensures |r| <= |s| && r == s[|s| - |r|..]
    ensures r == [] || !IsJsSpace(r[0])
    ensures forall i :: 0 <= i < |s| - |r| ==> IsJsSpace(s[i])
  {
    if s != [] && IsJsSpace(s[0]) then TrimStart(s[1..]) else s
  }

  lemma TrimStartOfSpace(ch: char, s: string)
    requires IsJsSpace(ch)
    ensures TrimStart([ch] + s) == TrimStart(s)
  {
    assert ([ch] + s)[1..] == s;
  }

  /** Length of the longest prefix of `s` made of digits of `radix`. */
  function DigitPrefixLength(s: string, radix: nat): (n: nat)
    ensures n <= |s|
    ensures forall i :: 0 <= i < n ==> IsDigitIn(s[i], radix)
    ensures n < |s| ==> !IsDigitIn(s[n], radix)
  {
    if s == [] || !IsDigitIn(s[0], radix) then 0 else 1 + DigitPrefixLength(s[1..], radix)
  }

  /** The number that the digit string `d` denotes in `radix`. */
  function DigitsValue(d: string, radix: nat): nat
    decreases |d|
  {
    if d == [] then 0 else DigitsValue(d[..|d| - 1], radix) * radix + DigitValue(d[|d| - 1])
  }

  lemma DigitsValueOfSnoc(d: string, ch: char, radix: nat)
    ensures DigitsValue(d + [ch], radix) == DigitsValue(d, radix) * radix + DigitValue(ch)
  {
    assert (d + [ch])[..|d|] == d;
  }

  /** The digits of radix `radix` at the start of `v`, read as a number; None when there are none. */
  function ParseDigits(v: string, radix: nat): Option<nat> {
    var n := DigitPrefixLength(v, radix);
    if n == 0 then None else Some(DigitsValue(v[..n], radix))
  }

  predicate HasHexPrefix(u: string) {
    |u| >= 2 && u[0] == '0' && (u[1] == 'x' || u[1] == 'X')
  }

  /** The unsigned part: hexadecimal after a "0x" or "0X", decimal otherwise. */
  function ParseUnsigned(u: string): Option<nat> {
    if HasHexPrefix(u) then ParseDigits(u[2..], 16) else ParseDigits(u, 10)
  }

  /** `t` without one leading sign character. */
  function UnsignedPart(t: string): (u: string)
    ensures |u| <= |t| && u == t[|t| - |u|..]
  {
    if t != [] && (t[0] == '-' || t[0] == '+') then t[1..] else t
  }

  /** A number after white space has been skipped: one optional sign, then the unsigned part. */
  function ParseSigned(t: string): Option<int> {
    var negative := t != [] && t[0] == '-';
    match ParseUnsigned(UnsignedPart(t))
    case None => None
    case Some(m) =>
      var v: int := if negative then -(m as int) else m;
      Some(v)
  }

  /** parseInt(s): skip leading white space, take one optional sign, switch to
      radix 16 after a "0x" or "0X", then read the longest run of digits and
      ignore whatever follows. No digits at all gives NaN, here None. */
  function ParseInt(s: string): Option<int> {
    ParseSigned(TrimStart(s))
  }

  // ---------------------------------------------------------------------
  // Decimal text of a number, as a template literal renders it
  // ---------------------------------------------------------------------

  function DigitChar(d: int): (ch: char)
    requires 0 <= d < 10
    ensures DigitValue(ch) == d
  {
    ('0' as int + d) as char
  }

  /** Decimal digits of a natural number, without leading zeros. */
  function Digits(n: nat): (r: string)
    ensures |r| >= 1
    ensures forall i :: 0 <= i < |r| ==> IsDigitIn(r[i], 10)
    ensures (r[0] == '0') == (n == 0)
  {
    if n < 10 then [DigitChar(n)] else Digits(n / 10) + [DigitChar(n % 10)]
  }

  /** JavaScript writes a number of this magnitude or more in exponent form
      (`${1e21}` is "1e+21"); below it the text is the plain decimal digits. */
  const PlainTextBound: int := 1_000_000_000_000_000_000_000

  /** The text `${n}` of an integer below `PlainTextBound` in magnitude. */
  function DecimalText(n: int): string {
    if n < 0 then "-" + Digits(-n) else Digits(n)
  }

  lemma {:induction false} DigitsValueOfDigits(n: nat)
    ensures DigitsValue(Digits(n), 10) == n
  {
    var d := Digits(n);
    if n >= 10 {
      assert d[..|d| - 1] == Digits(n / 10);
      DigitsValueOfDigits(n / 10);
    }
  }

  lemma {:induction false} DigitPrefixOfAppend(a: string, t: string, radix: nat)
    requires forall i :: 0 <= i < |a| ==> IsDigitIn(a[i], radix)
    ensures DigitPrefixLength(a + t, radix) == |a| + DigitPrefixLength(t, radix)
  {
    if a == [] {
      assert a + t == t;
    } else {
      assert (a + t)[0] == a[0];
      assert (a + t)[1..] == a[1..] + t;
      DigitPrefixOfAppend(a[1..], t, radix);
    }
  }

  /** parseInt reads back the decimal text of any integer, whatever follows
      it, unless the next character is a digit, or the number is 0 and an
      "x" would turn "0" into a hexadecimal prefix. */
  lemma ParseDecimalText(n: int, t: string)
    requires t == [] || !IsDigitIn(t[0], 10)
    requires n != 0 || t == [] || (t[0] != 'x' && t[0] != 'X')
    ensures ParseInt(DecimalText(n) + t) == Some(n)
  {
    if n < 0 {
      var m: nat := -n;
      var text := DecimalText(n) + t;
      assert text == ['-'] + (Digits(m) + t) by {
        assert DecimalText(n) == ['-'] + Digits(m);
      }
      ParseNegativeText(m, t);
    } else {
      ParseNonNegativeText(n, t);
    }
  }

  lemma ParseNonNegativeText(m: nat, t: string)
    requires t == [] || !IsDigitIn(t[0], 10)
    requires m != 0 || t == [] || (t[0] != 'x' && t[0] != 'X')
    ensures ParseInt(Digits(m) + t) == Some(m)
  {
    var u := Digits(m) + t;
    ParseUnsignedOfDigits(m, t);
    assert u[0] == Digits(m)[0];
    ParseIntOfDigits(u);
  }

  lemma ParseNegativeText(m: nat, t: string)
    requires m > 0
    requires t == [] || !IsDigitIn(t[0], 10)
    ensures ParseInt(['-'] + (Digits(m) + t)) == Some(-(m as int))
  {
    var u := Digits(m) + t;
    ParseUnsignedOfDigits(m, t);
    assert IsDigitIn(u[0], 10) by {
      assert u[0] == Digits(m)[0];
    }
    ParseIntOfSigned('-', u, m);
  }

  /** A string that starts with a decimal digit is read without trimming or sign. */
  lemma ParseIntOfDigits(u: string)
    requires u != [] && IsDigitIn(u[0], 10)
    ensures ParseInt(u) == ParseUnsigned(u)
  {
    assert !IsJsSpace(u[0]) && u[0] != '-' && u[0] != '+' by {
      assert '0' <= u[0] <= '9';
    }
    TrimStartOfNonSpace(u);
    assert TrimStart(u) == u;
    assert UnsignedPart(u) == u;
    assert ParseSigned(u) == ParseUnsigned(u);
  }

  /** A sign followed by a decimal digit applies to the unsigned number after it. */
  lemma ParseIntOfSigned(sign: char, u: string, m: nat)
    requires sign == '-' || sign == '+'
    requires u != [] && IsDigitIn(u[0], 10)
    requires ParseUnsigned(u) == Some(m)
    ensures ParseInt([sign] + u) == Some(if sign == '-' then -(m as int) else m)
  {
    var s := [sign] + u;
    TrimStartOfNonSpace(s);
    assert UnsignedPart(s) == u by {
      assert s[1..] == u;
    }
  }

  /** Leading white space does not change what parseInt reads. */
  lemma ParseIntSkipsSpace(ch: char, s: string)
    requires IsJsSpace(ch)
    ensures ParseInt([ch] + s) == ParseInt(s)
  {
    TrimStartOfSpace(ch, s);
  }

  /** After "0x" or "0X" the digits are read in radix 16. */
  lemma ParseIntOfHex(x: char, v: string)
    requires x == 'x' || x == 'X'
    ensures ParseInt(['0', x] + v) == ParseDigits(v, 16)
  {
    var u := ['0', x] + v;
    TrimStartOfNonSpace(u);
    assert UnsignedPart(u) == u;
    assert HasHexPrefix(u) && u[2..] == v;
  }

  lemma TrimStartOfNonSpace(s: string)
    requires s != [] && !IsJsSpace(s[0])
    ensures TrimStart(s) == s
  {
  }

  lemma ParseUnsignedOfDigits(m: nat, t: string)
    requires t == [] || !IsDigitIn(t[0], 10)
    requires m != 0 || t == [] || (t[0] != 'x' && t[0] != 'X')
    ensures ParseUnsigned(Digits(m) + t) == Some(m)
  {
    var d := Digits(m);
    var u := d + t;
    assert u[0] == d[0];
    assert !HasHexPrefix(u) by {
      if |u| >= 2 && u[0] == '0' {
        assert |d| == 1;
        assert u[1] == t[0];
      }
    }
    DigitPrefixOfAppend(d, t, 10);
    assert DigitPrefixLength(t, 10) == 0;
    assert u[..|d|] == d;
    DigitsValueOfDigits(m);
  }

  /** A string without a single decimal digit parses to NaN. */
  lemma ParseIntNoDigits(s: string)
    requires forall i :: 0 <= i < |s| ==> !IsDigitIn(s[i], 10)
    ensures ParseInt(s) == None
  {
    var u := UnsignedPart(TrimStart(s));
    assert u == [] || !IsDigitIn(u[0], 10) by {
      if u != [] {
        assert u[0] == s[|s| - |u|];
      }
    }
    ParseUnsignedNoDigit(u);
  }

  lemma ParseUnsignedNoDigit(u: string)
    requires u == [] || !IsDigitIn(u[0], 10)
    ensures ParseUnsigned(u) == None
  {
    assert !HasHexPrefix(u);
    assert DigitPrefixLength(u, 10) == 0;
  }

  // ---------------------------------------------------------------------
  // isValidCode and getId
  // ---------------------------------------------------------------------

  /** The argument of isValidCode and getId: a JavaScript number or string. */
  datatype CodeInput = Num(n: int) | Str(s: string)

  /** isValidCode: a number is checked against [10000, 99999] directly; a
      string is first read by parseInt, and NaN is rejected. */
  predicate IsValidCode(id: CodeInput): (valid: bool)
    ensures valid && id.Str? ==> exists i :: 0 <= i < |id.s| && IsDigitIn(id.s[i], 10)
  {
    match id
    case Str(s) =>
      HasDigitIfParses(s);
      ParseInt(s).Some? && 10000 <= ParseInt(s).value <= 99999
    case Num(n) => 10000 <= n <= 99999
  }

  /** A string parseInt reads a number from contains a decimal digit. */
  lemma HasDigitIfParses(s: string)
    ensures ParseInt(s).Some? ==> exists i :: 0 <= i < |s| && IsDigitIn(s[i], 10)
  {
    if forall i :: 0 <= i < |s| ==> !IsDigitIn(s[i], 10) {
      ParseIntNoDigits(s);
    }
  }

  /** A string that starts with the decimal text of a number is judged as the
      number itself, whatever trails it: "99999a" is valid like 99999. */
  lemma ValidTextMatchesNumber(n: int, t: string)
    requires t == [] || !IsDigitIn(t[0], 10)
    requires n != 0 || t == [] || (t[0] != 'x' && t[0] != 'X')
    ensures IsValidCode(Str(DecimalText(n) + t)) == IsValidCode(Num(n))
  {
    ParseDecimalText(n, t);
  }

  /** A string with no decimal digit ("", "abc") is never a valid code. */
  lemma NoDigitsInvalid(s: string)
    requires forall i :: 0 <= i < |s| ==> !IsDigitIn(s[i], 10)
    ensures !IsValidCode(Str(s))
  {
    ParseIntNoDigits(s);
  }

  /** JavaScript truthiness of getId's optional argument: 0 and "" are falsy. */
  predicate Truthy(code: Option<CodeInput>) {
    match code
    case None => false
    case Some(Num(n)) => n != 0
    case Some(Str(s)) => s != ""
  }

  /** The text a template literal makes of the argument. */
  function Text(c: CodeInput): string {
    match c
    case Num(n) => DecimalText(n)
    case Str(s) => s
  }

  /** getId(code): the prefixed identifier of `code`, or of a freshly drawn
      code (from draw `k`) when `code` is absent or falsy. */
  function GetId(code: Option<CodeInput>, k: int): (id: string)
    requires 0 <= k < DrawSpan
    ensures |Prefix| <= |id| && id[..|Prefix|] == Prefix
  {
    if Truthy(code) then Prefix + Text(code.value) else Prefix + DecimalText(GetCode(k))
  }

  /** For a truthy code the identifier ignores the draw, and removing the prefix gives the code's text back. */
  lemma GetIdOfTruthy(code: Option<CodeInput>, k1: int, k2: int)
    requires 0 <= k1 < DrawSpan && 0 <= k2 < DrawSpan
    requires Truthy(code)
    ensures GetId(code, k1) == GetId(code, k2)
    ensures GetId(code, k1)[|Prefix|..] == Text(code.value)
  {
  }

  /** Reading the identifier of a nonzero number after the prefix gives the number back. */
  lemma GetIdRoundTrip(n: int, k: int)
    requires 0 <= k < DrawSpan
    requires n != 0 && -PlainTextBound < n < PlainTextBound
    ensures ParseInt(GetId(Some(Num(n)), k)[|Prefix|..]) == Some(n)
  {
    assert GetId(Some(Num(n)), k)[|Prefix|..] == DecimalText(n) + "";
    ParseDecimalText(n, "");
  }

  /** Distinct nonzero codes have distinct identifiers. */
  lemma GetIdInjective(a: int, b: int, k: int)
    requires 0 <= k < DrawSpan
    requires a != 0 && b != 0
    requires -PlainTextBound < a < PlainTextBound && -PlainTextBound < b < PlainTextBound
    requires GetId(Some(Num(a)), k) == GetId(Some(Num(b)), k)
    ensures a == b
  {
    GetIdRoundTrip(a, k);
    GetIdRoundTrip(b, k);
  }

  /** A falsy or absent code is replaced by a drawn one, so the identifier still ends in a valid code. */
  lemma GetIdOfFalsy(code: Option<CodeInput>, k: int)
    requires 0 <= k < DrawSpan
    requires !Truthy(code)
    ensures GetId(code, k) == Prefix + DecimalText(GetCode(k))
    ensures IsValidCode(Str(GetId(code, k)[|Prefix|..]))
  {
    assert GetId(code, k)[|Prefix|..] == DecimalText(GetCode(k));
    GetCodeIsValid(k);
  }
}
