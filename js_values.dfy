/** The few JavaScript values and built-ins the thread-history panel relies on:
    nullable strings and their truthiness, numbers that may be NaN, the global
    `parseInt` with radix 10 (ECMA-262 section 19.2.5) and the decimal
    `toString` of a non-negative integer. */
module JsValues {

  /** A value that may be `null`. */
  datatype Option<T> = None | Some(value: T)

  /** A JavaScript number as the panel can come to hold one: an integer or NaN. */
  datatype Number = Int(value: int) | NaN

  /** JavaScript truthiness of a `string | null`: `null` and `""` are falsy. */
  predicate Truthy(s: Option<string>): (t: bool)
    ensures t ==> s.Some?
    ensures s == None || s == Some("") ==> !t
    ensures s.Some? && |s.value| > 0 ==> t
  {
    s.Some? && s.value != ""
  }

  predicate IsDigit(c: char) {
    '0' <= c <= '9'
  }

  function DigitValue(c: char): (d: nat)
    requires IsDigit(c)
    ensures d < 10
  {
    (c as int) - ('0' as int)
  }

  function DigitChar(d: nat): (c: char)
    requires d < 10
    ensures IsDigit(c) && DigitValue(c) == d
  {
    (('0' as int) + d) as char
  }

  /** The WhiteSpace (section 12.2 of ECMA-262) and LineTerminator (section 12.3)
      code points, which `parseInt` trims from the start of its argument. */
  predicate IsJsWhitespace(c: char) {
    var u := c as int;
    u == 0x09 || u == 0x0B || u == 0x0C || u == 0x20 || u == 0xA0 || u == 0xFEFF
    || u == 0x1680 || (0x2000 <= u <= 0x200A) || u == 0x202F || u == 0x205F || u == 0x3000
    || u == 0x0A || u == 0x0D || u == 0x2028 || u == 0x2029
  }

  /** `TrimString(s, start)`: `s` without its leading white space. */
  function TrimStart(s: string): (t: string)
    ensures |t| <= |s| && t == s[|s| - |t|..]
    ensures t == [] || !IsJsWhitespace(t[0])
    ensures forall i :: 0 <= i < |s| - |t| ==> IsJsWhitespace(s[i])
  {
    if |s| > 0 && IsJsWhitespace(s[0]) then TrimStart(s[1..]) else s
  }

  /** The longest prefix of `s` made of decimal digits. */
  function LeadingDigits(s: string): (d: string)
    ensures d <= s
    ensures forall i :: 0 <= i < |d| ==> IsDigit(d[i])
    ensures |d| == |s| || !IsDigit(s[|d|])
  {
    if |s| > 0 && IsDigit(s[0]) then [s[0]] + LeadingDigits(s[1..]) else []
  }

  /** The mathematical value of a string of decimal digits. */
  function DecimalValue(d: string): (n: nat)
    requires forall i :: 0 <= i < |d| ==> IsDigit(d[i])
  {
    if |d| == 0 then 0 else 10 * DecimalValue(d[..|d| - 1]) + DigitValue(d[|d| - 1])
  }

  /** `parseInt(s, 10)`: leading white space is skipped, then an optional sign,
      then the longest run of decimal digits is read; anything after the run is
      ignored, and an empty run gives NaN. (The value -0 is the integer 0 here.) */
  function ParseInt(s: string): (n: Number)
    ensures n.Int? ==> exists i :: 0 <= i < |s| && IsDigit(s[i])
    ensures |s| > 0 && IsDigit(s[0]) ==> n == Int(DecimalValue(LeadingDigits(s)))
  {
    ParseSignedNeedsDigit(s);
    ParseSignedOfDigitStart(s);
    ParseSigned(TrimStart(s))
  }

  /** `ParseInt` gives a number only for text that holds a digit. */
  lemma {:induction false} ParseSignedNeedsDigit(s: string)
    ensures ParseSigned(TrimStart(s)).Int? ==> exists i :: 0 <= i < |s| && IsDigit(s[i])
  {
    var t := TrimStart(s);
    DigitInSuffix(s, |s| - |t|);
    assert t == s[|s| - |t|..];
  }

  /** `ParseInt` of text that starts with a digit reads its leading digits. */
  lemma {:induction false} ParseSignedOfDigitStart(s: string)
    ensures |s| > 0 && IsDigit(s[0]) ==> ParseSigned(TrimStart(s)) == Int(DecimalValue(LeadingDigits(s)))
  {
    if |s| > 0 && IsDigit(s[0]) {
      TrimStartOfNonWhitespace(s);
      assert ParseSigned(s) == ParseDigits(s);
    }
  }

  /** Nothing is trimmed from a string that does not start with white space. */
  lemma {:induction false} TrimStartOfNonWhitespace(s: string)
    requires |s| > 0 && !IsJsWhitespace(s[0])
    ensures TrimStart(s) == s
  {
  }

  /** A digit of a suffix is a digit of the whole string. */
  lemma {:induction false} DigitInSuffix(s: string, k: nat)
    requires k <= |s|
    ensures (exists i :: 0 <= i < |s[k..]| && IsDigit(s[k..][i])) ==> exists i :: 0 <= i < |s| && IsDigit(s[i])
  {
    if exists i :: 0 <= i < |s[k..]| && IsDigit(s[k..][i]) {
      var i :| 0 <= i < |s[k..]| && IsDigit(s[k..][i]);
      assert s[k + i] == s[k..][i];
    }
  }

  /** `parseInt` after the white space: an optional sign, then the digits. */
  function ParseSigned(t: string): (n: Number)
    ensures n.Int? ==> exists i :: 0 <= i < |t| && IsDigit(t[i])
  {
    if |t| > 0 && t[0] == '-' then Negate(ParseDigits(t[1..]))
    else if |t| > 0 && t[0] == '+' then ParseDigits(t[1..])
    else ParseDigits(t)
  }

  /** The value of the leading digits of `u`, or NaN when there are none. */
  function ParseDigits(u: string): (n: Number)
    ensures n.NaN? <==> u == [] || !IsDigit(u[0])
    ensures n.Int? ==> n.value >= 0
  {
    var z := LeadingDigits(u);
    if z == [] then NaN else Int(DecimalValue(z))
  }

  function Negate(x: Number): (r: Number)
    ensures r.NaN? <==> x.NaN?
  {
    match x
    case Int(v) => Int(-v)
    case NaN => NaN
  }

  /** `n.toString()` for a non-negative integer `n`: its decimal digits, with no
      leading zero. */
  function DecimalString(n: nat): (s: string)
    ensures |s| > 0 && forall i :: 0 <= i < |s| ==> IsDigit(s[i])
    ensures |s| > 1 ==> s[0] != '0'
  {
    if n < 10 then [DigitChar(n)] else DecimalString(n / 10) + [DigitChar(n % 10)]
  }

  /** Reading back the digits that `toString` writes gives the number again. */
  lemma {:induction false} DecimalValueOfDecimalString(n: nat)
    ensures DecimalValue(DecimalString(n)) == n
  {
    if n >= 10 {
      var s := DecimalString(n);
      assert s[..|s| - 1] == DecimalString(n / 10);
      DecimalValueOfDecimalString(n / 10);
    }
  }

  /** A run of digits followed by something that is not a digit is read whole. */
  lemma {:induction false} LeadingDigitsOfDigits(d: string, rest: string)
    requires forall i :: 0 <= i < |d| ==> IsDigit(d[i])
    requires rest == [] || !IsDigit(rest[0])
    ensures LeadingDigits(d + rest) == d
  {
    if d != [] {
      assert (d + rest)[1..] == d[1..] + rest;
      LeadingDigitsOfDigits(d[1..], rest);
    }
  }

  /** `parseInt(n.toString() + rest, 10) == n` whenever `rest` does not continue
      the digits: the persisted width reads back as itself, and so does a
      width followed by a unit such as "px". */
  lemma {:induction false} ParseIntOfDecimalString(n: nat, rest: string)
    requires rest == [] || !IsDigit(rest[0])
    ensures ParseInt(DecimalString(n) + rest) == Int(n)
  {
    var d := DecimalString(n);
    var s := d + rest;
    assert s[0] == d[0] && IsDigit(s[0]);
    assert !IsJsWhitespace(s[0]);
    assert TrimStart(s) == s;
    ParseDigitsOfDecimalString(n, rest);
    assert ParseSigned(s) == ParseDigits(s);
  }

  lemma {:induction false} ParseDigitsOfDecimalString(n: nat, rest: string)
    requires rest == [] || !IsDigit(rest[0])
    ensures ParseDigits(DecimalString(n) + rest) == Int(n)
  {
    LeadingDigitsOfDigits(DecimalString(n), rest);
    DecimalValueOfDecimalString(n);
  }

  /** A leading minus sign negates the digits that follow it. */
  lemma {:induction false} ParseIntOfNegative(n: nat, rest: string)
    requires rest == [] || !IsDigit(rest[0])
    ensures ParseInt(['-'] + DecimalString(n) + rest) == Int(-(n as int))
  {
    var d := DecimalString(n);
    var s := ['-'] + d + rest;
    assert s[0] == '-';
    TrimStartOfNonWhitespace(s);
    assert s[1..] == d + rest;
    ParseDigitsOfDecimalString(n, rest);
    assert ParseInt(s) == ParseSigned(s) == Negate(ParseDigits(s[1..]));
  }

  /** A leading plus sign is skipped. */
  lemma {:induction false} ParseIntOfPlus(n: nat, rest: string)
    requires rest == [] || !IsDigit(rest[0])
    ensures ParseInt(['+'] + DecimalString(n) + rest) == Int(n)
  {
    var d := DecimalString(n);
    var s := ['+'] + d + rest;
    assert s[0] == '+';
    TrimStartOfNonWhitespace(s);
    assert s[1..] == d + rest;
    ParseDigitsOfDecimalString(n, rest);
    assert ParseInt(s) == ParseSigned(s) == ParseDigits(s[1..]);
  }

  /** When `parseInt` gives NaN: exactly when, after the white space and an
      optional sign, no decimal digit comes next. */
  lemma {:induction false} ParseIntIsNaNExactly(s: string)
    ensures var t := TrimStart(s);
            var u := if |t| > 0 && (t[0] == '-' || t[0] == '+') then t[1..] else t;
            ParseInt(s).NaN? <==> u == [] || !IsDigit(u[0])
  {
    var t := TrimStart(s);
    assert ParseInt(s) == ParseSigned(t);
  }

  /** Text whose first character is neither white space, a sign nor a digit
      reads as NaN, whatever follows: "w1" and "px450" among them. */
  lemma {:induction false} ParseIntOfNonNumber(s: string)
    requires s != [] && !IsJsWhitespace(s[0]) && !IsDigit(s[0]) && s[0] != '-' && s[0] != '+'
    ensures ParseInt(s) == NaN
  {
    TrimStartOfNonWhitespace(s);
    ParseIntIsNaNExactly(s);
  }

  /** A sign that is not followed by a digit reads as NaN, as in "-x5". */
  lemma {:induction false} ParseIntOfBareSign(sign: char, rest: string)
    requires sign == '-' || sign == '+'
    requires rest == [] || !IsDigit(rest[0])
    ensures ParseInt([sign] + rest) == NaN
  {
    var s := [sign] + rest;
    TrimStartOfNonWhitespace(s);
    assert s[1..] == rest;
    ParseIntIsNaNExactly(s);
  }

  /** White space in front of the number does not change what is read. */
  lemma {:induction false} ParseIntSkipsWhitespace(c: char, s: string)
    requires IsJsWhitespace(c)
    ensures ParseInt([c] + s) == ParseInt(s)
  {
    assert ([c] + s)[1..] == s;
  }

  /** A string with no decimal digit in it reads as NaN. */
  lemma {:induction false} ParseIntWithoutDigits(s: string)
    requires forall i :: 0 <= i < |s| ==> !IsDigit(s[i])
    ensures ParseInt(s) == NaN
  {
    var t := TrimStart(s);
    assert forall i :: 0 <= i < |t| ==> t[i] == s[|s| - |t| + i];
    if |t| > 0 && (t[0] == '-' || t[0] == '+') {
      assert |t| == 1 || !IsDigit(t[1..][0]);
    }
  }
}
