/** The JavaScript values that table rows and filters hold, strict equality on them,
    and `parseInt` with no radix argument. */
module JsValue {
  import opened Text

  /** A `Date` is an object, so besides its instant it carries an identity `ref`:
      two `Date`s are `===` only when they are the same object. */
  datatype Value =
    | Str(s: string)
    | Num(n: int)
    | NaN
    | Bool(b: bool)
    | Undefined
    | DateObj(ref: nat, stamp: int)

  /** A plain object: field name to value. */
  type Record = map<string, Value>

  /** `r[k]`: a missing field reads as `undefined`. */
  function Get(r: Record, k: string): (v: Value)
    ensures k !in r ==> v == Undefined
    ensures k in r ==> v == r[k]
  {
    if k in r then r[k] else Undefined
  }

  /** `a === b`: primitives by value, `NaN` never equal to anything, objects by identity. */
  predicate StrictEq(a: Value, b: Value)
  {
    match (a, b)
    case (Str(x), Str(y)) => x == y
    case (Num(x), Num(y)) => x == y
    case (Bool(x), Bool(y)) => x == y
    case (Undefined, Undefined) => true
    case (DateObj(x, _), DateObj(y, _)) => x == y
    case _ => false
  }

  /** `===` agrees with equality of values except on `NaN` and on `Date` objects. */
  lemma StrictEqMeaning(a: Value, b: Value)
    requires !a.NaN? && !a.DateObj?
    ensures StrictEq(a, b) <==> a == b
  {
  }

  // ---------------------------------------------------------------------
  // parseInt

  /** The characters `parseInt` skips before the number (white space and line terminators). */
  predicate IsJsWhitespace(c: char)
  {
    var n := c as int;
    (9 <= n <= 13) || n == 32 || n == 0xA0 || n == 0x1680 || (0x2000 <= n <= 0x200A)
    || n == 0x2028 || n == 0x2029 || n == 0x202F || n == 0x205F || n == 0x3000 || n == 0xFEFF
  }

  function TrimStart(s: string): (r: string)
    ensures |r| <= |s| && r == s[|s| - |r|..]
    ensures r != [] ==> !IsJsWhitespace(r[0])
    ensures forall i :: 0 <= i < |s| - |r| ==> IsJsWhitespace(s[i])
  {
    if s != [] && IsJsWhitespace(s[0]) then TrimStart(s[1..]) else s
  }

  /** The value of `c` as a digit in base 10 or 16, if it is one. */
  function DigitValue(c: char, radix: nat): (d: int)
    requires radix == 10 || radix == 16
    ensures -1 <= d < radix
    ensures IsDecimalDigit(c) ==> d == (c as int) - ('0' as int)
  {
    if '0' <= c <= '9' then (c as int) - ('0' as int)
    else if radix == 16 && 'a' <= c <= 'f' then (c as int) - ('a' as int) + 10
    else if radix == 16 && 'A' <= c <= 'F' then (c as int) - ('A' as int) + 10
    else -1
  }

  /** The longest prefix of `s` made of digits of the radix. */
  function DigitPrefix(s: string, radix: nat): (r: string)
    requires radix == 10 || radix == 16
    ensures StartsWith(s, r)
    ensures forall i :: 0 <= i < |r| ==> DigitValue(r[i], radix) >= 0
    ensures |r| < |s| ==> DigitValue(s[|r|], radix) < 0
  {
    if s != [] && DigitValue(s[0], radix) >= 0 then [s[0]] + DigitPrefix(s[1..], radix) else ""
  }

  function DigitsValue(s: string, radix: nat): nat
    requires radix == 10 || radix == 16
    requires forall i :: 0 <= i < |s| ==> DigitValue(s[i], radix) >= 0
  {
    if s == [] then 0
    else DigitsValue(s[..|s| - 1], radix) * radix + DigitValue(s[|s| - 1], radix)
  }

  predicate HasHexPrefix(s: string)
  {
    |s| >= 2 && s[0] == '0' && (s[1] == 'x' || s[1] == 'X')
  }

  /** `parseInt(s)`: skip leading white space, take an optional sign, read base 16 after a
      `0x`/`0X` prefix and base 10 otherwise, stop at the first character that is not a digit;
      `NaN` when no digit was read. */
  function ParseIntString(s: string): (r: Value)
    ensures r.Num? || r.NaN?
    ensures s != [] && AllDecimal(s) ==> r == Num(DecimalValue(s))
  {
    var t := TrimStart(s);
    var negative := t != [] && t[0] == '-';
    var u := if t != [] && (t[0] == '-' || t[0] == '+') then t[1..] else t;
    var radix := if HasHexPrefix(u) then 16 else 10;
    var body := if radix == 16 then u[2..] else u;
    var digits := DigitPrefix(body, radix);
    ParseDecimalFacts(s);
    if digits == [] then NaN
    else
      var magnitude: int := DigitsValue(digits, radix);
      Num(if negative then -magnitude else magnitude)
  }

  /** On a string of decimal digits the parser's steps are all the identity. */
  lemma ParseDecimalFacts(s: string)
    ensures s != [] && AllDecimal(s) ==>
      TrimStart(s) == s && !HasHexPrefix(s) && DigitPrefix(s, 10) == s
      && DigitsValue(s, 10) == DecimalValue(s)
  {
    if s != [] && AllDecimal(s) {
      assert !IsJsWhitespace(s[0]);
      AllDigitsPrefix(s);
      DigitsValueDecimal(s);
    }
  }

  lemma {:induction false} AllDigitsPrefix(s: string)
    requires AllDecimal(s)
    ensures DigitPrefix(s, 10) == s
  {
    if s != [] {
      AllDigitsPrefix(s[1..]);
    }
  }

  lemma {:induction false} DigitsValueDecimal(s: string)
    requires AllDecimal(s)
    ensures DigitsValue(s, 10) == DecimalValue(s)
  {
    if s != [] {
      DigitsValueDecimal(s[..|s| - 1]);
    }
  }

  /** `parseInt` reads back what `String(n)` writes, negative numbers included. */
  lemma ParseIntRoundTrip(n: int)
    ensures ParseIntString(IntToDecimal(n)) == Num(n)
  {
    DecimalRoundTrip(if n < 0 then -n else n);
    if n < 0 {
      var s := IntToDecimal(n);
      var d := NatToDecimal(-n);
      assert s[1..] == d;
      assert !IsJsWhitespace(s[0]);
      assert TrimStart(s) == s;
      ParseDecimalFacts(d);
    }
  }

  /** `parseInt` stops at the first character that is not a decimal digit. */
  lemma ParseIntStopsAtNonDigit(digits: string, rest: string)
    requires digits != [] && AllDecimal(digits)
    requires !HasHexPrefix(digits + rest)
    requires rest != [] ==> !IsDecimalDigit(rest[0])
    ensures ParseIntString(digits + rest) == Num(DecimalValue(digits))
  {
    var s := digits + rest;
    assert s[0] == digits[0];
    assert !IsJsWhitespace(s[0]);
    DigitPrefixAppend(digits, rest);
    DigitsValueDecimal(digits);
  }

  lemma {:induction false} DigitPrefixAppend(digits: string, rest: string)
    requires AllDecimal(digits)
    requires rest != [] ==> !IsDecimalDigit(rest[0])
    ensures DigitPrefix(digits + rest, 10) == digits
  {
    if digits == [] {
      assert digits + rest == rest;
    } else {
      assert (digits + rest)[1..] == digits[1..] + rest;
      DigitPrefixAppend(digits[1..], rest);
    }
  }

  /** `String(v)` followed by the digit scan: what `parseInt` makes of any value.
      The string form of a `Date` begins with the name of a weekday, so it never parses. */
  function ParseInt(v: Value): (r: Value)
    ensures r.Num? || r.NaN?
    ensures v.Str? && v.s != [] && AllDecimal(v.s) ==> r == Num(DecimalValue(v.s))
  {
    match v
    case Str(s) => ParseIntString(s)
    case Num(n) => ParseIntString(IntToDecimal(n))
    case Bool(b) => ParseIntString(if b then "true" else "false")
    case Undefined => ParseIntString("undefined")
    case NaN => ParseIntString("NaN")
    case DateObj(_, _) => NaN
  }

  /** An integer goes through `parseInt` unchanged. */
  lemma ParseIntOfNumber(n: int)
    ensures ParseInt(Num(n)) == Num(n)
  {
    ParseIntRoundTrip(n);
  }
}
