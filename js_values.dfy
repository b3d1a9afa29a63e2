/** The JavaScript values a request body can hold (what `express.json()` produces, plus
    `undefined` for a missing property), and the coercions the controllers apply to them:
    truthiness, property access, `Array.isArray`, `.length`, `x <= 0` and `a * b`. */
module JsValues {
  import opened Wrappers
  import opened JsStrings

  /** A JSON value, or `undefined`. A JSON numeral is read as the exact real it denotes: JSON
      has no `NaN`, and the `Infinity` that `JSON.parse` gives a numeral beyond the double range
      (`1e400`) is floating-point overflow, which these numbers do not have. */
  datatype JsValue =
    | Undefined
    | Null
    | Bool(b: bool)
    | Num(n: real)
    | Str(s: string)
    | Arr(items: seq<JsValue>)
    | Obj(fields: map<string, JsValue>)

  /** The outcome of an operation that can throw a `TypeError`. */
  datatype Completion<+T> = Normal(value: T) | Throw

  /** ECMAScript ToBoolean: `undefined`, `null`, `false`, `0` and `''` are falsy. */
  predicate Truthy(v: JsValue)
  {
    match v
    case Undefined => false
    case Null => false
    case Bool(b) => b
    case Num(n) => n != 0.0
    case Str(s) => s != []
    case Arr(_) => true
    case Obj(_) => true
  }

  /** `v.name`, as the destructuring `const { name } = v` reads it: a `TypeError` on
      `undefined` and `null`, the property of an object, `undefined` for anything else. */
  function Get(v: JsValue, name: string): (r: Completion<JsValue>)
    ensures r.Throw? <==> v == Undefined || v == Null
    ensures v.Obj? ==> r == Normal(if name in v.fields then v.fields[name] else Undefined)
    ensures v.Str? || v.Num? || v.Bool? || v.Arr? ==> r == Normal(Undefined)
  {
    match v
    case Undefined => Throw
    case Null => Throw
    case Obj(f) => Normal(if name in f then f[name] else Undefined)
    case _ => Normal(Undefined)
  }

  /** A JavaScript number produced by arithmetic or coercion: `NaN`, a finite value, or one of
      the two infinities. */
  datatype JsNumber = NaN | Finite(r: real) | PosInf | NegInf

  predicate IsInfinite(a: JsNumber)
  {
    a == PosInf || a == NegInf
  }

  /** The sign of a number that is not `NaN`: -1, 0 or 1. */
  function Sign(a: JsNumber): int
    requires !a.NaN?
  {
    match a
    case PosInf => 1
    case NegInf => -1
    case Finite(r) => if r > 0.0 then 1 else if r < 0.0 then -1 else 0
  }

  /** `a * b`. `NaN` absorbs, an infinity times zero is `NaN`, and otherwise an infinite factor
      gives the infinity of the product's sign. */
  function Multiply(a: JsNumber, b: JsNumber): (r: JsNumber)
  {
    if a.NaN? || b.NaN? then NaN
    else if a.Finite? && b.Finite? then Finite(a.r * b.r)
    else if Sign(a) == 0 || Sign(b) == 0 then NaN
    else if Sign(a) * Sign(b) > 0 then PosInf
    else NegInf
  }

  /** `a + b` on numbers. `NaN` absorbs, the two opposite infinities give `NaN`, and otherwise
      an infinite term wins. */
  function Add(a: JsNumber, b: JsNumber): (r: JsNumber)
  {
    if a.NaN? || b.NaN? then NaN
    else if a.Finite? && b.Finite? then Finite(a.r + b.r)
    else if (a == PosInf && b == NegInf) || (a == NegInf && b == PosInf) then NaN
    else if IsInfinite(a) then a
    else b
  }

  /** Unary minus. */
  function Negate(a: JsNumber): (r: JsNumber)
    ensures a.Finite? ==> r == Finite(-a.r)
    ensures a == PosInf <==> r == NegInf
    ensures a == NegInf <==> r == PosInf
    ensures a.NaN? <==> r.NaN?
  {
    match a
    case NaN => NaN
    case Finite(x) => Finite(-x)
    case PosInf => NegInf
    case NegInf => PosInf
  }

  /** The value of a run of decimal digits read as the digits after a decimal point. */
  function Fraction(s: string): (r: real)
    requires AllDigits(s)
    ensures 0.0 <= r < 1.0
  {
    if s == [] then 0.0
    else ((s[0] as int - '0' as int) as real + Fraction(s[1..])) / 10.0
  }

  /** Index of the first `.` in `s`, or `|s|` if there is none. */
  function DotIndex(s: string): (i: nat)
    ensures i <= |s|
    ensures i < |s| ==> s[i] == '.'
  {
    if s == [] || s[0] == '.' then 0 else 1 + DotIndex(s[1..])
  }

  /** No `.` comes before the one `DotIndex` finds. */
  lemma {:induction false} DotIndexFirst(s: string)
    ensures forall j :: 0 <= j < DotIndex(s) ==> s[j] != '.'
  {
    if s != [] && s[0] != '.' {
      DotIndexFirst(s[1..]);
      assert forall j :: 1 <= j < DotIndex(s) ==> s[j] == s[1..][j - 1];
    }
  }

  /** Index of the first `e` or `E` in `s`, or `|s|` if there is none. */
  function ExponentIndex(s: string): (i: nat)
    ensures i <= |s|
    ensures i < |s| ==> s[i] == 'e' || s[i] == 'E'
  {
    if s == [] || s[0] == 'e' || s[0] == 'E' then 0 else 1 + ExponentIndex(s[1..])
  }

  /** No `e` or `E` comes before the one `ExponentIndex` finds. */
  lemma {:induction false} ExponentIndexFirst(s: string)
    ensures forall j :: 0 <= j < ExponentIndex(s) ==> s[j] != 'e' && s[j] != 'E'
  {
    if s != [] && s[0] != 'e' && s[0] != 'E' {
      ExponentIndexFirst(s[1..]);
      assert forall j :: 1 <= j < ExponentIndex(s) ==> s[j] == s[1..][j - 1];
    }
  }

  /** `10^e` for any integer `e`. */
  function Pow10(e: int): (p: real)
    ensures p > 0.0
    decreases if e < 0 then -e else e
  {
    if e == 0 then 1.0
    else if e > 0 then 10.0 * Pow10(e - 1)
    else Pow10(e + 1) / 10.0
  }

  /** `m * 10^e`: the value of a literal with mantissa `m` and exponent `e`. */
  function Scaled(m: real, e: int): (r: real)
    requires m >= 0.0
    ensures r >= 0.0
    ensures e == 0 ==> r == m
  {
    m * Pow10(e)
  }

  /** The mantissa `digits[.digits]`, `.digits` or `digits.` of a decimal literal. */
  function Mantissa(u: string): (r: Option<real>)
    ensures r.Some? ==> r.value >= 0.0
  {
    var i := DotIndex(u);
    var whole, frac := u[..i], if i < |u| then u[i + 1..] else [];
    if AllDigits(whole) && AllDigits(frac) && |whole| + |frac| > 0 then
      Some(DecimalValue(whole) as real + Fraction(frac))
    else None
  }

  /** The exponent after `e`: an optional sign, then one or more decimal digits. */
  function SignedInteger(s: string): (r: Option<int>)
  {
    var neg := s != [] && s[0] == '-';
    var digits := if s != [] && (s[0] == '-' || s[0] == '+') then s[1..] else s;
    if digits != [] && AllDigits(digits) then
      Some(if neg then -(DecimalValue(digits) as int) else DecimalValue(digits))
    else None
  }

  /** The word `Infinity`. */
  predicate IsInfinityWord(u: string)
  {
    u == "Infinity"
  }

  /** The mantissa of a decimal literal: everything before its first `e` or `E`. */
  function MantissaOf(u: string): Option<real>
  {
    Mantissa(u[..ExponentIndex(u)])
  }

  /** The exponent of a decimal literal: the signed integer after its first `e` or `E`, and
      `0` if there is none. */
  function ExponentOf(u: string): Option<int>
  {
    var i := ExponentIndex(u);
    if i < |u| then SignedInteger(u[i + 1..]) else Some(0)
  }

  /** StrUnsignedDecimalLiteral: `Infinity`, or a mantissa with an optional exponent. */
  function UnsignedDecimal(u: string): (r: JsNumber)
    ensures r != NegInf
  {
    if IsInfinityWord(u) then PosInf
    else
      var m, e := MantissaOf(u), ExponentOf(u);
      if m.Some? && e.Some? then Finite(Scaled(m.value, e.value)) else NaN
  }

  /** An unsigned literal never reads as a negative number. */
  lemma {:induction false} UnsignedDecimalNonNegative(u: string)
    ensures UnsignedDecimal(u).Finite? ==> UnsignedDecimal(u).r >= 0.0
  {
    if !IsInfinityWord(u) && MantissaOf(u).Some? && ExponentOf(u).Some? {
      assert MantissaOf(u).value >= 0.0;
    }
  }

  /** The digit letter after a leading `0` that selects a radix: `x` hex, `o` octal, `b`
      binary, in either case. */
  function RadixOfPrefix(c: char): Option<nat>
  {
    if c == 'x' || c == 'X' then Some(16)
    else if c == 'o' || c == 'O' then Some(8)
    else if c == 'b' || c == 'B' then Some(2)
    else None
  }

  /** NonDecimalIntegerLiteral: `0x`, `0o` or `0b`, then one or more digits of that radix, and
      no sign. */
  predicate HasRadixPrefix(t: string)
  {
    |t| >= 2 && t[0] == '0' && RadixOfPrefix(t[1]).Some?
  }

  /** Every character of `s` is a digit of base `radix`. */
  predicate AllRadixDigits(s: string, radix: nat)
  {
    s == [] || (RadixDigit(s[0], radix).Some? && AllRadixDigits(s[1..], radix))
  }

  function NonDecimal(t: string): (r: JsNumber)
    requires HasRadixPrefix(t)
    ensures r.NaN? || (r.Finite? && r.r >= 0.0)
  {
    var radix, digits := RadixOfPrefix(t[1]).value, t[2..];
    if digits != [] && AllRadixDigits(digits, radix) then
      Finite(ReadDigits(digits, radix, 0) as real)
    else NaN
  }

  /** ECMAScript StringToNumber: surrounding white space is ignored and the empty string is
      `0`; then a `0x`/`0o`/`0b` integer, or an optional sign before `Infinity` or a decimal
      literal with an optional exponent. Anything else is `NaN`. */
  function StringToNumber(s: string): (r: JsNumber)
    ensures Trim(s) == [] ==> r == Finite(0.0)
  {
    var t := Trim(s);
    if t == [] then Finite(0.0)
    else if HasRadixPrefix(t) then NonDecimal(t)
    else if t[0] == '-' then Negate(UnsignedDecimal(t[1..]))
    else if t[0] == '+' then UnsignedDecimal(t[1..])
    else UnsignedDecimal(t)
  }

  /** Whether ECMAScript ToPrimitive throws a `TypeError` on a JSON value, under either hint.
      An own `toString` property of a JSON object is never a function, so OrdinaryToPrimitive
      skips it, and `valueOf`, inherited (it returns the object) or own (not callable either),
      yields no primitive. An array is converted by `join`, which converts every element other
      than `undefined` and `null`. */
  predicate PrimitiveThrows(v: JsValue)
  {
    match v
    case Obj(f) => "toString" in f
    case Arr(items) => exists i :: 0 <= i < |items| && PrimitiveThrows(items[i])
    case _ => false
  }

  /** ECMAScript ToNumber, for a value on which ToPrimitive does not throw. An object without
      an own `toString` becomes `'[object Object]'`, which is `NaN`. An array is first turned
      into the string of its elements joined by commas: `[]` is `0`, a one-element array is
      its element read as a string, and two or more elements always leave a comma, which no
      numeral contains. */
  function ToNumber(v: JsValue): (r: JsNumber)
    ensures v.Num? ==> r == Finite(v.n)
    ensures v == Undefined || v.Obj? ==> r == NaN
    ensures v == Null ==> r == Finite(0.0)
    decreases v
  {
    match v
    case Undefined => NaN
    case Null => Finite(0.0)
    case Bool(b) => Finite(if b then 1.0 else 0.0)
    case Num(n) => Finite(n)
    case Str(s) => StringToNumber(s)
    case Obj(_) => NaN
    case Arr(items) =>
      if |items| == 0 then Finite(0.0)
      else if |items| > 1 then NaN
      else
        match items[0]
        case Undefined => Finite(0.0)
        case Null => Finite(0.0)
        case Bool(_) => NaN
        case Obj(_) => NaN
        case x => ToNumber(x)
  }

  /** A value whose conversion throws reads as `NaN` here, so it never passes a `<= 0` test:
      callers test `PrimitiveThrows` before the comparison. */
  lemma {:induction false} PrimitiveThrowsIsNaN(v: JsValue)
    requires PrimitiveThrows(v)
    ensures ToNumber(v) == NaN
  {
    if v.Arr? && |v.items| == 1 {
      PrimitiveThrowsIsNaN(v.items[0]);
    }
  }

  /** A value that compares `<= 0` is one whose conversion does not throw. */
  lemma {:induction false} AtMostZeroConverts(v: JsValue)
    requires AtMostZero(v)
    ensures !PrimitiveThrows(v)
  {
    if PrimitiveThrows(v) {
      PrimitiveThrowsIsNaN(v);
    }
  }

  /** `v <= 0`, when it does not throw: both sides are compared as numbers, and a comparison
      with `NaN` is false. */
  predicate AtMostZero(v: JsValue)
  {
    ToNumber(v) == NegInf || (ToNumber(v).Finite? && ToNumber(v).r <= 0.0)
  }

  /** `sets <= 0 || reps <= 0` throws: the first comparison converts `sets`, and the second,
      made only when the first is false, converts `reps`. */
  predicate SignTestThrows(sets: JsValue, reps: JsValue)
  {
    PrimitiveThrows(sets) || (!AtMostZero(sets) && PrimitiveThrows(reps))
  }

  /** `v.length > n` throws: only an object's own `length` property can hold a value whose
      conversion throws. */
  predicate LengthThrows(v: JsValue)
  {
    v.Obj? && "length" in v.fields && PrimitiveThrows(v.fields["length"])
  }

  /** `v.length > n` for a value that is known to be truthy, when it does not throw: a string counts UTF-16 code
      units, an array its elements; an object compares its own `length` property; numbers
      and booleans have no `length`, and `undefined > n` is false. */
  predicate LengthExceeds(v: JsValue, n: nat)
  {
    match v
    case Str(s) => Utf16Length(s) > n
    case Arr(items) => |items| > n
    case Obj(f) =>
      "length" in f && f["length"] != Undefined
      && (ToNumber(f["length"]) == PosInf || (ToNumber(f["length"]).Finite? && ToNumber(f["length"]).r > n as real))
    case _ => false
  }

  /** A number is `<= 0` exactly when it is not positive, and a number is never coerced. */
  lemma {:induction false} AtMostZeroOfNumber(n: real)
    ensures AtMostZero(Num(n)) <==> n <= 0.0
  {
  }

  /** `undefined <= 0` is false, so a missing count passes a `<= 0` check. */
  lemma {:induction false} UndefinedIsNotAtMostZero()
    ensures !AtMostZero(Undefined)
  {
  }

  lemma {:induction false} UnsignedDecimalOfNumeral(d: string)
    requires |d| > 0 && AllDigits(d)
    ensures UnsignedDecimal(d) == Finite(DecimalValue(d) as real)
  {
    var i := DotIndex(d);
    assert i == |d|;
    assert d[..i] == d;
  }

  lemma {:induction false} TrimOfNumeral(d: string)
    requires |d| > 0 && AllDigits(d)
    ensures Trim(d) == d
  {
    TrimUnspaced(d);
  }

  /** A numeral string compares as the number it denotes. */
  lemma {:induction false} AtMostZeroOfNumeral(d: string)
    requires |d| > 0 && AllDigits(d)
    ensures ToNumber(Str(d)) == Finite(DecimalValue(d) as real)
    ensures AtMostZero(Str(d)) <==> DecimalValue(d) == 0
  {
    TrimOfNumeral(d);
    UnsignedDecimalOfNumeral(d);
    assert d[0] != '-' && d[0] != '+';
  }

  /** A mantissa of decimal digits is read as their value. */
  lemma {:induction false} MantissaOfNumeral(d: string)
    requires |d| > 0 && AllDigits(d)
    ensures Mantissa(d) == Some(DecimalValue(d) as real)
  {
    assert DotIndex(d) == |d|;
    assert d[..|d|] == d;
  }

  /** An unspaced unsigned literal that does not start with `0x`, `0o` or `0b` reads as
      StrUnsignedDecimalLiteral. */
  lemma {:induction false} UnsignedDecimalString(u: string)
    requires u != [] && !IsJsWhitespace(u[0]) && !IsJsWhitespace(u[|u| - 1])
    requires u[0] != '-' && u[0] != '+' && !HasRadixPrefix(u)
    ensures StringToNumber(u) == UnsignedDecimal(u)
  {
    TrimUnspaced(u);
  }

  /** A minus sign before a literal with no trailing white space negates the literal. */
  lemma {:induction false} NegativeDecimalString(t: string)
    requires |t| >= 2 && t[0] == '-' && !IsJsWhitespace(t[|t| - 1])
    ensures StringToNumber(t) == Negate(UnsignedDecimal(t[1..]))
  {
    TrimUnspaced(t);
    assert !HasRadixPrefix(t);
  }

  /** `u` is decimal digits, an `e` at index `k`, and decimal digits again. */
  predicate ExponentShape(u: string, k: nat)
  {
    0 < k < |u| - 1 && u[k] == 'e' && AllDigits(u[..k]) && AllDigits(u[k + 1..])
  }

  /** Such a literal has the value of its digits before the `e`, times ten to the power of
      the digits after it. */
  lemma {:induction false} ExponentLiteral(u: string, k: nat)
    requires ExponentShape(u, k)
    ensures UnsignedDecimal(u) == Finite(Scaled(DecimalValue(u[..k]) as real, DecimalValue(u[k + 1..])))
  {
    assert forall j :: 0 <= j < k ==> u[j] == u[..k][j];
    assert ExponentIndex(u) == k by { ExponentIndexFirst(u); }
    MantissaOfNumeral(u[..k]);
    assert MantissaOf(u) == Some(DecimalValue(u[..k]) as real);
    var e := u[k + 1..];
    assert e[0] != '-' && e[0] != '+';
    assert ExponentOf(u) == Some(DecimalValue(e) as int);
    assert !IsInfinityWord(u) by {
      assert u[..k][0] == u[0];
      assert IsDigit(u[0]) && !IsDigit("Infinity"[0]);
    }
  }

  /** The negation of such a literal. */
  lemma {:induction false} NegatedExponentLiteral(u: string, k: nat)
    requires ExponentShape(u, k)
    ensures Negate(UnsignedDecimal(u)) == Finite(-Scaled(DecimalValue(u[..k]) as real, DecimalValue(u[k + 1..])))
  {
    ExponentLiteral(u, k);
  }

  /** `'1e1'` reads as `10`. */
  lemma {:induction false} ExponentNumeral()
    ensures StringToNumber("1e1") == Finite(10.0)
  {
    var u := "1e1";
    assert UnsignedDecimal(u) == Finite(10.0) by {
      assert u[..1] == "1" && u[2..] == "1";
      assert DecimalValue("1") == 1 && Pow10(1) == 10.0;
      ExponentLiteral(u, 1);
    }
    UnsignedDecimalString(u);
  }

  /** `'-1e1'` reads as `-10`. */
  lemma {:induction false} NegativeExponentNumeral()
    ensures StringToNumber("-1e1") == Finite(-10.0)
  {
    var t := "-1e1";
    var u := t[1..];
    assert Negate(UnsignedDecimal(u)) == Finite(-10.0) by {
      assert u == "1e1" && u[..1] == "1" && u[2..] == "1";
      assert DecimalValue("1") == 1 && Pow10(1) == 10.0;
      NegatedExponentLiteral(u, 1);
    }
    NegativeDecimalString(t);
  }

  /** `'Infinity'` and `'-Infinity'` read as the two infinities. */
  lemma {:induction false} InfinityNumerals()
    ensures StringToNumber("Infinity") == PosInf
    ensures StringToNumber("-Infinity") == NegInf
  {
    UnsignedDecimalString("Infinity");
    NegativeDecimalString("-Infinity");
    assert "-Infinity"[1..] == "Infinity";
  }

  /** `'0x'` followed by hexadecimal digits reads as their value in base 16. */
  lemma {:induction false} HexNumeral(d: string)
    requires |d| > 0 && AllRadixDigits(d, 16)
    ensures StringToNumber("0x" + d) == Finite(ReadDigits(d, 16, 0) as real)
  {
    var t := "0x" + d;
    assert t[2..] == d;
    assert t[|t| - 1] == d[|d| - 1];
    LastRadixDigit(d, 16);
    TrimUnspaced(t);
  }

  /** The last character of a run of radix digits is one. */
  lemma {:induction false} LastRadixDigit(s: string, radix: nat)
    requires |s| > 0 && AllRadixDigits(s, radix)
    ensures RadixDigit(s[|s| - 1], radix).Some?
    decreases |s|
  {
    if |s| > 1 {
      LastRadixDigit(s[1..], radix);
      assert s[1..][|s| - 2] == s[|s| - 1];
    }
  }
}
