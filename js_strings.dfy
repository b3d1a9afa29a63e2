/** The JavaScript string operations the services rely on: `trim`, `toLowerCase`, `length`
    (UTF-16 code units), `split('T')[0]`, the `\w` character class, number-to-string
    conversion, `parseInt` and the default `sort` order of strings. Strings are sequences of
    Unicode scalar values. */
module JsStrings {
  import opened Wrappers

  /** A character `String.prototype.trim` removes and the regular-expression class `\s`
      matches: the WhiteSpace and LineTerminator code points of ECMAScript (tab, line tab, form
      feed, no-break space, byte order mark, every space separator, LF, CR, LS, PS). */
  predicate IsJsWhitespace(c: char)
  {
    var n := c as int;
    n == 0x09 || n == 0x0A || n == 0x0B || n == 0x0C || n == 0x0D || n == 0x20 || n == 0xA0
    || n == 0x1680 || (0x2000 <= n <= 0x200A) || n == 0x2028 || n == 0x2029 || n == 0x202F
    || n == 0x205F || n == 0x3000 || n == 0xFEFF
  }

  /** `s.trimStart()`. */
  function TrimStart(s: string): (r: string)
    ensures |r| <= |s| && r == s[|s| - |r|..]
    ensures r == [] || !IsJsWhitespace(r[0])
    ensures forall i :: 0 <= i < |s| - |r| ==> IsJsWhitespace(s[i])
  {
    if s != [] && IsJsWhitespace(s[0]) then TrimStart(s[1..]) else s
  }

  /** `s.trimEnd()`. */
  function TrimEnd(s: string): (r: string)
    ensures |r| <= |s| && r == s[..|r|]
    ensures r == [] || !IsJsWhitespace(r[|r| - 1])
    ensures forall i :: |r| <= i < |s| ==> IsJsWhitespace(s[i])
  {
    if s != [] && IsJsWhitespace(s[|s| - 1]) then TrimEnd(s[..|s| - 1]) else s
  }

  /** `s.trim()`: `s` without its leading and trailing white space. */
  function Trim(s: string): (r: string)
    ensures |r| <= |s|
    ensures r == [] || (!IsJsWhitespace(r[0]) && !IsJsWhitespace(r[|r| - 1]))
  {
    TrimEnd(TrimStart(s))
  }

  /** Trimming twice is trimming once. */
  lemma {:induction false} TrimIdempotent(s: string)
    ensures Trim(Trim(s)) == Trim(s)
  {
    var r := Trim(s);
    assert TrimStart(r) == r;
    assert TrimEnd(r) == r;
  }

  /** `s.length`: the number of UTF-16 code units, two for a code point above U+FFFF. */
  function Utf16Length(s: string): (n: nat)
    ensures |s| <= n <= 2 * |s|
  {
    if s == [] then 0
    else Utf16Length(s[..|s| - 1]) + (if s[|s| - 1] as int > 0xFFFF then 2 else 1)
  }

  /** Upper-case letters of Basic Latin and Latin-1 (A-Z, U+00C0-U+00DE except U+00D7). */
  predicate IsUpperLatin(c: char)
  {
    ('A' <= c <= 'Z') || ('\U{C0}' <= c <= '\U{DE}' && c != '\U{D7}')
  }

  /** `toLowerCase` of one character, for the upper-case letters of Basic Latin and Latin-1
      only: every other character, including the upper-case letters of other scripts, is left
      as it is. */
  function LowerChar(c: char): (d: char)
    ensures !IsUpperLatin(d)
    ensures IsUpperLatin(c) ==> d as int == c as int + 32
    ensures !IsUpperLatin(c) ==> d == c
  {
    if IsUpperLatin(c) then (c as int + 32) as char else c
  }

  /** `s.toLowerCase()`, character by character. */
  function Lower(s: string): (r: string)
    ensures |r| == |s|
    ensures forall i :: 0 <= i < |s| ==> r[i] == LowerChar(s[i])
  {
    if s == [] then [] else [LowerChar(s[0])] + Lower(s[1..])
  }

  /** Lower-casing a lower-case string changes nothing. */
  lemma {:induction false} LowerIdempotent(s: string)
    ensures Lower(Lower(s)) == Lower(s)
  {
  }

  /** `s.split('T')[0]`: everything before the first `T`, the whole string if there is none. */
  function DatePart(s: string): (r: string)
    ensures 'T' !in r
    ensures |r| <= |s| && r == s[..|r|]
    ensures |r| < |s| ==> s[|r|] == 'T'
  {
    if s == [] || s[0] == 'T' then [] else [s[0]] + DatePart(s[1..])
  }

  predicate IsDigit(c: char)
  {
    '0' <= c <= '9'
  }

  /** The regular-expression class `\w`: ASCII letters, digits and `_`. */
  predicate IsWordChar(c: char)
  {
    ('a' <= c <= 'z') || ('A' <= c <= 'Z') || IsDigit(c) || c == '_'
  }

  predicate AllDigits(s: string)
  {
    forall i :: 0 <= i < |s| ==> IsDigit(s[i])
  }

  function DigitChar(d: nat): (c: char)
    requires d < 10
    ensures IsDigit(c) && c as int - '0' as int == d
  {
    ('0' as int + d) as char
  }

  /** `String(n)` for a non-negative integer: its canonical decimal numeral. */
  function NatToString(n: nat): (r: string)
    ensures |r| > 0 && AllDigits(r)
    ensures r[0] == '0' ==> n == 0
    decreases n
  {
    if n < 10 then [DigitChar(n)] else NatToString(n / 10) + [DigitChar(n % 10)]
  }

  /** `String(i)` for an integer. */
  function IntToString(i: int): (r: string)
    ensures |r| > 0
  {
    if i < 0 then "-" + NatToString(-i) else NatToString(i)
  }

  /** The value of a numeral of decimal digits. */
  function DecimalValue(s: string): nat
    requires AllDigits(s)
  {
    if s == [] then 0 else DecimalValue(s[..|s| - 1]) * 10 + (s[|s| - 1] as int - '0' as int)
  }

  /** Reading back the numeral `String(n)` gives `n`. */
  lemma {:induction false} DecimalValueOfNatToString(n: nat)
    ensures DecimalValue(NatToString(n)) == n
    decreases n
  {
    if n >= 10 {
      DecimalValueOfNatToString(n / 10);
      var r := NatToString(n);
      assert r[..|r| - 1] == NatToString(n / 10);
    }
  }

  /** Distinct numbers have distinct numerals. */
  lemma {:induction false} NatToStringInjective(a: nat, b: nat)
    requires NatToString(a) == NatToString(b)
    ensures a == b
  {
    DecimalValueOfNatToString(a);
    DecimalValueOfNatToString(b);
  }

  /** The value of `c` as a digit in base `radix` (2, 8, 10 or 16), if it is one. */
  function RadixDigit(c: char, radix: nat): (d: Option<nat>)
    ensures d.Some? ==> d.value < radix
  {
    if IsDigit(c) then
      if c as int - '0' as int < radix then Some(c as int - '0' as int) else None
    else if radix == 16 && 'a' <= c <= 'f' then Some(c as int - 'a' as int + 10)
    else if radix == 16 && 'A' <= c <= 'F' then Some(c as int - 'A' as int + 10)
    else None
  }

  /** Reads the longest prefix of `s` made of digits of base `radix`, after the digits already
      read, whose value is `acc` (Horner's rule). */
  function ReadDigits(s: string, radix: nat, acc: nat): nat
  {
    if s == [] || RadixDigit(s[0], radix).None? then acc
    else ReadDigits(s[1..], radix, acc * radix + RadixDigit(s[0], radix).value)
  }

  /** `parseInt(s)` with no radix: leading white space skipped, an optional sign, then an
      unsigned numeral (see `ParseUnsigned`); `None` stands for `NaN`. */
  function ParseInt(s: string): (r: Option<int>)
  {
    var t := TrimStart(s);
    if |t| > 0 && t[0] == '-' then
      var u := ParseUnsigned(t[1..]);
      if u.Some? then Some(-(u.value as int)) else None
    else if |t| > 0 && t[0] == '+' then ParseUnsigned(t[1..])
    else ParseUnsigned(t)
  }

  /** The unsigned part of `parseInt`: a `0x`/`0X` prefix switches to base 16, then the longest
      run of digits is read; none at all gives `NaN` (`None`). */
  function ParseUnsigned(u: string): (r: Option<nat>)
  {
    var hex := |u| >= 2 && u[0] == '0' && (u[1] == 'x' || u[1] == 'X');
    var radix := if hex then 16 else 10;
    var v := if hex then u[2..] else u;
    if v == [] || RadixDigit(v[0], radix).None? then None else Some(ReadDigits(v, radix, 0))
  }

  /** Reading the decimal digits `s` after the digits `p` gives the value of `p + s`. */
  lemma {:induction false} ReadDecimalDigits(p: string, s: string)
    requires AllDigits(p) && AllDigits(s)
    ensures AllDigits(p + s)
    ensures ReadDigits(s, 10, DecimalValue(p)) == DecimalValue(p + s)
    decreases |s|
  {
    if s == [] {
      assert p + s == p;
    } else {
      var p' := p + [s[0]];
      assert p'[..|p'| - 1] == p;
      assert p' + s[1..] == p + s;
      ReadDecimalDigits(p', s[1..]);
    }
  }

  lemma {:induction false} ParseUnsignedOfNumeral(d: string)
    requires |d| > 0 && AllDigits(d)
    ensures ParseUnsigned(d) == Some(DecimalValue(d))
  {
    ReadDecimalDigits([], d);
    assert [] + d == d;
    assert |d| >= 2 ==> IsDigit(d[1]);
  }

  /** A string that does not start with white space is its own `trimStart`. */
  lemma {:induction false} TrimStartNoLeadingSpace(s: string)
    requires s == [] || !IsJsWhitespace(s[0])
    ensures TrimStart(s) == s
  {
  }

  /** A string that neither starts nor ends with white space is its own `trim`. */
  lemma {:induction false} TrimUnspaced(s: string)
    requires s == [] || (!IsJsWhitespace(s[0]) && !IsJsWhitespace(s[|s| - 1]))
    ensures Trim(s) == s
  {
    TrimStartNoLeadingSpace(s);
  }

  /** `parseInt` reads a decimal numeral back as its value. */
  lemma {:induction false} ParseIntOfNumeral(d: string)
    requires |d| > 0 && AllDigits(d)
    ensures ParseInt(d) == Some(DecimalValue(d))
  {
    ParseUnsignedOfNumeral(d);
    TrimStartNoLeadingSpace(d);
  }

  /** `parseInt` reads a minus sign and a decimal numeral back as the negated value. */
  lemma {:induction false} ParseIntOfNegativeNumeral(d: string)
    requires |d| > 0 && AllDigits(d)
    ensures ParseInt("-" + d) == Some(-(DecimalValue(d) as int))
  {
    ParseIntOfMinus(d);
    ParseUnsignedOfNumeral(d);
    var v := DecimalValue(d);
    assert ParseUnsigned(d).value == v;
  }

  /** `parseInt` on a string that starts with a minus sign negates what follows it. */
  lemma {:induction false} ParseIntOfMinus(u: string)
    ensures ParseInt("-" + u) == if ParseUnsigned(u).Some? then Some(-(ParseUnsigned(u).value as int)) else None
  {
    var m := "-" + u;
    assert m[0] == '-' && m[1..] == u;
    TrimStartNoLeadingSpace(m);
  }

  /** `parseInt(String(n))` is `n`: a route parameter printed from an id reads back as the id. */
  lemma {:induction false} ParseIntOfNatToString(n: nat)
    ensures ParseInt(NatToString(n)) == Some(n)
  {
    ParseIntOfNumeral(NatToString(n));
    DecimalValueOfNatToString(n);
  }

  /** `parseInt(String(i))` is `i` for every integer. */
  lemma {:induction false} ParseIntOfIntToString(i: int)
    ensures ParseInt(IntToString(i)) == Some(i)
  {
    if i >= 0 {
      ParseIntOfNatToString(i);
    } else {
      ParseIntOfNegativeNumeral(NatToString(-i));
      DecimalValueOfNatToString(-i);
    }
  }

  /** The UTF-16 code units of one character: the character itself below U+10000, otherwise a
      high surrogate and a low surrogate. */
  function CharUnits(c: char): (u: seq<int>)
    ensures |u| == if c as int > 0xFFFF then 2 else 1
    ensures c as int <= 0xFFFF ==> u == [c as int]
    ensures c as int > 0xFFFF ==> 0xD800 <= u[0] <= 0xDBFF && 0xDC00 <= u[1] <= 0xDFFF
  {
    var n := c as int;
    if n <= 0xFFFF then [n]
    else [0xD800 + (n - 0x10000) / 0x400, 0xDC00 + (n - 0x10000) % 0x400]
  }

  /** The UTF-16 code units of a string, the sequence JavaScript indexes and compares. */
  function Utf16Units(s: string): seq<int>
  {
    if s == [] then [] else CharUnits(s[0]) + Utf16Units(s[1..])
  }

  lemma {:induction false} Utf16UnitsConcat(a: string, b: string)
    ensures Utf16Units(a + b) == Utf16Units(a) + Utf16Units(b)
  {
    if a != [] {
      assert (a + b)[0] == a[0] && (a + b)[1..] == a[1..] + b;
      Utf16UnitsConcat(a[1..], b);
    } else {
      assert a + b == b;
    }
  }

  /** `s.length` is the number of UTF-16 code units. */
  lemma {:induction false} Utf16LengthIsUnitCount(s: string)
    ensures Utf16Length(s) == |Utf16Units(s)|
  {
    if s != [] {
      var p, c := s[..|s| - 1], s[|s| - 1];
      assert s == p + [c];
      Utf16LengthIsUnitCount(p);
      Utf16UnitsConcat(p, [c]);
      assert [c][1..] == [];
      assert Utf16Units([c]) == CharUnits(c) + [];
    }
  }

  /** Distinct characters differ in their first code unit, or are both surrogate pairs that
      differ in their second. */
  lemma {:induction false} CharUnitsDiffer(c: char, d: char)
    requires c != d
    ensures var u, v := CharUnits(c), CharUnits(d);
      u[0] != v[0] || (|u| == 2 && |v| == 2 && u[1] != v[1])
  {
    var u, v := CharUnits(c), CharUnits(d);
    if u[0] == v[0] {
      assert c as int > 0xFFFF && d as int > 0xFFFF;
      var m, n := c as int - 0x10000, d as int - 0x10000;
      assert m / 0x400 == n / 0x400;
      assert m == 0x400 * (m / 0x400) + m % 0x400 && n == 0x400 * (n / 0x400) + n % 0x400;
    }
  }

  /** No character's code units are a prefix of another's: what follows cannot make up for a
      different first character. */
  lemma {:induction false} CharUnitsPrefixFree(c: char, d: char, x: seq<int>, y: seq<int>)
    requires c != d
    ensures CharUnits(c) + x != CharUnits(d) + y
  {
    CharUnitsDiffer(c, d);
    var u, v := CharUnits(c), CharUnits(d);
    var k := if u[0] != v[0] then 0 else 1;
    assert (u + x)[k] == u[k] && (v + y)[k] == v[k];
  }

  /** Lexicographic order of code unit sequences: a proper prefix comes first. */
  predicate UnitsLess(x: seq<int>, y: seq<int>)
  {
    if x == [] then y != []
    else if y == [] then false
    else if x[0] != y[0] then x[0] < y[0]
    else UnitsLess(x[1..], y[1..])
  }

  /** The order in which `Array.prototype.sort` with no comparator puts strings: lexicographic
      by UTF-16 code unit. */
  predicate StrLess(a: string, b: string)
  {
    UnitsLess(Utf16Units(a), Utf16Units(b))
  }

  /** Two strings with different code units compare by the first character where they differ:
      the comparison of their code units is settled inside that character. */
  lemma {:induction false} UnitsLessAtChar(x: seq<int>, y: seq<int>, u: seq<int>, v: seq<int>, k: nat)
    requires k < |u| && k < |v| && u[k] != v[k]
    requires forall j :: 0 <= j < k ==> u[j] == v[j]
    ensures UnitsLess(u + x, v + y) <==> u[k] < v[k]
    decreases k
  {
    var l, r := u + x, v + y;
    assert l[0] == u[0] && r[0] == v[0];
    if k > 0 {
      assert l[1..] == u[1..] + x && r[1..] == v[1..] + y;
      UnitsLessAtChar(x, y, u[1..], v[1..], k - 1);
    }
  }

  /** Distinct strings have distinct code units: UTF-16 is injective. */
  lemma {:induction false} Utf16UnitsInjective(a: string, b: string)
    requires a != b
    ensures Utf16Units(a) != Utf16Units(b)
  {
    if a == [] {
      assert |Utf16Units(b)| > 0;
    } else if b == [] {
      assert |Utf16Units(a)| > 0;
    } else if a[0] != b[0] {
      CharUnitsPrefixFree(a[0], b[0], Utf16Units(a[1..]), Utf16Units(b[1..]));
    } else {
      assert a == [a[0]] + a[1..] && b == [b[0]] + b[1..];
      Utf16UnitsInjective(a[1..], b[1..]);
      var u := CharUnits(a[0]);
      assert (u + Utf16Units(a[1..]))[|u|..] == Utf16Units(a[1..]);
      assert (u + Utf16Units(b[1..]))[|u|..] == Utf16Units(b[1..]);
    }
  }

  lemma {:induction false} UnitsLessIrreflexive(x: seq<int>)
    ensures !UnitsLess(x, x)
  {
    if x != [] {
      UnitsLessIrreflexive(x[1..]);
    }
  }

  lemma {:induction false} UnitsLessTransitive(x: seq<int>, y: seq<int>, z: seq<int>)
    requires UnitsLess(x, y) && UnitsLess(y, z)
    ensures UnitsLess(x, z)
  {
    if x != [] && y != [] && z != [] && x[0] == y[0] && y[0] == z[0] {
      UnitsLessTransitive(x[1..], y[1..], z[1..]);
    }
  }

  lemma {:induction false} UnitsLessTotal(x: seq<int>, y: seq<int>)
    requires x != y
    ensures UnitsLess(x, y) || UnitsLess(y, x)
  {
    if x != [] && y != [] && x[0] == y[0] {
      assert x == [x[0]] + x[1..] && y == [y[0]] + y[1..];
      UnitsLessTotal(x[1..], y[1..]);
    }
  }

  lemma {:induction false} UnitsLessAsymmetric(x: seq<int>, y: seq<int>)
    requires UnitsLess(x, y)
    ensures !UnitsLess(y, x)
  {
    if x != [] && y != [] && x[0] == y[0] {
      UnitsLessAsymmetric(x[1..], y[1..]);
    }
  }

  lemma {:induction false} StrLessIrreflexive(a: string)
    ensures !StrLess(a, a)
  {
    UnitsLessIrreflexive(Utf16Units(a));
  }

  lemma {:induction false} StrLessTransitive(a: string, b: string, c: string)
    requires StrLess(a, b) && StrLess(b, c)
    ensures StrLess(a, c)
  {
    UnitsLessTransitive(Utf16Units(a), Utf16Units(b), Utf16Units(c));
  }

  lemma {:induction false} StrLessTotal(a: string, b: string)
    requires a != b
    ensures StrLess(a, b) || StrLess(b, a)
  {
    Utf16UnitsInjective(a, b);
    UnitsLessTotal(Utf16Units(a), Utf16Units(b));
  }

  lemma {:induction false} StrLessAsymmetric(a: string, b: string)
    requires StrLess(a, b)
    ensures !StrLess(b, a)
  {
    UnitsLessAsymmetric(Utf16Units(a), Utf16Units(b));
  }

  /** Strings are ordered by their first differing character, and two characters by their
      first code units: a character above U+FFFF sorts before U+E000..U+FFFF, because its high
      surrogate is below U+E000. */
  lemma {:induction false} StrLessOfFirstChars(c: char, d: char, x: string, y: string)
    requires c != d
    ensures StrLess([c] + x, [d] + y) <==> UnitsLess(CharUnits(c), CharUnits(d))
  {
    var u, v := CharUnits(c), CharUnits(d);
    CharUnitsDiffer(c, d);
    var k := if u[0] != v[0] then 0 else 1;
    assert ([c] + x)[0] == c && ([c] + x)[1..] == x;
    assert ([d] + y)[0] == d && ([d] + y)[1..] == y;
    assert Utf16Units([c] + x) == u + Utf16Units(x);
    assert Utf16Units([d] + y) == v + Utf16Units(y);
    UnitsLessAtChar(Utf16Units(x), Utf16Units(y), u, v, k);
    UnitsLessAtChar([], [], u, v, k);
    assert u + [] == u && v + [] == v;
  }

  /** Where code units and code points disagree: a string that starts with a character above
      U+FFFF sorts before one that starts with a character in U+E000..U+FFFF. */
  lemma {:induction false} SupplementaryBeforeHighBmp(c: char, d: char, x: string, y: string)
    requires c as int > 0xFFFF && 0xE000 <= d as int <= 0xFFFF
    ensures StrLess([c] + x, [d] + y)
  {
    StrLessOfFirstChars(c, d, x, y);
  }
}
