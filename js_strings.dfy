/**
 * The JavaScript string semantics the aggregation controller relies on: decimal
 * rendering of an index (`String(i)`, a template's `${i}`), the array-index reading
 * of a property key (`fieldMap[key]`), `parseInt(str, 10)` and `str.split(',')`.
 * Strings are sequences of characters; JavaScript's UTF-16 code units are
 * identified with Dafny characters.
 */
module JsStrings {
  import opened Wrappers

  predicate IsDigit(c: char) {
    '0' <= c <= '9'
  }

  predicate AllDigits(s: string) {
    forall i :: 0 <= i < |s| ==> IsDigit(s[i])
  }

  function DigitValue(c: char): (d: nat)
    requires IsDigit(c)
    ensures d < 10
  {
    c as int - '0' as int
  }

  function DigitChar(d: nat): (c: char)
    requires d < 10
    ensures IsDigit(c) && DigitValue(c) == d
  {
    ('0' as int + d) as char
  }

  // ---------------------------------------------------------------------------
  // Decimal rendering and its inverse

  /** The decimal rendering of a non-negative integer, without leading zeros. */
  function Decimal(n: nat): (s: string)
    ensures |s| > 0 && AllDigits(s)
    ensures s[0] == '0' ==> n == 0
  {
    (if n < 10 then "" else Decimal(n / 10)) + [DigitChar(n % 10)]
  }

  /** The value of a string of decimal digits, most significant first. */
  function DigitsValue(s: string): nat
    requires AllDigits(s)
  {
    if s == "" then 0 else DigitsValue(s[..|s| - 1]) * 10 + DigitValue(s[|s| - 1])
  }

  lemma {:induction false} DecimalRoundTrip(n: nat)
    ensures DigitsValue(Decimal(n)) == n
  {
    var s := Decimal(n);
    if n >= 10 {
      assert s[..|s| - 1] == Decimal(n / 10);
      DecimalRoundTrip(n / 10);
    } else {
      assert s[..|s| - 1] == "";
    }
  }

  /** Distinct ordinals have distinct renderings, so `field0`, `field1`, ... never collide. */
  lemma DecimalInjective(m: nat, n: nat)
    ensures Decimal(m) == Decimal(n) ==> m == n
  {
    DecimalRoundTrip(m);
    DecimalRoundTrip(n);
  }

  lemma {:induction false} LeadingNonZeroIsPositive(s: string)
    requires |s| > 0 && AllDigits(s) && s[0] != '0'
    ensures DigitsValue(s) >= 1
  {
    if |s| > 1 {
      LeadingNonZeroIsPositive(s[..|s| - 1]);
    }
  }

  /** A property key that names an array element: digits only, and no leading zero. */
  predicate IsCanonicalIndex(key: string) {
    |key| > 0 && AllDigits(key) && (key[0] == '0' ==> |key| == 1)
  }

  /**
   * The array element a property key denotes when an array is indexed by a string
   * (`fieldMap["1"]` is `fieldMap[1]`), or None for a key such as "01", "source" or "".
   */
  function ArrayIndex(key: string): Option<nat> {
    if IsCanonicalIndex(key) then Some(DigitsValue(key)) else None
  }

  lemma ArrayIndexOfDecimal(n: nat)
    ensures ArrayIndex(Decimal(n)) == Some(n)
  {
    DecimalRoundTrip(n);
  }

  lemma {:induction false} DecimalOfCanonical(s: string)
    requires IsCanonicalIndex(s)
    ensures Decimal(DigitsValue(s)) == s
  {
    var p := s[..|s| - 1];
    var c := s[|s| - 1];
    var d := DigitValue(c);
    assert DigitChar(d) == c;
    if p == "" {
      assert s == [c];
    } else {
      LeadingNonZeroIsPositive(p);
      DecimalOfCanonical(p);
      var v := DigitsValue(s);
      assert v == DigitsValue(p) * 10 + d;
      assert v / 10 == DigitsValue(p) && v % 10 == d;
      assert s == p + [c];
    }
  }

  /** Every key that denotes an array element is the rendering of that element's index. */
  lemma ArrayIndexIsDecimal(key: string)
    ensures ArrayIndex(key).Some? ==> Decimal(ArrayIndex(key).value) == key
  {
    if IsCanonicalIndex(key) {
      DecimalOfCanonical(key);
    }
  }

  // ---------------------------------------------------------------------------
  // parseInt(str, 10)

  /** The characters parseInt skips: JavaScript's WhiteSpace and LineTerminator. */
  predicate IsJsWhitespace(c: char) {
    var u := c as int;
    u == 0x09 || u == 0x0A || u == 0x0B || u == 0x0C || u == 0x0D || u == 0x20 ||
    u == 0xA0 || u == 0x1680 || (0x2000 <= u <= 0x200A) || u == 0x2028 ||
    u == 0x2029 || u == 0x202F || u == 0x205F || u == 0x3000 || u == 0xFEFF
  }

  predicate AllWhitespace(w: string) {
    forall i :: 0 <= i < |w| ==> IsJsWhitespace(w[i])
  }

  function TrimStart(s: string): (t: string)
    ensures t == "" || !IsJsWhitespace(t[0])
  {
    if s != "" && IsJsWhitespace(s[0]) then TrimStart(s[1..]) else s
  }

  /** The longest prefix of `s` made of decimal digits. */
  function DigitPrefix(s: string): (d: string)
    ensures AllDigits(d) && d <= s
    ensures |d| < |s| ==> !IsDigit(s[|d|])
  {
    if s != "" && IsDigit(s[0]) then [s[0]] + DigitPrefix(s[1..]) else ""
  }

  /**
   * `parseInt(s, 10)`: skip leading whitespace, read one optional sign, then the
   * longest run of digits; None (NaN) when that run is empty. What follows the
   * digits is ignored.
   */
  function ParseInt(s: string): Option<int> {
    ParseSigned(TrimStart(s))
  }

  /** The part of parseInt after the leading whitespace: an optional sign, then digits. */
  function ParseSigned(t: string): Option<int> {
    if t != "" && t[0] == '-' then
      match ParseDigits(t[1..])
      case None => None
      case Some(n) => Some(-(n as int))
    else if t != "" && t[0] == '+' then ParseDigits(t[1..])
    else ParseDigits(t)
  }

  /** The value of the leading run of digits, or None when there is none. */
  function ParseDigits(u: string): Option<nat> {
    var digits := DigitPrefix(u);
    if digits == "" then None else Some(DigitsValue(digits))
  }

  lemma {:induction false} TrimWhitespacePrefix(w: string, s: string)
    requires AllWhitespace(w) && (s == "" || !IsJsWhitespace(s[0]))
    ensures TrimStart(w + s) == s
  {
    if w == "" {
      assert w + s == s;
    } else {
      assert (w + s)[1..] == w[1..] + s;
      TrimWhitespacePrefix(w[1..], s);
    }
  }

  lemma {:induction false} DigitPrefixOfDigits(d: string, rest: string)
    requires AllDigits(d) && (rest == "" || !IsDigit(rest[0]))
    ensures DigitPrefix(d + rest) == d
  {
    if d == "" {
      assert d + rest == rest;
    } else {
      assert (d + rest)[1..] == d[1..] + rest;
      DigitPrefixOfDigits(d[1..], rest);
    }
  }

  /** The optional sign parseInt accepts in front of the digits. */
  datatype Sign = Unsigned | Plus | Minus

  function SignText(sign: Sign): string {
    match sign
    case Unsigned => ""
    case Plus => "+"
    case Minus => "-"
  }

  function Signed(sign: Sign, n: nat): int {
    if sign == Minus then -(n as int) else n
  }

  lemma ParseSignedDigits(sign: Sign, digits: string, rest: string)
    requires digits != "" && AllDigits(digits) && (rest == "" || !IsDigit(rest[0]))
    ensures ParseSigned(SignText(sign) + digits + rest) == Some(Signed(sign, DigitsValue(digits)))
  {
    match sign
    case Unsigned =>
      assert SignText(sign) + digits + rest == digits + rest;
      ParseUnsignedDigits(digits, rest);
    case Plus =>
      assert SignText(sign) + digits + rest == "+" + (digits + rest);
      ParseDigitsAfter('+', digits, rest);
    case Minus =>
      assert SignText(sign) + digits + rest == "-" + (digits + rest);
      ParseDigitsAfter('-', digits, rest);
  }

  lemma ParseUnsignedDigits(digits: string, rest: string)
    requires digits != "" && AllDigits(digits) && (rest == "" || !IsDigit(rest[0]))
    ensures ParseSigned(digits + rest) == Some(DigitsValue(digits) as int)
  {
    var unsigned := digits + rest;
    assert unsigned[0] == digits[0];
    DigitPrefixOfDigits(digits, rest);
    assert ParseDigits(unsigned) == Some(DigitsValue(digits));
  }

  lemma ParseDigitsAfter(c: char, digits: string, rest: string)
    requires c == '+' || c == '-'
    requires digits != "" && AllDigits(digits) && (rest == "" || !IsDigit(rest[0]))
    ensures ParseSigned([c] + (digits + rest)) ==
            Some(if c == '-' then -(DigitsValue(digits) as int) else DigitsValue(digits) as int)
  {
    var unsigned := digits + rest;
    DigitPrefixOfDigits(digits, rest);
    assert ParseDigits(unsigned) == Some(DigitsValue(digits));
    var body := [c] + unsigned;
    assert body[0] == c && body[1..] == unsigned;
  }

  /**
   * parseInt reads back a rendered number behind any leading whitespace and one
   * sign, and ignores whatever non-digit text follows it.
   */
  lemma ParseIntOfDecimal(ws: string, sign: Sign, n: nat, rest: string)
    requires AllWhitespace(ws) && (rest == "" || !IsDigit(rest[0]))
    ensures ParseInt(ws + SignText(sign) + Decimal(n) + rest) == Some(Signed(sign, n))
  {
    var digits := Decimal(n);
    var body := SignText(sign) + digits + rest;
    assert ws + SignText(sign) + digits + rest == ws + body;
    assert body[0] == if sign == Unsigned then digits[0] else SignText(sign)[0];
    TrimWhitespacePrefix(ws, body);
    ParseSignedDigits(sign, digits, rest);
    DecimalRoundTrip(n);
  }

  /** Without a digit after the whitespace and the sign, parseInt gives NaN. */
  lemma ParseIntWithoutDigits(ws: string, sign: Sign, rest: string)
    requires AllWhitespace(ws)
    requires rest == "" || !IsDigit(rest[0])
    requires sign == Unsigned ==> rest == "" || (!IsJsWhitespace(rest[0]) && rest[0] != '+' && rest[0] != '-')
    ensures ParseInt(ws + SignText(sign) + rest) == None
  {
    var body := SignText(sign) + rest;
    assert ws + SignText(sign) + rest == ws + body;
    if sign != Unsigned {
      assert body[1..] == rest;
    }
    TrimWhitespacePrefix(ws, body);
  }

  // ---------------------------------------------------------------------------
  // str.split(sep) for a one-character separator

  /** `s.split(sep)`: the pieces between separators, in order; "" splits into [""]. */
  function Split(s: string, sep: char): (parts: seq<string>)
    ensures |parts| >= 1
    ensures forall i :: 0 <= i < |parts| ==> sep !in parts[i]
  {
    if s == "" then [""]
    else
      var rest := Split(s[1..], sep);
      if s[0] == sep then [""] + rest else [[s[0]] + rest[0]] + rest[1..]
  }

  /** `parts.join(sep)`. */
  function Join(parts: seq<string>, sep: char): string
    requires |parts| >= 1
  {
    if |parts| == 1 then parts[0] else parts[0] + [sep] + Join(parts[1..], sep)
  }

  lemma {:induction false} JoinSplit(s: string, sep: char)
    ensures Join(Split(s, sep), sep) == s
  {
    if s != "" {
      JoinSplit(s[1..], sep);
      var rest := Split(s[1..], sep);
      if s[0] == sep {
        assert ([""] + rest)[1..] == rest;
        assert s == [sep] + s[1..];
      } else {
        var parts := [[s[0]] + rest[0]] + rest[1..];
        assert parts[0] == [s[0]] + rest[0];
        if |rest| == 1 {
          assert s == [s[0]] + s[1..];
        } else {
          assert parts[1..] == rest[1..];
          assert s == [s[0]] + s[1..];
        }
      }
    }
  }

  lemma {:induction false} SplitAfterPlainPrefix(p: string, s: string, sep: char)
    requires sep !in p
    ensures Split(p + s, sep) == [p + Split(s, sep)[0]] + Split(s, sep)[1..]
  {
    if p == "" {
      assert p + s == s;
      var rest := Split(s, sep);
      assert rest == [rest[0]] + rest[1..];
      assert p + rest[0] == rest[0];
    } else {
      var rest := Split(s, sep);
      assert (p + s)[0] == p[0] && p[0] != sep;
      assert (p + s)[1..] == p[1..] + s;
      SplitAfterPlainPrefix(p[1..], s, sep);
      var r := Split(p[1..] + s, sep);
      assert r[0] == p[1..] + rest[0] && r[1..] == rest[1..];
      assert [p[0]] + (p[1..] + rest[0]) == p + rest[0];
    }
  }

  /** Splitting a join of separator-free pieces gives the pieces back. */
  lemma {:induction false} SplitJoin(parts: seq<string>, sep: char)
    requires |parts| >= 1
    requires forall i :: 0 <= i < |parts| ==> sep !in parts[i]
    ensures Split(Join(parts, sep), sep) == parts
  {
    if |parts| == 1 {
      SplitAfterPlainPrefix(parts[0], "", sep);
      assert parts[0] + "" == parts[0];
    } else {
      var tail := Join(parts[1..], sep);
      SplitJoin(parts[1..], sep);
      assert Join(parts, sep) == parts[0] + ([sep] + tail);
      SplitAfterPlainPrefix(parts[0], [sep] + tail, sep);
      assert ([sep] + tail)[1..] == tail;
      var r := Split([sep] + tail, sep);
      assert r == [""] + parts[1..];
      assert r[0] == "" && r[1..] == parts[1..];
      assert parts[0] + "" == parts[0];
      assert [parts[0]] + parts[1..] == parts;
    }
  }
}
