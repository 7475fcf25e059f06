/**
 * `parseResolution`: a bucket width written as a number followed by a unit letter
 * (`45s`, `20m`, `1h`) becomes a number of seconds.
 */
module Resolution {
  import opened Wrappers
  import opened JsStrings

  /**
   * `parseResolution(str)`. The argument is None when the query parameter is
   * undefined; the result is None both when that undefined is passed through and
   * when the function returns null for malformed input (the controller only asks
   * whether the result is truthy). Otherwise the last character chooses the unit
   * and `parseInt` of the rest gives the count.
   */
  function ParseResolution(str: Option<string>): Option<int> {
    match str
    case None => None
    case Some(s) =>
      var len := |s|;
      if len > 1 then
        if s[len - 1] == 'm' then
          match ParseInt(s[..len - 1])
          case None => None
          case Some(n) => Some(n * 60)
        else if s[len - 1] == 'h' then
          match ParseInt(s[..len - 1])
          case None => None
          case Some(n) => Some(n * 60 * 60)
        else if s[len - 1] == 's' then
          match ParseInt(s[..len - 1])
          case None => None
          case Some(n) => Some(n)
        else None
      else None
  }

  /** The seconds one unit letter stands for. */
  function UnitSeconds(c: char): Option<int> {
    if c == 's' then Some(1)
    else if c == 'm' then Some(60)
    else if c == 'h' then Some(3600)
    else None
  }

  /**
   * A resolution is accepted exactly when it is longer than one character, ends in
   * a known unit and parseInt finds a number before the unit; the value is that
   * number times the unit's seconds.
   */
  lemma ResolutionCharacterized(s: string)
    ensures ParseResolution(Some(s)).Some? <==>
            |s| > 1 && UnitSeconds(s[|s| - 1]).Some? && ParseInt(s[..|s| - 1]).Some?
    ensures ParseResolution(Some(s)).Some? ==>
            ParseResolution(Some(s)).value == ParseInt(s[..|s| - 1]).value * UnitSeconds(s[|s| - 1]).value
  {
  }

  /**
   * A count written in decimal, behind optional whitespace and sign and followed by
   * optional non-digit text, then a unit letter, is read as count times the unit:
   * `"20m"` is 1200, `"-5m"` is -300, `" 1.5h"` is 3600.
   */
  lemma ResolutionOfCount(ws: string, sign: Sign, n: nat, rest: string, unit: char)
    requires AllWhitespace(ws)
    requires rest == "" || !IsDigit(rest[0])
    requires UnitSeconds(unit).Some?
    ensures ParseResolution(Some(ws + SignText(sign) + Decimal(n) + rest + [unit])) ==
            Some(Signed(sign, n) * UnitSeconds(unit).value)
  {
    var prefix := ws + SignText(sign) + Decimal(n) + rest;
    var s := prefix + [unit];
    assert s[..|s| - 1] == prefix && s[|s| - 1] == unit;
    ParseIntOfDecimal(ws, sign, n, rest);
    ResolutionCharacterized(s);
  }

  /** Without a known unit letter at the end, or without digits before it, there is no resolution. */
  lemma ResolutionRejected(s: string)
    requires |s| <= 1 || UnitSeconds(s[|s| - 1]).None? || ParseInt(s[..|s| - 1]).None?
    ensures ParseResolution(Some(s)) == None
  {
    ResolutionCharacterized(s);
  }

  /** An unsigned count directly followed by a unit letter gives the count times the unit's seconds. */
  lemma CountThenUnit(n: nat, unit: char)
    requires UnitSeconds(unit).Some?
    ensures ParseResolution(Some(Decimal(n) + [unit])) == Some(n * UnitSeconds(unit).value)
  {
    assert "" + SignText(Unsigned) + Decimal(n) + "" + [unit] == Decimal(n) + [unit];
    ResolutionOfCount("", Unsigned, n, "", unit);
  }

  /** Accepted resolutions: `20m` is 1200 seconds, `1h` is 3600, `45s` is 45. */
  lemma AcceptedExamples()
    ensures ParseResolution(Some("20m")) == Some(1200)
    ensures ParseResolution(Some("1h")) == Some(3600)
    ensures ParseResolution(Some("45s")) == Some(45)
  {
    assert Decimal(20) + ['m'] == "20m" by {
      assert Decimal(2) == "2";
    }
    CountThenUnit(20, 'm');
    assert Decimal(1) + ['h'] == "1h";
    CountThenUnit(1, 'h');
    assert Decimal(45) + ['s'] == "45s" by {
      assert Decimal(4) == "4";
    }
    CountThenUnit(45, 's');
  }

  /** A negative or zero count passes the parser: "-5m" is -300 and "0m" is 0. */
  lemma SignedExamples()
    ensures ParseResolution(Some("-5m")) == Some(-300)
    ensures ParseResolution(Some("0m")) == Some(0)
  {
    assert ParseResolution(Some("-5m")) == Some(-300) by {
      assert "" + SignText(Minus) + Decimal(5) + "" + ['m'] == "-5m";
      ResolutionOfCount("", Minus, 5, "", 'm');
    }
    assert "" + SignText(Unsigned) + Decimal(0) + "" + ['m'] == "0m";
    ResolutionOfCount("", Unsigned, 0, "", 'm');
  }

  /** Rejected resolutions: `abc`, the empty string, `10` with no unit, and `m` with no count. */
  lemma RejectedExamples()
    ensures ParseResolution(Some("abc")) == None
    ensures ParseResolution(Some("")) == None
    ensures ParseResolution(Some("10")) == None
    ensures ParseResolution(Some("m")) == None
    ensures ParseResolution(None) == None
  {
    assert "abc"[2] == 'c';
    assert "10"[1] == '0';
  }
}
