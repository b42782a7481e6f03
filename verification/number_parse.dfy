/** JavaScript's `parseInt(text)` (no radix argument) and
    `Number.prototype.toString()` on integers, as used by the quantity box
    of a cart line. `None` stands for `NaN`. */
module NumberParse {
  import opened Wrappers
  import Text

  predicate IsDecimalDigit(c: char) {
    '0' <= c <= '9'
  }

  predicate IsHexDigit(c: char) {
    IsDecimalDigit(c) || 'a' <= c <= 'f' || 'A' <= c <= 'F'
  }

  /** A digit of base `radix`; `parseInt` only ever uses 10 or 16 here. */
  predicate IsDigit(c: char, radix: nat) {
    if radix == 16 then IsHexDigit(c) else IsDecimalDigit(c)
  }

  function DigitValue(c: char): (v: nat)
    requires IsHexDigit(c)
    ensures v < 16
    ensures IsDecimalDigit(c) <==> v < 10
    ensures IsDecimalDigit(c) ==> v == c as int - '0' as int
  {
    if IsDecimalDigit(c) then c as int - '0' as int
    else if 'a' <= c <= 'f' then c as int - 'a' as int + 10
    else c as int - 'A' as int + 10
  }

  /** Length of the run of base-`radix` digits at the start of `s`. */
  function DigitRun(s: string, radix: nat): (n: nat)
    ensures n <= |s|
    ensures forall i :: 0 <= i < n ==> IsDigit(s[i], radix)
    ensures n == |s| || !IsDigit(s[n], radix)
  {
    if |s| == 0 || !IsDigit(s[0], radix) then 0
    else
      var n := DigitRun(s[1..], radix);
      assert forall i :: 1 <= i < n + 1 ==> s[i] == s[1..][i - 1];
      n + 1
  }

  /** The number a string of base-`radix` digits denotes. */
  function Value(digits: string, radix: nat): nat
    requires radix == 10 || radix == 16
    requires forall i :: 0 <= i < |digits| ==> IsDigit(digits[i], radix)
  {
    if |digits| == 0 then 0
    else
      assert IsDigit(digits[|digits| - 1], radix);
      assert forall i :: 0 <= i < |digits| - 1 ==> digits[..|digits| - 1][i] == digits[i];
      Value(digits[..|digits| - 1], radix) * radix + DigitValue(digits[|digits| - 1])
  }

  /** The unsigned part of `parseInt`: base 16 after a `0x`/`0X` prefix,
      base 10 otherwise, converting the longest run of digits that
      follows; with no digit there the result is NaN. */
  function ParseUnsigned(u: string): (r: Option<nat>)
    ensures r.Some? ==> |u| > 0 && IsHexDigit(u[0])
    ensures HexPrefixed(u) ==> (r.None? <==> DigitRun(u[2..], 16) == 0)
    ensures HexPrefixed(u) && r.Some? ==> r.value == Value(u[2..][..DigitRun(u[2..], 16)], 16)
    ensures !HexPrefixed(u) ==> (r.None? <==> DigitRun(u, 10) == 0)
    ensures !HexPrefixed(u) && r.Some? ==> r.value == Value(u[..DigitRun(u, 10)], 10)
  {
    var hex := HexPrefixed(u);
    var radix: nat := if hex then 16 else 10;
    var w := if hex then u[2..] else u;
    var n := DigitRun(w, radix);
    if n == 0 then None else Some(Value(w[..n], radix))
  }

  /** The value of the decimal digit run at the start of `t`. */
  function LeadingDecimal(t: string): nat {
    Value(t[..DigitRun(t, 10)], 10)
  }

  /** Starts with `0x` or `0X`. */
  predicate HexPrefixed(u: string) {
    |u| >= 2 && u[0] == '0' && (u[1] == 'x' || u[1] == 'X')
  }

  /** `parseInt` after the leading white space: an optional sign, then
      the unsigned part. */
  function ParseSigned(t: string): (r: Option<int>)
    ensures r.Some? ==> exists i :: 0 <= i < |t| && IsHexDigit(t[i])
    ensures |t| > 0 && t[0] == '-' ==> (r.Some? <==> ParseUnsigned(t[1..]).Some?)
    ensures |t| > 0 && t[0] == '-' && r.Some? ==> r.value == -(ParseUnsigned(t[1..]).value as int)
    ensures |t| > 0 && t[0] == '+' ==> (r.Some? <==> ParseUnsigned(t[1..]).Some?)
    ensures |t| > 0 && t[0] == '+' && r.Some? ==> r.value == ParseUnsigned(t[1..]).value as int
    ensures (|t| == 0 || (t[0] != '-' && t[0] != '+')) ==> (r.Some? <==> ParseUnsigned(t).Some?)
    ensures (|t| == 0 || (t[0] != '-' && t[0] != '+')) && r.Some? ==> r.value == ParseUnsigned(t).value as int
  {
    var signed := |t| > 0 && (t[0] == '-' || t[0] == '+');
    var u := if signed then t[1..] else t;
    match ParseUnsigned(u)
    case None => None
    case Some(v) =>
      assert t[|t| - |u|] == u[0];
      var n: int := v;
      Some(if signed && t[0] == '-' then -n else n)
  }

  /** An unsigned reading with a sign applied; NaN stays NaN. */
  function WithSign(negative: bool, u: Option<nat>): (r: Option<int>)
    ensures r.Some? <==> u.Some?
    ensures r.Some? && negative ==> r.value == -(u.value as int) && r.value <= 0
    ensures r.Some? && !negative ==> r.value == u.value as int && r.value >= 0
  {
    match u
    case None => None
    case Some(v) => Some(if negative then -(v as int) else v as int)
  }

  /** `parseInt(s)`: skip leading white space, then read a signed
      number. Every first character is covered: a sign reads the unsigned
      part after it, '0' reads the unsigned part from there (so "0x" starts
      hexadecimal and "007" is 7), a digit 1-9 reads the decimal run, and
      anything else, hexadecimal letters included, is NaN. */
  function ParseInt(s: string): (r: Option<int>)
    ensures Text.AllSpace(s) ==> r.None?
    ensures r.Some? ==> exists i :: 0 <= i < |s| && IsHexDigit(s[i])
    ensures var t := AfterSpaces(s);
            |t| > 0 && '1' <= t[0] <= '9' ==> r == Some(LeadingDecimal(t) as int)
    ensures var t := AfterSpaces(s);
            |t| > 1 && t[0] == '-' && '1' <= t[1] <= '9' ==> r == Some(-(LeadingDecimal(t[1..]) as int))
    ensures var t := AfterSpaces(s);
            |t| > 0 && t[0] == '-' ==> r == WithSign(true, ParseUnsigned(t[1..]))
    ensures var t := AfterSpaces(s);
            |t| > 0 && t[0] == '+' ==> r == WithSign(false, ParseUnsigned(t[1..]))
    ensures var t := AfterSpaces(s);
            |t| > 0 && t[0] == '0' ==> r == WithSign(false, ParseUnsigned(t))
    ensures var t := AfterSpaces(s);
            |t| > 0 && !IsDecimalDigit(t[0]) && t[0] != '-' && t[0] != '+' ==> r.None?
  {
    ParseSignedAfterSpaces(s);
    ParseSigned(AfterSpaces(s))
  }

  /** The text after its leading white space. */
  function AfterSpaces(s: string): string {
    s[Text.LeadingSpaces(s)..]
  }

  /** What reading after the leading white space gives: nothing for
      all-space text, only digits that are in the original text, and the
      readings of `ParseSignedCases`. */
  lemma ParseSignedAfterSpaces(s: string)
    ensures var r := ParseSigned(AfterSpaces(s));
            && (Text.AllSpace(s) ==> r.None?)
            && (r.Some? ==> exists i :: 0 <= i < |s| && IsHexDigit(s[i]))
    ensures var t := AfterSpaces(s);
            |t| > 0 && '1' <= t[0] <= '9' ==> ParseSigned(t) == Some(LeadingDecimal(t) as int)
    ensures var t := AfterSpaces(s);
            |t| > 1 && t[0] == '-' && '1' <= t[1] <= '9' ==> ParseSigned(t) == Some(-(LeadingDecimal(t[1..]) as int))
    ensures var t := AfterSpaces(s);
            |t| > 0 && t[0] == '-' ==> ParseSigned(t) == WithSign(true, ParseUnsigned(t[1..]))
    ensures var t := AfterSpaces(s);
            |t| > 0 && t[0] == '+' ==> ParseSigned(t) == WithSign(false, ParseUnsigned(t[1..]))
    ensures var t := AfterSpaces(s);
            |t| > 0 && t[0] == '0' ==> ParseSigned(t) == WithSign(false, ParseUnsigned(t))
    ensures var t := AfterSpaces(s);
            |t| > 0 && !IsDecimalDigit(t[0]) && t[0] != '-' && t[0] != '+' ==> ParseSigned(t).None?
  {
    ParseSignedDigitsFromText(s);
    ParseSignedCases(AfterSpaces(s));
  }

  /** A reading after the leading white space needs a digit of the text. */
  lemma ParseSignedDigitsFromText(s: string)
    ensures var r := ParseSigned(AfterSpaces(s));
            && (Text.AllSpace(s) ==> r.None?)
            && (r.Some? ==> exists i :: 0 <= i < |s| && IsHexDigit(s[i]))
  {
    var k := Text.LeadingSpaces(s);
    var t := s[k..];
    assert AfterSpaces(s) == t;
    if Text.AllSpace(s) {
      assert k == |s|;
      assert |t| == 0;
    }
    if ParseSigned(t).Some? {
      var i :| 0 <= i < |t| && IsHexDigit(t[i]);
      assert s[k + i] == t[i];
    }
  }

  /** The readings of `ParseSigned` that `ParseInt` promises, one per kind
      of first character. */
  lemma ParseSignedCases(t: string)
    ensures |t| > 0 && '1' <= t[0] <= '9' ==> ParseSigned(t) == Some(LeadingDecimal(t) as int)
    ensures |t| > 1 && t[0] == '-' && '1' <= t[1] <= '9' ==>
              ParseSigned(t) == Some(-(LeadingDecimal(t[1..]) as int))
    ensures |t| > 0 && t[0] == '-' ==> ParseSigned(t) == WithSign(true, ParseUnsigned(t[1..]))
    ensures |t| > 0 && t[0] == '+' ==> ParseSigned(t) == WithSign(false, ParseUnsigned(t[1..]))
    ensures |t| > 0 && t[0] == '0' ==> ParseSigned(t) == WithSign(false, ParseUnsigned(t))
    ensures |t| > 0 && !IsDecimalDigit(t[0]) && t[0] != '-' && t[0] != '+' ==> ParseSigned(t).None?
  {
    if |t| > 0 && '1' <= t[0] <= '9' {
      ParseSignedDecimal(t);
    } else if |t| > 1 && t[0] == '-' && '1' <= t[1] <= '9' {
      ParseSignedNegativeDecimal(t);
    } else if |t| > 0 && !IsDecimalDigit(t[0]) && t[0] != '-' && t[0] != '+' {
      ParseSignedNoDigit(t);
    }
  }

  /** Text that starts with a digit 1-9 reads as its leading digit run. */
  lemma ParseSignedDecimal(t: string)
    requires |t| > 0 && '1' <= t[0] <= '9'
    ensures ParseSigned(t) == Some(LeadingDecimal(t) as int)
  {
    assert !HexPrefixed(t);
    assert DigitRun(t, 10) > 0;
  }

  /** A minus sign followed by a digit 1-9 reads as the negated digit run. */
  lemma ParseSignedNegativeDecimal(t: string)
    requires |t| > 1 && t[0] == '-' && '1' <= t[1] <= '9'
    ensures ParseSigned(t) == Some(-(LeadingDecimal(t[1..]) as int))
  {
    var u := t[1..];
    assert u[0] == t[1];
    assert !HexPrefixed(u);
    assert DigitRun(u, 10) > 0;
  }

  /** Text that starts with neither a decimal digit nor a sign is NaN; a
      hexadecimal letter counts only after "0x". */
  lemma ParseSignedNoDigit(t: string)
    requires |t| > 0 && !IsDecimalDigit(t[0]) && t[0] != '-' && t[0] != '+'
    ensures ParseSigned(t).None?
  {
    assert !HexPrefixed(t);
    assert !IsDigit(t[0], 10);
  }

  /** `parseInt` on a few inputs where the first character decides: a plus
      sign, leading zeros, a hexadecimal prefix and a bare hexadecimal
      letter. */
  lemma ParseIntFirstCharacters()
    ensures ParseInt("+7") == Some(7)
    ensures ParseInt("007") == Some(7)
    ensures ParseInt("0x1A") == Some(26)
    ensures ParseInt("a") == None
  {
    ParseIntPlusSeven();
    ParseIntZeroZeroSeven();
    ParseIntHex();
    ParseIntHexLetter();
  }

  lemma ParseIntHexLetter()
    ensures ParseInt("a") == None
  {
    NoLeadingSpace("a");
    var t := AfterSpaces("a");
    assert t == "a";
    assert |t| > 0 && !IsDecimalDigit(t[0]) && t[0] != '-' && t[0] != '+';
  }

  lemma ParseIntPlusSeven()
    ensures ParseInt("+7") == Some(7)
  {
    NoLeadingSpace("+7");
    assert AfterSpaces("+7") == "+7";
    assert "+7"[1..] == "7" + "";
    ParseUnsignedDigits("7", "");
    assert Value("7", 10) == 7 by {
      assert "7"[..0] == "";
    }
  }

  lemma ParseIntZeroZeroSeven()
    ensures ParseInt("007") == Some(7)
  {
    NoLeadingSpace("007");
    assert AfterSpaces("007") == "007";
    assert "007" == "007" + "";
    ParseUnsignedDigits("007", "");
    assert Value("007", 10) == 7 by {
      assert "007"[..2] == "00";
      assert "00"[..1] == "0";
      assert "0"[..0] == "";
    }
  }

  lemma ParseIntHex()
    ensures ParseInt("0x1A") == Some(26)
  {
    NoLeadingSpace("0x1A");
    assert AfterSpaces("0x1A") == "0x1A";
    assert HexPrefixed("0x1A");
    var w := "0x1A"[2..];
    assert w == "1A";
    assert DigitRun(w, 16) == 2 by {
      assert w[1..] == "A";
      assert DigitRun("A", 16) == 1 by {
        assert "A"[1..] == "";
      }
    }
    assert Value(w[..2], 16) == 26 by {
      assert w[..2] == "1A";
      assert "1A"[..1] == "1";
      assert "1"[..0] == "";
    }
  }

  /** The decimal digits of `n`, most significant first, without leading
      zeros. */
  function ShowNat(n: nat): (s: string)
    ensures |s| >= 1
    ensures forall i :: 0 <= i < |s| ==> IsDecimalDigit(s[i])
    ensures Value(s, 10) == n
    ensures s[0] == '0' ==> n == 0 && s == "0"
  {
    var d := [('0' as int + n % 10) as char];
    if n < 10 then d
    else
      var s := ShowNat(n / 10) + d;
      assert s[..|s| - 1] == ShowNat(n / 10);
      s
  }

  /** `n.toString()` for an integer `n`. */
  function ShowInt(n: int): (s: string)
    ensures |s| >= 1
    ensures n < 0 <==> s[0] == '-'
  {
    if n < 0 then "-" + ShowNat(-n) else ShowNat(n)
  }

  lemma NoLeadingSpace(s: string)
    requires |s| > 0 && !Text.IsSpace(s[0])
    ensures Text.LeadingSpaces(s) == 0
  {
  }

  /** The digit run of a digit string followed by a non-digit is that
      string. */
  lemma DigitRunOfDigits(digits: string, rest: string)
    requires forall i :: 0 <= i < |digits| ==> IsDecimalDigit(digits[i])
    requires |rest| == 0 || !IsDecimalDigit(rest[0])
    ensures DigitRun(digits + rest, 10) == |digits|
    ensures (digits + rest)[..|digits|] == digits
  {
    var u := digits + rest;
    assert forall i :: 0 <= i < |digits| ==> IsDigit(u[i], 10);
    assert |u| == |digits| || !IsDigit(u[|digits|], 10);
  }

  /** Digits that do not start a `0x` prefix, followed by something that
      cannot continue them, read back as their value. */
  lemma ParseUnsignedDigits(digits: string, rest: string)
    requires |digits| >= 1 && forall i :: 0 <= i < |digits| ==> IsDecimalDigit(digits[i])
    requires |rest| == 0 || (!IsDecimalDigit(rest[0]) && rest[0] != 'x' && rest[0] != 'X')
    ensures ParseUnsigned(digits + rest) == Some(Value(digits, 10))
  {
    var u := digits + rest;
    DigitRunOfDigits(digits, rest);
    assert !(|u| >= 2 && u[0] == '0' && (u[1] == 'x' || u[1] == 'X')) by {
      if |u| >= 2 {
        assert u[1] == (if |digits| >= 2 then digits[1] else rest[0]);
      }
    }
  }

  /** A minus sign negates what follows it. */
  lemma MinusNegates(t: string, v: nat)
    requires |t| > 0 && t[0] == '-' && ParseUnsigned(t[1..]) == Some(v)
    ensures ParseSigned(t) == Some(-(v as int))
  {
  }

  lemma ParseSignedNegative(m: nat, rest: string)
    requires m > 0
    requires |rest| == 0 || (!IsDecimalDigit(rest[0]) && rest[0] != 'x' && rest[0] != 'X')
    ensures ParseSigned(ShowInt(-(m as int)) + rest) == Some(-(m as int))
  {
    var digits := ShowNat(m);
    var t := ShowInt(-(m as int)) + rest;
    assert ShowInt(-(m as int)) == ['-'] + digits;
    assert t == ['-'] + (digits + rest);
    assert t[1..] == digits + rest;
    ParseUnsignedDigits(digits, rest);
    MinusNegates(t, m);
  }

  lemma ParseSignedNatural(m: nat, rest: string)
    requires |rest| == 0 || (!IsDecimalDigit(rest[0]) && rest[0] != 'x' && rest[0] != 'X')
    ensures ParseSigned(ShowInt(m) + rest) == Some(m)
  {
    var digits := ShowNat(m);
    var t := ShowInt(m) + rest;
    assert t == digits + rest;
    assert t[0] == digits[0];
    ParseUnsignedDigits(digits, rest);
  }

  lemma ParseSignedShown(n: int, rest: string)
    requires |rest| == 0 || (!IsDecimalDigit(rest[0]) && rest[0] != 'x' && rest[0] != 'X')
    ensures ParseSigned(ShowInt(n) + rest) == Some(n)
  {
    if n < 0 {
      ParseSignedNegative(-n, rest);
    } else {
      ParseSignedNatural(n, rest);
    }
  }

  /** Reading back a printed integer gives the integer, whatever follows
      it that cannot continue the number. */
  lemma ParseShownInt(n: int, rest: string)
    requires |rest| == 0 || (!IsDecimalDigit(rest[0]) && rest[0] != 'x' && rest[0] != 'X')
    ensures ParseInt(ShowInt(n) + rest) == Some(n)
  {
    var s := ShowInt(n) + rest;
    NoLeadingSpace(s);
    assert s[0..] == s;
    ParseSignedShown(n, rest);
  }

  lemma ParseShown(n: int)
    ensures ParseInt(ShowInt(n)) == Some(n)
  {
    ParseShownInt(n, []);
    assert ShowInt(n) + [] == ShowInt(n);
  }
}
