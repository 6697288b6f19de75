/** Signed decimal numerals and two-digit clock times, as the program prints and parses them. */
module Decimal {
  import opened Lists

  predicate IsDigit(c: char) {
    '0' <= c <= '9'
  }

  function DigitChar(d: nat): (c: char)
    requires d < 10
    ensures IsDigit(c) && DigitValue(c) == d
  {
    ('0' as int + d) as char
  }

  function DigitValue(c: char): (d: nat)
    requires IsDigit(c)
    ensures d < 10
  {
    c as int - '0' as int
  }

  function PrintNat(n: nat): string {
    if n < 10 then [DigitChar(n)] else PrintNat(n / 10) + [DigitChar(n % 10)]
  }

  function Print(n: int): string {
    if n < 0 then "-" + PrintNat(-n) else PrintNat(n)
  }

  predicate AllDigits(s: string) {
    forall i :: 0 <= i < |s| ==> IsDigit(s[i])
  }

  function DigitsValue(s: string): nat
    requires AllDigits(s)
  {
    if s == [] then 0 else 10 * DigitsValue(s[..|s| - 1]) + DigitValue(s[|s| - 1])
  }

  /** `int(s)`: an optional sign and at least one digit, otherwise a ValueError. */
  function Parse(s: string): Option<int> {
    var signed := s != [] && (s[0] == '-' || s[0] == '+');
    var digits := if signed then s[1..] else s;
    if digits == [] || !AllDigits(digits) then None
    else if signed && s[0] == '-' then Some(0 - DigitsValue(digits) as int)
    else Some(DigitsValue(digits))
  }

  lemma {:induction false} PrintNatParses(n: nat)
    ensures PrintNat(n) != [] && AllDigits(PrintNat(n)) && DigitsValue(PrintNat(n)) == n
  {
    if n < 10 {
      assert PrintNat(n)[..0] == [];
    } else {
      PrintNatParses(n / 10);
      var s := PrintNat(n);
      assert s[..|s| - 1] == PrintNat(n / 10);
    }
  }

  lemma PrintParses(n: int)
    ensures Parse(Print(n)) == Some(n)
  {
    if n < 0 {
      PrintNatParses(-n);
      NumeralParses(Print(n), "-", PrintNat(-n));
    } else {
      PrintNatParses(n);
      NumeralParses(Print(n), "", PrintNat(n));
    }
  }

  /** What is a numeral: at least one digit after an optional sign. */
  ghost predicate IsNumeral(s: string, sign: string, digits: string) {
    (sign == "" || sign == "+" || sign == "-") && digits != [] && AllDigits(digits) && s == sign + digits
  }

  /** Exactly the numerals parse, to the value of their digits with their sign. */
  lemma ParsesIff(s: string)
    ensures Parse(s).Some? <==> exists sign, digits :: IsNumeral(s, sign, digits)
    ensures forall sign, digits | IsNumeral(s, sign, digits) ::
      Parse(s) == Some(if sign == "-" then -(DigitsValue(digits) as int) else DigitsValue(digits))
  {
    if Parse(s).Some? {
      if s[0] == '-' {
        assert s == "-" + s[1..];
        assert IsNumeral(s, "-", s[1..]);
      } else if s[0] == '+' {
        assert s == "+" + s[1..];
        assert IsNumeral(s, "+", s[1..]);
      } else {
        assert s == "" + s;
        assert IsNumeral(s, "", s);
      }
    }
    forall sign, digits | IsNumeral(s, sign, digits)
      ensures Parse(s) == Some(if sign == "-" then -(DigitsValue(digits) as int) else DigitsValue(digits))
    {
      NumeralParses(s, sign, digits);
    }
  }

  lemma NumeralParses(s: string, sign: string, digits: string)
    requires IsNumeral(s, sign, digits)
    ensures Parse(s) == Some(if sign == "-" then -(DigitsValue(digits) as int) else DigitsValue(digits))
  {
    if sign == "" {
      assert s == digits;
    } else {
      assert s[1..] == digits;
    }
  }

  /** The part of `s` after its last `c`, as `s.slice(s.lastIndexOf(c) + 1)` gives it. */
  function AfterLast(s: string, c: char): string {
    if s == [] || s[|s| - 1] == c then [] else AfterLast(s[..|s| - 1], c) + [s[|s| - 1]]
  }

  lemma {:induction false} AfterLastOf(prefix: string, c: char, suffix: string)
    requires c !in suffix
    ensures AfterLast(prefix + [c] + suffix, c) == suffix
  {
    var s := prefix + [c] + suffix;
    if suffix != [] {
      AfterLastOf(prefix, c, suffix[..|suffix| - 1]);
      assert s[..|s| - 1] == prefix + [c] + suffix[..|suffix| - 1];
    }
  }

  lemma PrintHasNoColon(n: int)
    ensures ':' !in Print(n)
  {
    PrintNatParses(if n < 0 then -n else n);
  }

  // ----- HH:MM -----

  datatype Clock = Clock(hour: nat, minute: nat)

  predicate IsClock(c: Clock) {
    c.hour < 24 && c.minute < 60
  }

  function TwoDigits(n: nat): string
    requires n < 100
  {
    [DigitChar(n / 10), DigitChar(n % 10)]
  }

  function PrintClock(c: Clock): string
    requires IsClock(c)
  {
    TwoDigits(c.hour) + ":" + TwoDigits(c.minute)
  }

  /** The pattern `^([01]\d|2[0-3]):[0-5]\d$`. */
  predicate IsClockText(s: string) {
    && |s| == 5
    && IsDigit(s[0]) && IsDigit(s[1]) && s[2] == ':' && IsDigit(s[3]) && IsDigit(s[4])
    && (s[0] <= '1' || (s[0] == '2' && s[1] <= '3'))
    && s[3] <= '5'
  }

  function ParseClock(s: string): (c: Clock)
    requires IsClockText(s)
    ensures IsClock(c)
  {
    Clock(10 * DigitValue(s[0]) + DigitValue(s[1]), 10 * DigitValue(s[3]) + DigitValue(s[4]))
  }

  lemma ClockRoundTrip(c: Clock)
    requires IsClock(c)
    ensures IsClockText(PrintClock(c)) && ParseClock(PrintClock(c)) == c
  {
    assert PrintClock(c) == [DigitChar(c.hour / 10), DigitChar(c.hour % 10), ':',
                             DigitChar(c.minute / 10), DigitChar(c.minute % 10)];
  }

  lemma ClockTextRoundTrip(s: string)
    requires IsClockText(s)
    ensures PrintClock(ParseClock(s)) == s
  {
    forall c: char | IsDigit(c) ensures DigitChar(DigitValue(c)) == c {
      assert ('0' as int + DigitValue(c)) == c as int;
    }
  }

  /** The texts that match the pattern are the clock times as printed, and no others. */
  lemma ClockTextIff(s: string)
    ensures IsClockText(s) <==> exists c :: IsClock(c) && s == PrintClock(c)
  {
    if IsClockText(s) {
      ClockTextRoundTrip(s);
    }
    if c :| IsClock(c) && s == PrintClock(c) {
      ClockRoundTrip(c);
    }
  }
}
