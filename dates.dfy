/**
 * DATE literals (makeDate and DateNode in src/nodes/eval/arithmetic.cpp):
 * the literal's text is split on '/' into day, month and year digits, and
 * evaluating a literal that names no calendar date is an error.
 */
module Dates {
  import opened Wrappers
  import opened Values

  const Slash: CChar := 47
  const Digit0: CChar := 48
  const Digit9: CChar := 57

  /** The three fields of a split literal. */
  datatype Fields = Fields(day: Str, month: Str, year: Str)

  /** The field that receives the characters after `slashes` separators. */
  function Put(f: Fields, slashes: nat, c: CChar): (g: Fields)
    ensures slashes == 0 ==> g == f.(day := f.day + [c])
    ensures slashes == 1 ==> g == f.(month := f.month + [c])
    ensures slashes >= 2 ==> g == f.(year := f.year + [c])
  {
    if slashes == 0 then f.(day := f.day + [c])
    else if slashes == 1 then f.(month := f.month + [c])
    else f.(year := f.year + [c])
  }

  /**
   * The split of `text`, given the fields collected so far and the number of
   * separators seen: every character after the second '/' goes to the year.
   */
  function SplitFrom(text: Str, f: Fields, slashes: nat): Fields
  {
    if text == [] then f
    else if text[0] == Slash then SplitFrom(text[1..], f, slashes + 1)
    else SplitFrom(text[1..], Put(f, slashes, text[0]), slashes)
  }

  function Split(text: Str): Fields
  {
    SplitFrom(text, Fields([], [], []), 0)
  }

  predicate NoSlash(s: Str)
  {
    forall i :: 0 <= i < |s| ==> s[i] != Slash
  }

  lemma {:induction false} SplitFromStep(text: Str, i: nat, f: Fields, slashes: nat)
    requires i < |text|
    ensures SplitFrom(text[i..], f, slashes)
         == SplitFrom(text[i + 1..], if text[i] == Slash then f else Put(f, slashes, text[i]),
                      if text[i] == Slash then slashes + 1 else slashes)
  {
    assert text[i..][1..] == text[i + 1..];
  }

  /** makeDate's character loop with its separator counter `x`. */
  method SplitLiteral(text: Str) returns (day: Str, month: Str, year: Str)
    ensures Fields(day, month, year) == Split(text)
  {
    day, month, year := [], [], [];
    var x: nat := 0;
    var i := 0;
    while i < |text|
      invariant 0 <= i <= |text|
      invariant SplitFrom(text[i..], Fields(day, month, year), x) == Split(text)
    {
      SplitFromStep(text, i, Fields(day, month, year), x);
      var c := text[i];
      if c == Slash {
        x := x + 1;
      } else if x == 0 {
        day := day + [c];
      } else if x == 1 {
        month := month + [c];
      } else {
        year := year + [c];
      }
      i := i + 1;
    }
  }

  lemma {:induction false} SplitFromNoSlash(s: Str, f: Fields, slashes: nat, rest: Str)
    requires NoSlash(s)
    ensures SplitFrom(s + rest, f, slashes)
         == SplitFrom(rest, if slashes == 0 then f.(day := f.day + s)
                            else if slashes == 1 then f.(month := f.month + s)
                            else f.(year := f.year + s), slashes)
  {
    if s == [] {
      assert s + rest == rest;
      assert f.day + s == f.day && f.month + s == f.month && f.year + s == f.year;
    } else {
      assert (s + rest)[0] == s[0];
      assert (s + rest)[1..] == s[1..] + rest;
      SplitFromNoSlash(s[1..], Put(f, slashes, s[0]), slashes, rest);
      assert [s[0]] + s[1..] == s;
      assert f.day + [s[0]] + s[1..] == f.day + s;
      assert f.month + [s[0]] + s[1..] == f.month + s;
      assert f.year + [s[0]] + s[1..] == f.year + s;
    }
  }

  /** A literal written as d/m/y, with slash-free fields, splits back into d, m and y. */
  lemma SplitRoundTrip(d: Str, m: Str, y: Str)
    requires NoSlash(d) && NoSlash(m) && NoSlash(y)
    ensures Split(d + [Slash] + m + [Slash] + y) == Fields(d, m, y)
  {
    var e: Str := [];
    var rest1 := [Slash] + m + [Slash] + y;
    assert d + [Slash] + m + [Slash] + y == d + rest1;
    SplitFromNoSlash(d, Fields(e, e, e), 0, rest1);
    assert e + d == d;
    assert rest1[1..] == m + ([Slash] + y);
    SplitFromNoSlash(m, Fields(d, e, e), 1, [Slash] + y);
    assert e + m == m;
    assert ([Slash] + y)[1..] == y;
    SplitFromNoSlash(y, Fields(d, m, e), 2, []);
    assert y + [] == y;
    assert e + y == y;
  }

  /** Further separators only drop out: the year collects every other character after the second. */
  lemma ExtraSlashesJoinYear(d: Str, m: Str, y1: Str, y2: Str)
    requires NoSlash(d) && NoSlash(m) && NoSlash(y1) && NoSlash(y2)
    ensures Split(d + [Slash] + m + [Slash] + y1 + [Slash] + y2) == Fields(d, m, y1 + y2)
  {
    var e: Str := [];
    var rest1 := [Slash] + m + [Slash] + y1 + [Slash] + y2;
    assert d + [Slash] + m + [Slash] + y1 + [Slash] + y2 == d + rest1;
    SplitFromNoSlash(d, Fields(e, e, e), 0, rest1);
    assert e + d == d;
    var rest2 := [Slash] + y1 + [Slash] + y2;
    assert rest1[1..] == m + rest2;
    SplitFromNoSlash(m, Fields(d, e, e), 1, rest2);
    assert e + m == m;
    var rest3 := [Slash] + y2;
    assert rest2[1..] == y1 + rest3;
    SplitFromNoSlash(y1, Fields(d, m, e), 2, rest3);
    assert e + y1 == y1;
    assert rest3[1..] == y2;
    SplitFromNoSlash(y2, Fields(d, m, y1), 3, []);
    assert y2 + [] == y2;
  }

  // ------------------------------------------------------------ std::stoul

  predicate IsDigit(c: CChar)
  {
    Digit0 <= c <= Digit9
  }

  /** The number spelled by a run of decimal digits. */
  function DigitsValue(s: Str): nat
    requires forall i :: 0 <= i < |s| ==> IsDigit(s[i])
  {
    if s == [] then 0
    else
      assert IsDigit(s[|s| - 1]);
      DigitsValue(s[..|s| - 1]) * 10 + (s[|s| - 1] as int - Digit0 as int)
  }

  /** The length of the leading run of digits, where the conversion stops. */
  function DigitRun(s: Str): (n: nat)
    ensures n <= |s|
    ensures forall i :: 0 <= i < n ==> IsDigit(s[i])
    ensures n < |s| ==> !IsDigit(s[n])
  {
    if s == [] || !IsDigit(s[0]) then 0 else 1 + DigitRun(s[1..])
  }

  const Space: CChar := 32
  const Plus: CChar := 43
  const Minus: CChar := 45

  /** ULONG_MAX + 1 for the 64-bit `unsigned long` of LP64 Linux. */
  const ULongModulus: nat := 0x1_0000_0000_0000_0000

  /** isspace in the "C" locale: blank, tab, line feed, vertical tab, form feed, carriage return. */
  predicate IsSpace(c: CChar)
  {
    c == Space || 9 <= c <= 13
  }

  /** The length of the leading run of white space, which std::stoul skips. */
  function SpaceRun(s: Str): (n: nat)
    ensures n <= |s|
    ensures forall i :: 0 <= i < n ==> IsSpace(s[i])
    ensures n < |s| ==> !IsSpace(s[n])
  {
    if s == [] || !IsSpace(s[0]) then 0 else 1 + SpaceRun(s[1..])
  }

  /** A sign right after the white space. */
  predicate HasSign(s: Str)
  {
    SpaceRun(s) < |s| && (s[SpaceRun(s)] == Plus || s[SpaceRun(s)] == Minus)
  }

  predicate Negative(s: Str)
  {
    SpaceRun(s) < |s| && s[SpaceRun(s)] == Minus
  }

  /** Where the digits start: after the white space and at most one sign. */
  function DigitsStart(s: Str): (k: nat)
    ensures k <= |s|
  {
    if HasSign(s) then SpaceRun(s) + 1 else SpaceRun(s)
  }

  /** The digits std::stoul converts. */
  function Digits(s: Str): (d: Str)
    ensures forall i :: 0 <= i < |d| ==> IsDigit(d[i])
  {
    var k := DigitsStart(s);
    s[k..][..DigitRun(s[k..])]
  }

  /**
   * std::stoul on a field (base 10): white space and one sign are skipped,
   * then the leading digits are read. There is no value (the host throws)
   * when there are no digits (std::invalid_argument, as for the empty day of
   * "/1/2000") or when they spell ULONG_MAX + 1 or more (std::out_of_range).
   * A '-' negates the value modulo 2^64, as strtoul does.
   */
  function ParseField(s: Str): (r: Option<nat>)
    ensures r.None? <==> Digits(s) == [] || DigitsValue(Digits(s)) >= ULongModulus
    ensures r.Some? ==> r.value < ULongModulus
    ensures r.Some? && !Negative(s) ==> r.value == DigitsValue(Digits(s))
    ensures r.Some? && Negative(s) ==> (r.value + DigitsValue(Digits(s))) % ULongModulus == 0
  {
    var d := Digits(s);
    if d == [] then None
    else
      var v := DigitsValue(d);
      if v >= ULongModulus then None
      else if Negative(s) then Some((ULongModulus - v) % ULongModulus)
      else Some(v)
  }

  /** Digit strings whose value fits an `unsigned long` parse to that value. */
  lemma ParseDigits(s: Str)
    requires |s| > 0 && forall i :: 0 <= i < |s| ==> IsDigit(s[i])
    requires DigitsValue(s) < ULongModulus
    ensures ParseField(s) == Some(DigitsValue(s))
  {
    DigitsOfDigits(s);
  }

  /** Digit strings spelling ULONG_MAX + 1 or more do not parse: std::out_of_range. */
  lemma ParseTooLarge(s: Str)
    requires forall i :: 0 <= i < |s| ==> IsDigit(s[i])
    requires DigitsValue(s) >= ULongModulus
    ensures ParseField(s).None?
  {
    DigitsOfDigits(s);
  }

  lemma DigitsOfDigits(s: Str)
    requires forall i :: 0 <= i < |s| ==> IsDigit(s[i])
    ensures Digits(s) == s && !Negative(s)
  {
    DigitRunAll(s);
    assert s[0..] == s;
    assert s[..|s|] == s;
  }

  lemma {:induction false} DigitRunAll(s: Str)
    requires forall i :: 0 <= i < |s| ==> IsDigit(s[i])
    ensures DigitRun(s) == |s|
  {
    if s != [] {
      DigitRunAll(s[1..]);
    }
  }

  /** Leading white space does not change the result. */
  lemma ParseSkipsSpace(c: CChar, s: Str)
    requires IsSpace(c)
    ensures ParseField([c] + s) == ParseField(s)
  {
    var t := [c] + s;
    assert t[1..] == s;
    assert SpaceRun(t) == 1 + SpaceRun(s);
    assert DigitsStart(t) == 1 + DigitsStart(s);
    assert t[DigitsStart(t)..] == s[DigitsStart(s)..];
  }

  /** A sign before digits that fit: '+' keeps the value, '-' gives its negation modulo 2^64. */
  lemma ParseSigned(s: Str)
    requires |s| > 0 && forall i :: 0 <= i < |s| ==> IsDigit(s[i])
    requires DigitsValue(s) < ULongModulus
    ensures ParseField([Plus] + s) == Some(DigitsValue(s))
    ensures ParseField([Minus] + s) == Some((ULongModulus - DigitsValue(s)) % ULongModulus)
  {
    SignedDigits(Plus, s);
    SignedDigits(Minus, s);
    var v := DigitsValue(s);
    assert Digits([Plus] + s) == s && !Negative([Plus] + s);
    assert Digits([Minus] + s) == s && Negative([Minus] + s);
    assert v < ULongModulus;
  }

  lemma SignedDigits(c: CChar, s: Str)
    requires c == Plus || c == Minus
    requires forall i :: 0 <= i < |s| ==> IsDigit(s[i])
    ensures Digits([c] + s) == s
    ensures Negative([c] + s) <==> c == Minus
  {
    var t := [c] + s;
    assert SpaceRun(t) == 0;
    assert DigitsStart(t) == 1;
    assert t[1..] == s;
    DigitRunAll(s);
    assert s[..|s|] == s;
  }

  /** 10^n. */
  function Pow10(n: nat): (p: nat)
    ensures p >= 1
  {
    if n == 0 then 1 else 10 * Pow10(n - 1)
  }

  /** n nines spell 10^n - 1. */
  lemma {:induction false} NinesValue(n: nat)
    ensures DigitsValue(seq(n, _ => Digit9)) == Pow10(n) - 1
  {
    if n > 0 {
      NinesValue(n - 1);
      assert seq(n, _ => Digit9)[..n - 1] == seq(n - 1, _ => Digit9);
    }
  }

  /** A year of twenty nines, 10^20 - 1, is out of range for std::stoul, so the literal has no date. */
  lemma TwentyNinesOverflow()
    ensures MakeDate([Digit0 + 1, Slash, Digit0 + 1, Slash] + seq(20, _ => Digit9)).None?
  {
    var y: Str := seq(20, _ => Digit9);
    var one: Str := [Digit0 + 1];
    assert one + [Slash] + one + [Slash] + y == [Digit0 + 1, Slash, Digit0 + 1, Slash] + y;
    SplitRoundTrip(one, one, y);
    NinesValue(20);
    // Literal unfolding of Pow10 reaches only a few levels at a time.
    assert Pow10(5) == 100000;
    assert Pow10(10) == 10000000000;
    assert Pow10(15) == 1000000000000000;
    assert Pow10(20) == 100000000000000000000;
    ParseTooLarge(y);
  }

  /** makeDate: None where one of the three std::stoul calls throws. */
  function MakeDate(text: Str): (r: Option<Date>)
    ensures r.Some? <==> (ParseField(Split(text).day).Some? && ParseField(Split(text).month).Some?
                          && ParseField(Split(text).year).Some?)
  {
    var f := Split(text);
    match (ParseField(f.day), ParseField(f.month), ParseField(f.year))
    case (Some(d), Some(m), Some(y)) => Some(Date(d, m, y))
    case _ => None
  }

  // ------------------------------------------------- year_month_day::ok()

  predicate IsLeap(y: int)
  {
    y % 4 == 0 && (y % 100 != 0 || y % 400 == 0)
  }

  function DaysInMonth(m: nat, y: int): (n: nat)
    requires 1 <= m <= 12
    ensures 28 <= n <= 31
  {
    if m == 2 then (if IsLeap(y) then 29 else 28)
    else if m == 4 || m == 6 || m == 9 || m == 11 then 30
    else 31
  }

  /** A valid proleptic Gregorian date in the range std::chrono::year accepts. */
  predicate DateOk(d: Date)
  {
    1 <= d.month <= 12 && 1 <= d.day <= DaysInMonth(d.month, d.year) && d.year <= 32767
  }

  /** February 29 is a date exactly in leap years. */
  lemma LeapDay(y: nat)
    requires y <= 32767
    ensures DateOk(Date(29, 2, y)) <==> IsLeap(y)
  {
  }

  /** Day zero, month zero and month thirteen are never dates. */
  lemma OutOfRangeFields(d: nat, m: nat, y: nat)
    ensures !DateOk(Date(0, m, y)) && !DateOk(Date(d, 0, y)) && !DateOk(Date(d, 13, y))
    ensures d > 31 ==> !DateOk(Date(d, m, y))
  {
  }
}
