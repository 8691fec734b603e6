/** The date conversion the movement extractor applies to each row:
    Python's `datetime.strptime(text, "%d/%m/%Y")`, restricted to ASCII digits.

    `%d` accepts `3[01]|[12]\d|0[1-9]|[1-9]| [1-9]`, `%m` accepts
    `1[0-2]|0[1-9]|[1-9]` and `%Y` exactly four digits; the whole text must be
    consumed, and the resulting date must exist in the proleptic Gregorian
    calendar between the years 1 and 9999, otherwise `ValueError` is raised
    (here: `None`). */
module Dates {
  import opened Wrappers

  datatype Date = Date(day: int, month: int, year: int)

  predicate IsDigit(c: char) {
    '0' <= c <= '9'
  }

  predicate AllDigits(s: string) {
    forall i :: 0 <= i < |s| ==> IsDigit(s[i])
  }

  function DigitValue(c: char): (v: nat)
    requires IsDigit(c)
    ensures v < 10
  {
    c as int - '0' as int
  }

  /** The decimal value of a string of digits, most significant digit first. */
  function NumberValue(s: string): nat
    requires AllDigits(s)
  {
    if s == [] then 0 else NumberValue(s[..|s| - 1]) * 10 + DigitValue(s[|s| - 1])
  }

  predicate IsLeapYear(y: int) {
    (y % 4 == 0 && y % 100 != 0) || y % 400 == 0
  }

  function DaysInMonth(month: int, year: int): int {
    if month == 2 then (if IsLeapYear(year) then 29 else 28)
    else if month == 4 || month == 6 || month == 9 || month == 11 then 30
    else 31
  }

  /** What Python's `datetime` constructor accepts. */
  predicate ValidDate(d: Date) {
    1 <= d.year <= 9999 && 1 <= d.month <= 12 && 1 <= d.day <= DaysInMonth(d.month, d.year)
  }

  /** Index of the first '/' of `s`, or `|s|` when there is none. */
  function SlashIndex(s: string): (n: nat)
    ensures n <= |s|
    ensures forall i :: 0 <= i < n ==> s[i] != '/'
    ensures n < |s| ==> s[n] == '/'
  {
    if s == [] || s[0] == '/' then 0 else 1 + SlashIndex(s[1..])
  }

  /** The pieces of `s` between its '/' characters. */
  function Fields(s: string): (fs: seq<string>)
    ensures |fs| >= 1
    decreases |s|
  {
    var n := SlashIndex(s);
    if n == |s| then [s] else [s[..n]] + Fields(s[n + 1..])
  }

  /** `%d`: one or two digits worth 1 to 31, or a space and a digit 1 to 9. */
  function ParseDay(f: string): Option<int> {
    if |f| == 2 && f[0] == ' ' && IsDigit(f[1]) && f[1] != '0' then Some(DigitValue(f[1]))
    else if 1 <= |f| <= 2 && AllDigits(f) && 1 <= NumberValue(f) <= 31 then Some(NumberValue(f))
    else None
  }

  /** `%m`: one or two digits worth 1 to 12. */
  function ParseMonth(f: string): Option<int> {
    if 1 <= |f| <= 2 && AllDigits(f) && 1 <= NumberValue(f) <= 12 then Some(NumberValue(f))
    else None
  }

  /** `%Y`: exactly four digits. */
  function ParseYear(f: string): Option<int> {
    if |f| == 4 && AllDigits(f) then Some(NumberValue(f)) else None
  }

  /** `datetime.strptime(s, "%d/%m/%Y")`; `None` where Python raises `ValueError`. */
  function ParseDate(s: string): (r: Option<Date>)
    ensures r.Some? ==> ValidDate(r.value)
  {
    var fs := Fields(s);
    if |fs| != 3 then None
    else
      match (ParseDay(fs[0]), ParseMonth(fs[1]), ParseYear(fs[2]))
      case (Some(d), Some(m), Some(y)) =>
        if ValidDate(Date(d, m, y)) then Some(Date(d, m, y)) else None
      case _ => None
  }

  // ---------------------------------------------------------------------------
  // Formatting, the partner of parsing
  // ---------------------------------------------------------------------------

  function Digit(n: nat): (c: char)
    requires n < 10
    ensures IsDigit(c) && DigitValue(c) == n
  {
    ('0' as int + n) as char
  }

  /** Two digits, zero-padded. */
  function TwoDigits(n: nat): (s: string)
    requires n < 100
    ensures |s| == 2 && AllDigits(s)
  {
    [Digit(n / 10), Digit(n % 10)]
  }

  /** Four digits, zero-padded. */
  function FourDigits(n: nat): (s: string)
    requires n < 10000
    ensures |s| == 4 && AllDigits(s)
  {
    TwoDigits(n / 100) + TwoDigits(n % 100)
  }

  /** `date.strftime("%d/%m/%Y")` for a valid date. */
  function FormatDate(d: Date): string
    requires ValidDate(d)
  {
    TwoDigits(d.day) + "/" + TwoDigits(d.month) + "/" + FourDigits(d.year)
  }

  // ---------------------------------------------------------------------------
  // Lemmas
  // ---------------------------------------------------------------------------

  lemma TwoDigitsValue(n: nat)
    requires n < 100
    ensures NumberValue(TwoDigits(n)) == n
  {
    var s := TwoDigits(n);
    assert s[..1] == [s[0]] && s[..1][..0] == [];
    assert NumberValue(s[..1]) == DigitValue(s[0]);
    assert NumberValue(s) == DigitValue(s[0]) * 10 + DigitValue(s[1]);
  }

  lemma {:induction false} NumberValueAppend(a: string, b: string)
    requires AllDigits(a) && AllDigits(b)
    ensures AllDigits(a + b)
    ensures |b| == 2 ==> NumberValue(a + b) == NumberValue(a) * 100 + NumberValue(b)
  {
    if |b| == 2 {
      var ab := a + b;
      var a0 := a + [b[0]];
      assert ab[..|ab| - 1] == a0 && ab[|ab| - 1] == b[1];
      assert a0[..|a0| - 1] == a && a0[|a0| - 1] == b[0];
      assert NumberValue(a0) == NumberValue(a) * 10 + DigitValue(b[0]);
      assert NumberValue(ab) == NumberValue(a0) * 10 + DigitValue(b[1]);
      assert b[..1] == [b[0]] && b[..1][..0] == [];
      assert NumberValue(b[..1]) == DigitValue(b[0]);
      assert NumberValue(b) == DigitValue(b[0]) * 10 + DigitValue(b[1]);
    }
  }

  lemma FourDigitsValue(n: nat)
    requires n < 10000
    ensures NumberValue(FourDigits(n)) == n
  {
    NumberValueAppend(TwoDigits(n / 100), TwoDigits(n % 100));
    TwoDigitsValue(n / 100);
    TwoDigitsValue(n % 100);
  }

  lemma FieldsOfSlashFree(s: string)
    requires forall i :: 0 <= i < |s| ==> s[i] != '/'
    ensures Fields(s) == [s]
  {
    assert SlashIndex(s) == |s|;
  }

  lemma FieldsCons(a: string, rest: string)
    requires forall i :: 0 <= i < |a| ==> a[i] != '/'
    ensures Fields(a + "/" + rest) == [a] + Fields(rest)
  {
    var s := a + "/" + rest;
    assert forall i :: 0 <= i < |a| ==> s[i] == a[i];
    assert s[|a|] == '/';
    assert SlashIndex(s) == |a|;
    assert s[..|a|] == a;
    assert s[|a| + 1..] == rest;
  }

  /** Parsing reads back every valid date written as "dd/mm/yyyy". */
  lemma ParseFormatDate(d: Date)
    requires ValidDate(d)
    ensures ParseDate(FormatDate(d)) == Some(d)
  {
    var dd, mm, yy := TwoDigits(d.day), TwoDigits(d.month), FourDigits(d.year);
    assert FormatDate(d) == dd + "/" + (mm + "/" + yy);
    FieldsCons(dd, mm + "/" + yy);
    FieldsCons(mm, yy);
    FieldsOfSlashFree(yy);
    assert Fields(FormatDate(d)) == [dd, mm, yy];
    TwoDigitsValue(d.day);
    TwoDigitsValue(d.month);
    FourDigitsValue(d.year);
    assert dd[0] != ' ';
  }
}
