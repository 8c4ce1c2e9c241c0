/** Book.convert_date: `datetime.strptime(s[:10], "%Y-%m-%d").strftime("%b %d, %Y")`, with every
    parse failure (and a None argument) turned into None. */
module Dates {
  import opened Wrappers

  /** The C-locale abbreviations that `%b` prints. */
  const MonthNames: seq<string> :=
    ["Jan", "Feb", "Mar", "Apr", "May", "Jun", "Jul", "Aug", "Sep", "Oct", "Nov", "Dec"]

  datatype Date = Date(year: int, month: int, day: int)

  predicate IsLeapYear(y: int) {
    y % 4 == 0 && (y % 100 != 0 || y % 400 == 0)
  }

  function DaysInMonth(year: int, month: int): int
    requires 1 <= month <= 12
  {
    if month == 2 then (if IsLeapYear(year) then 29 else 28)
    else if month == 4 || month == 6 || month == 9 || month == 11 then 30
    else 31
  }

  /** A date the datetime module accepts: year 1 to 9999 and a real day of a real month. */
  predicate ValidDate(d: Date) {
    && 1 <= d.year <= 9999
    && 1 <= d.month <= 12
    && 1 <= d.day <= DaysInMonth(d.year, d.month)
  }

  predicate IsDigit(c: char) {
    '0' <= c <= '9'
  }

  predicate AllDigits(s: string) {
    forall k :: 0 <= k < |s| ==> IsDigit(s[k])
  }

  function Digit(n: nat): (c: char)
    requires n < 10
    ensures IsDigit(c) && c as int - '0' as int == n
  {
    ('0' as int + n) as char
  }

  /** The value of a string of decimal digits. */
  function Number(s: string): nat
    requires AllDigits(s)
  {
    if s == [] then 0 else 10 * Number(s[..|s| - 1]) + (s[|s| - 1] as int - '0' as int)
  }

  function Pow10(w: nat): nat {
    if w == 0 then 1 else 10 * Pow10(w - 1)
  }

  /** `n` written with exactly `w` digits, zero-padded on the left (`%02d`, `%04d`). */
  function Padded(n: nat, w: nat): (r: string)
    ensures |r| == w && AllDigits(r)
  {
    if w == 0 then [] else Padded(n / 10, w - 1) + [Digit(n % 10)]
  }

  /** Reading back a padded number gives the number, as long as it fits in the width. */
  lemma {:induction false} NumberOfPadded(n: nat, w: nat)
    requires n < Pow10(w)
    ensures Number(Padded(n, w)) == n
  {
    if w > 0 {
      NumberOfPadded(n / 10, w - 1);
      assert Padded(n, w)[..w - 1] == Padded(n / 10, w - 1);
    }
  }

  /** Printing a digit string with its own width gives the string back. */
  lemma {:induction false} PaddedOfNumber(s: string)
    requires AllDigits(s)
    ensures Number(s) < Pow10(|s|)
    ensures Padded(Number(s), |s|) == s
  {
    if s != [] {
      var init := s[..|s| - 1];
      PaddedOfNumber(init);
      var d := s[|s| - 1] as int - '0' as int;
      assert (10 * Number(init) + d) / 10 == Number(init);
      assert (10 * Number(init) + d) % 10 == d;
      assert s == init + [s[|s| - 1]];
    }
  }

  /** The canonical `YYYY-MM-DD` spelling of a date. */
  function IsoDate(d: Date): (r: string)
    requires ValidDate(d)
    ensures |r| == 10
  {
    Padded(d.year, 4) + "-" + Padded(d.month, 2) + "-" + Padded(d.day, 2)
  }

  /** The `Mon DD, YYYY` spelling of a date. */
  function DisplayDate(d: Date): string
    requires ValidDate(d)
  {
    MonthNames[d.month - 1] + " " + Padded(d.day, 2) + ", " + Padded(d.year, 4)
  }

  /** strptime with `%Y-%m-%d` on a string that must be consumed completely. */
  function ParseIso(s: string): Option<Date> {
    if |s| == 10 && s[4] == '-' && s[7] == '-'
       && AllDigits(s[0..4]) && AllDigits(s[5..7]) && AllDigits(s[8..10])
    then
      var d := Date(Number(s[0..4]), Number(s[5..7]), Number(s[8..10]));
      if ValidDate(d) then Some(d) else None
    else None
  }

  /** Python's s[:10]. */
  function Prefix10(s: string): string {
    if |s| <= 10 then s else s[..10]
  }

  /** Book.convert_date. A result is always the display form of a valid date whose canonical
      spelling is the first ten characters of the argument. */
  function ConvertDate(s: Option<string>): (r: Option<string>)
    ensures s.None? ==> r.None?
    ensures r.Some? ==>
              && s.Some? && |s.value| >= 10
              && exists d :: ValidDate(d) && IsoDate(d) == s.value[..10] && r.value == DisplayDate(d)
  {
    match s
    case None => None
    case Some(text) =>
      match ParseIso(Prefix10(text))
      case None => None
      case Some(d) =>
        ParsedIsCanonical(Prefix10(text));
        Some(DisplayDate(d))
  }

  /** A string strptime accepts is the canonical spelling of the date it yields. */
  lemma ParsedIsCanonical(s: string)
    requires ParseIso(s).Some?
    ensures ValidDate(ParseIso(s).value) && IsoDate(ParseIso(s).value) == s
  {
    PaddedOfNumber(s[0..4]);
    PaddedOfNumber(s[5..7]);
    PaddedOfNumber(s[8..10]);
    assert s == s[0..4] + "-" + s[5..7] + "-" + s[8..10];
  }

  /** The converse: the canonical spelling of any valid date, followed by anything (a time of
      day, a zone), is converted to that date's display form. */
  lemma ConvertIsoDate(d: Date, rest: string)
    requires ValidDate(d)
    ensures ConvertDate(Some(IsoDate(d) + rest)) == Some(DisplayDate(d))
  {
    var s := IsoDate(d) + rest;
    assert Prefix10(s) == IsoDate(d);
    var p := IsoDate(d);
    assert p[0..4] == Padded(d.year, 4);
    assert p[5..7] == Padded(d.month, 2);
    assert p[8..10] == Padded(d.day, 2);
    NumberOfPadded(d.year, 4);
    NumberOfPadded(d.month, 2);
    NumberOfPadded(d.day, 2);
  }

  /** The example of the citation format: 2021-05-01 is shown as May 01, 2021. */
  lemma ConvertDateExample()
    ensures ConvertDate(Some("2021-05-01")) == Some("May 01, 2021")
  {
    var d := Date(2021, 5, 1);
    ExampleSpellings();
    ConvertIsoDate(d, "");
    assert IsoDate(d) + "" == IsoDate(d);
  }

  lemma ExampleSpellings()
    ensures IsoDate(Date(2021, 5, 1)) == "2021-05-01"
    ensures DisplayDate(Date(2021, 5, 1)) == "May 01, 2021"
  {
    ExampleFields();
    assert MonthNames[4] == "May";
  }

  lemma ExampleFields()
    ensures Padded(2021, 4) == "2021" && Padded(5, 2) == "05" && Padded(1, 2) == "01"
  {
    assert Padded(2, 1) == "2";
    assert Padded(20, 2) == "20";
    assert Padded(202, 3) == "202";
    assert Padded(0, 1) == "0";
  }

  /** A date that is not on the calendar is rejected: 2021 is not a leap year. */
  lemma ConvertDateRejectsFebruary29()
    ensures ConvertDate(Some("2021-02-29")) == None
  {
    var s := "2021-02-29";
    assert Prefix10(s) == s;
    assert s[0..4] == "2021" && s[5..7] == "02" && s[8..10] == "29";
    February29Fields();
    assert !ValidDate(Date(2021, 2, 29));
  }

  lemma February29Fields()
    ensures AllDigits("2021") && AllDigits("02") && AllDigits("29")
    ensures Number("2021") == 2021 && Number("02") == 2 && Number("29") == 29
  {
    assert "2021"[..3] == "202" && "202"[..2] == "20" && "20"[..1] == "2";
    assert "02"[..1] == "0";
    assert "29"[..1] == "2";
  }
}
