/** Calendar dates. Parsing is left abstract: the `Calendar` value carries the
    library parsers the code calls (`datetime.fromisoformat`, `strptime` with
    "%d.%m.%Y" and "%Y-%m-%d") as partial functions onto valid dates. Formatting
    (`date.isoformat()`, `strftime`) is concrete. */
module Dates {
  import opened Json

  datatype CalDate = CalDate(year: int, month: int, day: int)

  predicate IsLeap(y: int) {
    y % 4 == 0 && (y % 100 != 0 || y % 400 == 0)
  }

  function DaysInMonth(y: int, m: int): int {
    if m == 2 then (if IsLeap(y) then 29 else 28)
    else if m == 4 || m == 6 || m == 9 || m == 11 then 30
    else 31
  }

  /** The range of Python's `date` type. */
  predicate ValidDate(d: CalDate) {
    1 <= d.year <= 9999 && 1 <= d.month <= 12 && 1 <= d.day <= DaysInMonth(d.year, d.month)
  }

  type Date = d: CalDate | ValidDate(d) witness CalDate(1, 1, 1)

  /** Python's `date.min`, 0001-01-01. */
  const MinDate: Date := CalDate(1, 1, 1)

  /** The chronological order, as an integer rank. */
  function Ord(d: Date): (r: int)
    ensures r >= Ord0()
  {
    d.year * 10000 + d.month * 100 + d.day
  }

  function Ord0(): int { 10101 }

  /** `a < b` on Python dates. */
  predicate Before(a: Date, b: Date) {
    Ord(a) < Ord(b)
  }

  /** Ranks identify dates, so comparing ranks is comparing dates. */
  lemma OrdInjective(a: Date, b: Date)
    requires Ord(a) == Ord(b)
    ensures a == b
  {
    assert a.year == Ord(a) / 10000 && b.year == Ord(b) / 10000;
    assert a.month == (Ord(a) % 10000) / 100 && b.month == (Ord(b) % 10000) / 100;
  }

  /** `date.min` is the earliest date. */
  lemma MinDateLeast(d: Date)
    ensures Ord(MinDate) <= Ord(d)
    ensures Ord(d) == Ord(MinDate) ==> d == MinDate
  {
    if Ord(d) == Ord(MinDate) {
      OrdInjective(d, MinDate);
    }
  }

  // ----------------------------------------------------------------
  // Formatting.
  // ----------------------------------------------------------------

  /** The last `width` decimal digits of `n`, zero-padded. */
  function Pad(n: nat, width: nat): (s: string)
    ensures |s| == width
    ensures forall i :: 0 <= i < |s| ==> '0' <= s[i] <= '9'
  {
    if width == 0 then "" else Pad(n / 10, width - 1) + [Digit(n % 10)]
  }

  function Pow10(k: nat): (r: nat)
    ensures r >= 1
  {
    if k == 0 then 1 else 10 * Pow10(k - 1)
  }

  /** The number a string of decimal digits spells. */
  function DigitsValue(s: string): nat
    requires forall i :: 0 <= i < |s| ==> '0' <= s[i] <= '9'
  {
    if s == [] then 0 else 10 * DigitsValue(s[..|s| - 1]) + (s[|s| - 1] as int - '0' as int)
  }

  lemma DigitValue(d: nat)
    requires d < 10
    ensures Digit(d) as int - '0' as int == d
  {
  }

  /** The decimal text of a number reads back as the number. */
  lemma {:induction false} DigitsOfNat(n: nat)
    ensures DigitsValue(NatToString(n)) == n
    decreases n
  {
    var s := NatToString(n);
    if n < 10 {
      DigitValue(n);
      assert s[..|s| - 1] == [];
    } else {
      DigitsOfNat(n / 10);
      DigitValue(n % 10);
      assert s[..|s| - 1] == NatToString(n / 10);
    }
  }

  /** Reading the padded digits back gives the number, when it fits the width. */
  lemma {:induction false} PadRoundTrip(n: nat, width: nat)
    requires n < Pow10(width)
    ensures DigitsValue(Pad(n, width)) == n
  {
    if width > 0 {
      PadRoundTrip(n / 10, width - 1);
      DigitValue(n % 10);
      var s := Pad(n, width);
      assert s[..|s| - 1] == Pad(n / 10, width - 1);
    }
  }

  /** `date.isoformat()` and `strftime("%Y-%m-%d")`: YYYY-MM-DD, the ISO 8601 extended
      calendar date format (section 5.2.1.1 of ISO 8601:2004). */
  function FormatIso(d: Date): (s: string)
    ensures |s| == 10 && s[4] == '-' && s[7] == '-'
  {
    Pad(d.year, 4) + "-" + Pad(d.month, 2) + "-" + Pad(d.day, 2)
  }

  /** `strftime("%d.%m.%Y")`: DD.MM.YYYY. */
  function FormatDmy(d: Date): (s: string)
    ensures |s| == 10 && s[2] == '.' && s[5] == '.'
  {
    Pad(d.day, 2) + "." + Pad(d.month, 2) + "." + Pad(d.year, 4)
  }

  /** The ISO rendering determines the date: its fields read back as year, month and day. */
  lemma IsoRoundTrip(d: Date)
    ensures DigitsValue(FormatIso(d)[0..4]) == d.year
    ensures DigitsValue(FormatIso(d)[5..7]) == d.month
    ensures DigitsValue(FormatIso(d)[8..10]) == d.day
  {
    var s := FormatIso(d);
    assert s[0..4] == Pad(d.year, 4) && s[5..7] == Pad(d.month, 2) && s[8..10] == Pad(d.day, 2);
    PadRoundTrip(d.year, 4);
    PadRoundTrip(d.month, 2);
    PadRoundTrip(d.day, 2);
  }

  /** The DD.MM.YYYY rendering determines the date as well. */
  lemma DmyRoundTrip(d: Date)
    ensures DigitsValue(FormatDmy(d)[0..2]) == d.day
    ensures DigitsValue(FormatDmy(d)[3..5]) == d.month
    ensures DigitsValue(FormatDmy(d)[6..10]) == d.year
  {
    var s := FormatDmy(d);
    assert s[0..2] == Pad(d.day, 2) && s[3..5] == Pad(d.month, 2) && s[6..10] == Pad(d.year, 4);
    PadRoundTrip(d.year, 4);
    PadRoundTrip(d.month, 2);
    PadRoundTrip(d.day, 2);
  }

  /** The library parsers, whose exact grammars are not modelled. */
  datatype Calendar = Calendar(
    fromIsoFormat: string -> Option<Date>,  // datetime.fromisoformat(v).date()
    strptimeDmy: string -> Option<Date>,    // datetime.strptime(v, "%d.%m.%Y").date()
    strptimeYmd: string -> Option<Date>     // datetime.strptime(v, "%Y-%m-%d").date()
  )
}
