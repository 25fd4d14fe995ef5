/** The date check of `setRequestedExecutionDate` (classes/DirectDebit.php):
    the string is cut at every '-' and its first three pieces, read as year,
    month and day, must name a day of the Gregorian calendar. */
module Calendar {

  import opened Wrappers
  import opened Decimal

  // ---------------------------------------------------------------------
  // explode
  // ---------------------------------------------------------------------

  /** `explode(sep, s)`: the pieces between separators, in order; the empty
      string gives one empty piece. */
  function Split(s: string, sep: char): (parts: seq<string>)
    ensures |parts| >= 1
  {
    if s == [] then [""]
    else
      var rest := Split(s[1..], sep);
      if s[0] == sep then [""] + rest else [[s[0]] + rest[0]] + rest[1..]
  }

  /** `implode(sep, parts)`. */
  function Join(parts: seq<string>, sep: char): string
    requires |parts| >= 1
  {
    if |parts| == 1 then parts[0] else parts[0] + [sep] + Join(parts[1..], sep)
  }

  /** Joining the pieces again gives back the string that was split. */
  lemma {:induction false} JoinSplit(s: string, sep: char)
    ensures Join(Split(s, sep), sep) == s
  {
    if s != [] {
      var rest := Split(s[1..], sep);
      JoinSplit(s[1..], sep);
      if s[0] == sep {
        assert ([""] + rest)[1..] == rest;
      } else {
        var parts := [[s[0]] + rest[0]] + rest[1..];
        if |rest| == 1 {
          assert parts == [[s[0]] + rest[0]];
        } else {
          assert parts[1..] == rest[1..];
          assert Join(rest, sep) == rest[0] + [sep] + Join(rest[1..], sep);
        }
      }
    }
  }

  /** A piece without separator, then a separator: the piece comes first and
      the rest is split on its own. */
  lemma {:induction false} SplitAtSeparator(a: string, b: string, sep: char)
    requires sep !in a
    ensures Split(a + [sep] + b, sep) == [a] + Split(b, sep)
  {
    var s := a + [sep] + b;
    if a == [] {
      assert s[0] == sep && s[1..] == b;
    } else {
      assert s[0] == a[0];
      assert s[1..] == a[1..] + [sep] + b;
      SplitAtSeparator(a[1..], b, sep);
      assert [a[0]] + a[1..] == a;
    }
  }

  /** A string without separator is one piece. */
  lemma {:induction false} SplitWithoutSeparator(a: string, sep: char)
    requires sep !in a
    ensures Split(a, sep) == [a]
  {
    if a != [] {
      SplitWithoutSeparator(a[1..], sep);
      assert [a[0]] + a[1..] == a;
    }
  }

  // ---------------------------------------------------------------------
  // checkdate
  // ---------------------------------------------------------------------

  predicate IsLeapYear(y: int) {
    y % 4 == 0 && (y % 100 != 0 || y % 400 == 0)
  }

  /** The length of a month of the Gregorian calendar. */
  function DaysInMonth(month: int, year: int): (d: nat)
    requires 1 <= month <= 12
    ensures 28 <= d <= 31
    ensures month == 2 ==> (d == 29 <==> IsLeapYear(year))
    ensures month != 2 ==> (d == 30 <==> month in {4, 6, 9, 11})
  {
    if month == 2 then (if IsLeapYear(year) then 29 else 28)
    else if month in {4, 6, 9, 11} then 30
    else 31
  }

  /** PHP's `checkdate(month, day, year)`. */
  predicate CheckDate(month: int, day: int, year: int) {
    1 <= month <= 12 && 1 <= day <= DaysInMonth(month, year) && 1 <= year <= 32767
  }

  /** The 29th of February passes exactly in leap years. */
  lemma LeapDay(year: int)
    requires 1 <= year <= 32767
    ensures CheckDate(2, 29, year) <==> IsLeapYear(year)
    ensures !CheckDate(2, 30, year) && !CheckDate(13, 1, year) && !CheckDate(0, 1, year)
  {
  }

  // ---------------------------------------------------------------------
  // the setter's check
  // ---------------------------------------------------------------------

  datatype Date = Date(year: nat, month: nat, day: nat)

  /** A piece PHP reads as a whole number: one or more decimal digits. */
  predicate IsNumber(piece: string) {
    piece != [] && IsDigits(piece)
  }

  /** The date the setter sees in `s`, if it accepts `s`: pieces 0, 1 and 2
      are the year, month and day; pieces after the third are ignored. */
  function ParseDate(s: string): (r: Option<Date>)
    ensures r.Some? ==> CheckDate(r.value.month, r.value.day, r.value.year)
    ensures r.Some? ==> |Split(s, '-')| >= 3 && IsDigits(Split(s, '-')[0])
    ensures r.Some? ==> r.value.year == Value(Split(s, '-')[0])
  {
    var parts := Split(s, '-');
    if |parts| >= 3 && IsNumber(parts[0]) && IsNumber(parts[1]) && IsNumber(parts[2]) then
      var date := Date(Value(parts[0]), Value(parts[1]), Value(parts[2]));
      if CheckDate(date.month, date.day, date.year) then Some(date) else None
    else None
  }

  /** `yyyy-mm-dd`, with leading zeros. */
  function FormatDate(d: Date): string {
    PadZero(NatToDecimal(d.year), 4) + "-" + PadZero(NatToDecimal(d.month), 2) + "-" + PadZero(NatToDecimal(d.day), 2)
  }

  lemma DigitsHaveNoDash(s: string)
    requires IsDigits(s)
    ensures '-' !in s
  {
  }

  /** The first three pieces of `y-m-d` followed by nothing or by more
      '-'-separated text. */
  lemma FirstPieces(y: string, m: string, d: string, tail: string)
    requires '-' !in y && '-' !in m && '-' !in d
    requires tail == [] || tail[0] == '-'
    ensures |Split(y + "-" + m + "-" + d + tail, '-')| >= 3
    ensures Split(y + "-" + m + "-" + d + tail, '-')[..3] == [y, m, d]
  {
    var rest := d + tail;
    if tail == [] {
      SplitWithoutSeparator(d, '-');
      assert rest == d;
    } else {
      assert rest == d + ['-'] + tail[1..];
      SplitAtSeparator(d, tail[1..], '-');
    }
    SplitAtSeparator(m, rest, '-');
    SplitAtSeparator(y, m + ['-'] + rest, '-');
    assert y + "-" + m + "-" + d + tail == y + ['-'] + (m + ['-'] + rest);
  }

  /** A date written as `yyyy-mm-dd`, alone or followed by more '-'-separated
      text, is accepted exactly when it is a day of the calendar, and is read
      back as that day. */
  lemma FormattedDate(d: Date, tail: string)
    requires tail == [] || tail[0] == '-'
    ensures ParseDate(FormatDate(d) + tail) ==
      if CheckDate(d.month, d.day, d.year) then Some(d) else None
  {
    var y := PadZero(NatToDecimal(d.year), 4);
    var m := PadZero(NatToDecimal(d.month), 2);
    var dd := PadZero(NatToDecimal(d.day), 2);
    PaddedValue(d.year, 4);
    PaddedValue(d.month, 2);
    PaddedValue(d.day, 2);
    DigitsHaveNoDash(y);
    DigitsHaveNoDash(m);
    DigitsHaveNoDash(dd);
    FirstPieces(y, m, dd, tail);
    var s := FormatDate(d) + tail;
    assert s == y + "-" + m + "-" + dd + tail;
    var parts := Split(s, '-');
    assert parts[0] == y && parts[1] == m && parts[2] == dd by {
      assert parts[..3][0] == parts[0] && parts[..3][1] == parts[1] && parts[..3][2] == parts[2];
    }
    ParseFromPieces(s, d);
  }

  lemma ParseFromPieces(s: string, d: Date)
    requires |Split(s, '-')| >= 3
    requires IsNumber(Split(s, '-')[0]) && Value(Split(s, '-')[0]) == d.year
    requires IsNumber(Split(s, '-')[1]) && Value(Split(s, '-')[1]) == d.month
    requires IsNumber(Split(s, '-')[2]) && Value(Split(s, '-')[2]) == d.day
    ensures ParseDate(s) == if CheckDate(d.month, d.day, d.year) then Some(d) else None
  {
  }

  /** The boundary cases of the check: the 29th of February in a leap
      year, in a common year, in a century year that is not a leap year and
      in one that is, and a thirteenth month, each written `yyyy-mm-dd`. */
  lemma DateExamples(d: Date)
    requires d in {Date(2020, 2, 29), Date(2021, 2, 29), Date(1900, 2, 29), Date(2000, 2, 29), Date(2021, 13, 1)}
    ensures ParseDate(FormatDate(d)).Some? <==> d in {Date(2020, 2, 29), Date(2000, 2, 29)}
  {
    assert CheckDate(d.month, d.day, d.year) <==> d in {Date(2020, 2, 29), Date(2000, 2, 29)};
    assert FormatDate(d) + [] == FormatDate(d);
    FormattedDate(d, []);
  }

  /** A string with fewer than three pieces is refused. */
  lemma TooFewPieces(s: string)
    requires |Split(s, '-')| < 3
    ensures ParseDate(s).None?
  {
  }
}
