/**
  Dates as the eight-digit `YYYYMMDD` text of `strftime('%Y%m%d')`, and the
  reverse reading of `pd.to_datetime(text, format='%Y%m%d')`.
 */
module DateText {
  import opened Wrappers
  import opened Calendar

  predicate IsDigit(c: char) {
    '0' <= c <= '9'
  }

  predicate AllDigits(s: string) {
    forall i :: 0 <= i < |s| ==> IsDigit(s[i])
  }

  function DigitChar(k: int): (c: char)
    requires 0 <= k <= 9
    ensures IsDigit(c) && DigitValue(c) == k
  {
    (48 + k) as char
  }

  function DigitValue(c: char): int {
    c as int - 48
  }

  /** A zero-padded field of two digits. */
  function Pad2(v: int): (s: string)
    requires 0 <= v <= 99
    ensures |s| == 2 && AllDigits(s) && 10 * DigitValue(s[0]) + DigitValue(s[1]) == v
  {
    [DigitChar(v / 10), DigitChar(v % 10)]
  }

  /** A zero-padded field of four digits. */
  function Pad4(v: int): (s: string)
    requires 0 <= v <= 9999
    ensures |s| == 4 && AllDigits(s)
    ensures 1000 * DigitValue(s[0]) + 100 * DigitValue(s[1]) + 10 * DigitValue(s[2]) + DigitValue(s[3]) == v
  {
    var hundreds := v % 1000;
    var tens := hundreds % 100;
    [DigitChar(v / 1000), DigitChar(hundreds / 100), DigitChar(tens / 10), DigitChar(tens % 10)]
  }

  /** `%Y%m%d`; `%Y` gives four digits for the years 1000 to 9999, which include every pandas timestamp. */
  function Yyyymmdd(d: Date): (s: string)
    requires ValidDate(d) && 1000 <= d.year <= 9999
    ensures |s| == 8 && AllDigits(s)
  {
    Pad4(d.year) + Pad2(d.month) + Pad2(d.day)
  }

  /** Reads `%Y%m%d`: eight digits naming a real calendar date inside the pandas timestamp range. */
  function ParseYyyymmdd(s: string): (r: Option<Date>)
    ensures r.Some? ==> |s| == 8 && ValidDate(r.value) && InTimestampRange(DayOf(r.value))
  {
    if |s| == 8 && AllDigits(s) then
      var year := 1000 * DigitValue(s[0]) + 100 * DigitValue(s[1]) + 10 * DigitValue(s[2]) + DigitValue(s[3]);
      var month := 10 * DigitValue(s[4]) + DigitValue(s[5]);
      var day := 10 * DigitValue(s[6]) + DigitValue(s[7]);
      var d := Date(year, month, day);
      if ValidDate(d) && InTimestampRange(DayOf(d)) then Some(d) else None
    else None
  }

  /** Formatting a timestamp's date and reading it back gives the same date. */
  lemma ParseFormatted(d: Date)
    requires ValidDate(d) && InTimestampRange(DayOf(d))
    ensures 1000 <= d.year <= 9999 && ParseYyyymmdd(Yyyymmdd(d)) == Some(d)
  {
    var s := Yyyymmdd(d);
    assert s[..4] == Pad4(d.year) && s[4..6] == Pad2(d.month) && s[6..] == Pad2(d.day);
    assert s[0] == Pad4(d.year)[0] && s[1] == Pad4(d.year)[1] && s[2] == Pad4(d.year)[2] && s[3] == Pad4(d.year)[3];
    assert s[4] == Pad2(d.month)[0] && s[5] == Pad2(d.month)[1];
    assert s[6] == Pad2(d.day)[0] && s[7] == Pad2(d.day)[1];
  }

  lemma DigitCharValue(c: char)
    requires IsDigit(c)
    ensures 0 <= DigitValue(c) <= 9 && DigitChar(DigitValue(c)) == c
  {
  }

  /** Any text that reads as a date is exactly that date's formatting: the reading is one-to-one. */
  lemma FormatParsed(s: string)
    requires ParseYyyymmdd(s).Some?
    ensures var d := ParseYyyymmdd(s).value; 1000 <= d.year <= 9999 && Yyyymmdd(d) == s
  {
    var d := ParseYyyymmdd(s).value;
    var v := seq(8, i requires 0 <= i < 8 => DigitValue(s[i]));
    forall i | 0 <= i < 8 ensures 0 <= v[i] <= 9 && DigitChar(v[i]) == s[i] {
      DigitCharValue(s[i]);
    }
    var f := Yyyymmdd(d);
    assert d.year / 1000 == v[0] && d.year % 1000 / 100 == v[1];
    assert d.year % 1000 % 100 / 10 == v[2] && d.year % 1000 % 100 % 10 == v[3];
    assert d.month / 10 == v[4] && d.month % 10 == v[5];
    assert d.day / 10 == v[6] && d.day % 10 == v[7];
    assert f == [DigitChar(v[0]), DigitChar(v[1]), DigitChar(v[2]), DigitChar(v[3]),
                 DigitChar(v[4]), DigitChar(v[5]), DigitChar(v[6]), DigitChar(v[7])];
  }

  /** `%Y%m%d` of a day of the timestamp range. */
  function DayText(d: Day): (s: string)
    requires InTimestampRange(d)
    ensures |s| == 8 && AllDigits(s)
  {
    Yyyymmdd(DateOf(d))
  }

  /** Reading a day's text back gives the day's date. */
  lemma DayTextParses(d: Day)
    requires InTimestampRange(d)
    ensures ParseYyyymmdd(DayText(d)) == Some(DateOf(d))
  {
    DayDateRoundTrip(d);
    ParseFormatted(DateOf(d));
  }

  lemma DigitsHaveNoSeparators(s: string)
    requires AllDigits(s)
    ensures '.' !in s && '_' !in s && '/' !in s
  {
  }
}
