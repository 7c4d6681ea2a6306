/**
 * Python's `datetime` values and the two `strftime` formats the builders use:
 * `%Y-%m-%d` for a url's `lastmod` and `%Y-%m-%dT%H:%M:%SZ` for an index
 * entry's `lastmod`. Each format has a parser beside it that reads it back.
 */
module TimeFormat {
  import opened Wrappers

  /** The fields of a `datetime` that the formats print. */
  datatype Moment = Moment(year: int, month: int, day: int, hour: int, minute: int, second: int)

  /** A calendar date, as `%Y-%m-%d` prints it. */
  datatype Date = Date(year: int, month: int, day: int)

  predicate IsLeapYear(y: int) {
    y % 4 == 0 && (y % 100 != 0 || y % 400 == 0)
  }

  function DaysInMonth(y: int, m: int): (d: int)
    requires 1 <= m <= 12
    ensures 28 <= d <= 31
  {
    if m == 2 then (if IsLeapYear(y) then 29 else 28)
    else if m == 4 || m == 6 || m == 9 || m == 11 then 30
    else 31
  }

  /** The ranges `datetime` enforces on construction. */
  predicate ValidMoment(t: Moment) {
    1 <= t.year <= 9999 && 1 <= t.month <= 12 && 1 <= t.day <= DaysInMonth(t.year, t.month) &&
    0 <= t.hour < 24 && 0 <= t.minute < 60 && 0 <= t.second < 60
  }

  type DateTime = t: Moment | ValidMoment(t) witness Moment(1, 1, 1, 0, 0, 0)

  function Pow10(n: nat): nat {
    if n == 0 then 1 else 10 * Pow10(n - 1)
  }

  predicate IsDigit(c: char) {
    '0' <= c <= '9'
  }

  function DigitChar(d: nat): (c: char)
    requires d < 10
    ensures IsDigit(c) && c as int - '0' as int == d
  {
    ('0' as int + d) as char
  }

  /** `n` printed in decimal, zero-padded to `width` digits (the last `width` digits when it is longer). */
  function Pad(n: nat, width: nat): (s: string)
    ensures |s| == width
    ensures forall i :: 0 <= i < |s| ==> IsDigit(s[i])
  {
    if width == 0 then "" else Pad(n / 10, width - 1) + [DigitChar(n % 10)]
  }

  /** The number a string of decimal digits denotes. */
  function ParseDigits(s: string): int {
    if s == [] then 0 else 10 * ParseDigits(s[..|s| - 1]) + (s[|s| - 1] as int - '0' as int)
  }

  lemma {:induction false} PadRoundTrip(n: nat, width: nat)
    requires n < Pow10(width)
    ensures ParseDigits(Pad(n, width)) == n
  {
    if width > 0 {
      var s := Pad(n / 10, width - 1);
      assert Pad(n, width) == s + [DigitChar(n % 10)];
      assert (s + [DigitChar(n % 10)])[..|s|] == s;
      PadRoundTrip(n / 10, width - 1);
    }
  }

  /** `strftime("%Y-%m-%d")`. */
  function FormatDate(t: DateTime): (s: string)
    ensures |s| == 10 && s[4] == '-' && s[7] == '-'
    ensures forall i :: 0 <= i < 10 && i != 4 && i != 7 ==> IsDigit(s[i])
  {
    Pad(t.year, 4) + "-" + Pad(t.month, 2) + "-" + Pad(t.day, 2)
  }

  /** `strftime("%Y-%m-%dT%H:%M:%SZ")`; the `Z` is a literal, no time zone conversion happens. */
  function FormatTimestamp(t: DateTime): (s: string)
    ensures |s| == 20 && s[..10] == FormatDate(t)
    ensures s[10] == 'T' && s[13] == ':' && s[16] == ':' && s[19] == 'Z'
    ensures forall i :: 11 <= i < 19 && i != 13 && i != 16 ==> IsDigit(s[i])
  {
    FormatDate(t) + "T" + Pad(t.hour, 2) + ":" + Pad(t.minute, 2) + ":" + Pad(t.second, 2) + "Z"
  }

  predicate DigitsIn(s: string, lo: nat, hi: nat)
    requires lo <= hi <= |s|
  {
    forall i :: lo <= i < hi ==> IsDigit(s[i])
  }

  /** Reads a `%Y-%m-%d` string back; `None` when the string does not have that shape. */
  function ParseDate(s: string): Option<Date> {
    if |s| == 10 && DigitsIn(s, 0, 4) && s[4] == '-' && DigitsIn(s, 5, 7) && s[7] == '-' && DigitsIn(s, 8, 10)
    then Some(Date(ParseDigits(s[0..4]), ParseDigits(s[5..7]), ParseDigits(s[8..10])))
    else None
  }

  /** Reads a `%Y-%m-%dT%H:%M:%SZ` string back; `None` when the string does not have that shape. */
  function ParseTimestamp(s: string): Option<Moment> {
    if |s| == 20 && s[10] == 'T' && DigitsIn(s, 11, 13) && s[13] == ':' && DigitsIn(s, 14, 16) &&
       s[16] == ':' && DigitsIn(s, 17, 19) && s[19] == 'Z'
    then
      match ParseDate(s[..10])
      case Some(d) => Some(Moment(d.year, d.month, d.day,
                                  ParseDigits(s[11..13]), ParseDigits(s[14..16]), ParseDigits(s[17..19])))
      case None => None
    else None
  }

  /** The date format loses only the time of day. */
  lemma DateRoundTrip(t: DateTime)
    ensures ParseDate(FormatDate(t)) == Some(Date(t.year, t.month, t.day))
  {
    var y, m, d := Pad(t.year, 4), Pad(t.month, 2), Pad(t.day, 2);
    var s := FormatDate(t);
    assert s == y + "-" + m + "-" + d;
    assert s[0..4] == y && s[5..7] == m && s[8..10] == d;
    PadRoundTrip(t.year, 4);
    PadRoundTrip(t.month, 2);
    PadRoundTrip(t.day, 2);
  }

  /** The timestamp format keeps every field it prints. */
  lemma TimestampRoundTrip(t: DateTime)
    ensures ParseTimestamp(FormatTimestamp(t)) == Some(t)
  {
    var h, mi, se := Pad(t.hour, 2), Pad(t.minute, 2), Pad(t.second, 2);
    var s := FormatTimestamp(t);
    assert s == FormatDate(t) + "T" + h + ":" + mi + ":" + se + "Z";
    assert s[11..13] == h && s[14..16] == mi && s[17..19] == se;
    DateRoundTrip(t);
    PadRoundTrip(t.hour, 2);
    PadRoundTrip(t.minute, 2);
    PadRoundTrip(t.second, 2);
  }

  /** Two index entries stamped at different moments never carry the same `lastmod` text. */
  lemma TimestampInjective(a: DateTime, b: DateTime)
    requires FormatTimestamp(a) == FormatTimestamp(b)
    ensures a == b
  {
    TimestampRoundTrip(a);
    TimestampRoundTrip(b);
  }
}
