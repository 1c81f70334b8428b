/**
 * Second-precision timestamps as the listing sees them (the `updated_at`
 * column), their chronological order, and PHP's `format('YmdHis')` with its
 * inverse on fourteen digits. Time zones are not represented.
 */
module Timestamps {
  import opened Text

  datatype DateTime = DateTime(year: nat, month: nat, day: nat, hour: nat, minute: nat, second: nat)

  /** A calendar timestamp: every field in its range (days are only bounded by 31). */
  predicate Valid(t: DateTime) {
    1 <= t.month <= 12 && 1 <= t.day <= 31 && t.hour < 24 && t.minute < 60 && t.second < 60
  }

  /** Chronological order: field by field, most significant first. */
  predicate Before(a: DateTime, b: DateTime) {
    if a.year != b.year then a.year < b.year
    else if a.month != b.month then a.month < b.month
    else if a.day != b.day then a.day < b.day
    else if a.hour != b.hour then a.hour < b.hour
    else if a.minute != b.minute then a.minute < b.minute
    else a.second < b.second
  }

  lemma BeforeTransitive(a: DateTime, b: DateTime, c: DateTime)
    requires Before(a, b) && Before(b, c)
    ensures Before(a, c)
  {
  }

  lemma BeforeTotal(a: DateTime, b: DateTime)
    ensures a == b || Before(a, b) || Before(b, a)
    ensures !(Before(a, b) && Before(b, a))
  {
  }

  function Pow10(w: nat): (p: nat)
    ensures p >= 1
  {
    if w == 0 then 1 else 10 * Pow10(w - 1)
  }

  /** The last `w` decimal digits of `n`, zero-padded on the left. */
  function FixedDigits(n: nat, w: nat): (s: string)
    ensures |s| == w && AllDigits(s)
  {
    if w == 0 then [] else FixedDigits(n / 10, w - 1) + [DigitChar(n % 10)]
  }

  /** A number below 10^w survives being written on `w` digits and read back. */
  lemma {:induction false} FixedDigitsRoundTrip(n: nat, w: nat)
    requires n < Pow10(w)
    ensures DecimalValue(FixedDigits(n, w)) == n
  {
    if w > 0 {
      var q, r := n / 10, n % 10;
      assert n == 10 * q + r;
      assert q < Pow10(w - 1);
      FixedDigitsRoundTrip(q, w - 1);
      var s := FixedDigits(n, w);
      assert s[..|s| - 1] == FixedDigits(q, w - 1);
      assert DigitValue(s[|s| - 1]) == r;
    }
  }

  /** PHP's `Y`: the year on at least four digits. */
  function YearDigits(year: nat): (s: string)
    ensures AllDigits(s)
    ensures |s| >= 4 && (|s| == 4 <==> year < 10000)
  {
    if year < 10000 then FixedDigits(year, 4)
    else
      var s := NatToDecimal(year);
      DecimalRoundTrip(year);
      LongDecimal(s);
      s
  }

  /** A digit string of at most four characters denotes less than 10000. */
  lemma {:induction false} LongDecimal(s: string)
    requires AllDigits(s)
    ensures |s| <= 4 ==> DecimalValue(s) < Pow10(|s|) <= 10000
  {
    if |s| > 0 {
      LongDecimal(s[..|s| - 1]);
    }
  }

  /** `format('YmdHis')`. */
  function FormatYmdHis(t: DateTime): (s: string)
    ensures AllDigits(s)
  {
    var y, mo, d := YearDigits(t.year), FixedDigits(t.month, 2), FixedDigits(t.day, 2);
    var h, mi, se := FixedDigits(t.hour, 2), FixedDigits(t.minute, 2), FixedDigits(t.second, 2);
    AllDigitsConcat(y, mo);
    AllDigitsConcat(y + mo, d);
    AllDigitsConcat(y + mo + d, h);
    AllDigitsConcat(y + mo + d + h, mi);
    AllDigitsConcat(y + mo + d + h + mi, se);
    y + mo + d + h + mi + se
  }

  /**
   * Reads fourteen digits `YYYYMMDDHHMMSS` field by field; this is the
   * timestamp the string `YYYY-MM-DD HH:MM:SS` that the key decoder builds
   * denotes.
   */
  function ParseYmdHis(s: string): DateTime
    requires |s| == 14 && AllDigits(s)
  {
    AllDigitsSlice(s, 0, 4); AllDigitsSlice(s, 4, 6); AllDigitsSlice(s, 6, 8);
    AllDigitsSlice(s, 8, 10); AllDigitsSlice(s, 10, 12); AllDigitsSlice(s, 12, 14);
    DateTime(DecimalValue(s[0..4]), DecimalValue(s[4..6]), DecimalValue(s[6..8]),
             DecimalValue(s[8..10]), DecimalValue(s[10..12]), DecimalValue(s[12..14]))
  }

  /** A valid timestamp before year 10000 formats to fourteen digits that read back to it. */
  lemma FormatParseRoundTrip(t: DateTime)
    requires Valid(t) && t.year < 10000
    ensures |FormatYmdHis(t)| == 14
    ensures ParseYmdHis(FormatYmdHis(t)) == t
  {
    var y, mo, d := FixedDigits(t.year, 4), FixedDigits(t.month, 2), FixedDigits(t.day, 2);
    var h, mi, se := FixedDigits(t.hour, 2), FixedDigits(t.minute, 2), FixedDigits(t.second, 2);
    var s := FormatYmdHis(t);
    assert s == y + mo + d + h + mi + se;
    assert s[0..4] == y && s[4..6] == mo && s[6..8] == d;
    assert s[8..10] == h && s[10..12] == mi && s[12..14] == se;
    FixedDigitsRoundTrip(t.year, 4);
    FixedDigitsRoundTrip(t.month, 2);
    FixedDigitsRoundTrip(t.day, 2);
    FixedDigitsRoundTrip(t.hour, 2);
    FixedDigitsRoundTrip(t.minute, 2);
    FixedDigitsRoundTrip(t.second, 2);
  }

  /** From year 10000 on, `YmdHis` writes more than fourteen digits. */
  lemma LongYearFormat(t: DateTime)
    requires Valid(t) && t.year >= 10000
    ensures |FormatYmdHis(t)| > 14
  {
  }
}
