/**
  Wall-clock readings and the two `strftime` renderings the pipeline uses:
  `%Y%m%d%H%M%S` (data-asset versions and the timestamp field of job display names) and
  `%Y-%m-%dT%H:%M:%SZ` (the Delta Lake time-travel timestamp).
 */
module DateTimes {
  import opened Text
  import opened Results

  /** A `datetime` reading at second resolution; no format used here prints anything finer. */
  datatype DateTime = DateTime(year: int, month: int, day: int, hour: int, minute: int, second: int)

  predicate IsLeapYear(y: int) {
    y % 4 == 0 && (y % 100 != 0 || y % 400 == 0)
  }

  function DaysInMonth(y: int, m: int): int
    requires 1 <= m <= 12
  {
    if m == 2 then (if IsLeapYear(y) then 29 else 28)
    else if m == 4 || m == 6 || m == 9 || m == 11 then 30
    else 31
  }

  /** The readings Python's `datetime` can hold (years 1 to 9999, proleptic Gregorian calendar). */
  predicate Valid(dt: DateTime) {
    && 1 <= dt.year <= 9999
    && 1 <= dt.month <= 12
    && 1 <= dt.day <= DaysInMonth(dt.year, dt.month)
    && 0 <= dt.hour < 24
    && 0 <= dt.minute < 60
    && 0 <= dt.second < 60
  }

  /** `dt.strftime("%Y%m%d%H%M%S")`, the year written with four digits. */
  function CompactStamp(dt: DateTime): (s: string)
    requires Valid(dt)
    ensures |s| == 14 && AllDigits(s)
  {
    Digits(dt.year, 4) + Digits(dt.month, 2) + Digits(dt.day, 2)
    + Digits(dt.hour, 2) + Digits(dt.minute, 2) + Digits(dt.second, 2)
  }

  /** `dt.strftime("%Y-%m-%dT%H:%M:%SZ")`, the year written with four digits. */
  function IsoStamp(dt: DateTime): (s: string)
    requires Valid(dt)
    ensures |s| == 20 && s[10] == 'T' && s[19] == 'Z'
    ensures s[4] == '-' && s[7] == '-' && s[13] == ':' && s[16] == ':'
  {
    Digits(dt.year, 4) + "-" + Digits(dt.month, 2) + "-" + Digits(dt.day, 2)
    + "T" + Digits(dt.hour, 2) + ":" + Digits(dt.minute, 2) + ":" + Digits(dt.second, 2) + "Z"
  }

  /** Reads a `%Y%m%d%H%M%S` string back; `None` when it is not one. */
  function ParseCompactStamp(s: string): Option<DateTime> {
    if |s| == 14 && AllDigits(s) then
      var dt := DateTime(ValueOf(s[0..4]), ValueOf(s[4..6]), ValueOf(s[6..8]),
                         ValueOf(s[8..10]), ValueOf(s[10..12]), ValueOf(s[12..14]));
      if Valid(dt) then Some(dt) else None
    else None
  }

  /** Chronological order of two readings. */
  predicate Before(a: DateTime, b: DateTime) {
    || a.year < b.year
    || (a.year == b.year && a.month < b.month)
    || (a.year == b.year && a.month == b.month && a.day < b.day)
    || (a.year == b.year && a.month == b.month && a.day == b.day && a.hour < b.hour)
    || (a.year == b.year && a.month == b.month && a.day == b.day && a.hour == b.hour
        && a.minute < b.minute)
    || (a.year == b.year && a.month == b.month && a.day == b.day && a.hour == b.hour
        && a.minute == b.minute && a.second < b.second)
  }

  /** The compact stamp identifies the reading: it parses back to it. */
  lemma CompactStampRoundTrip(dt: DateTime)
    requires Valid(dt)
    ensures ParseCompactStamp(CompactStamp(dt)) == Some(dt)
  {
    var s := CompactStamp(dt);
    assert Pow10(2) == 100 && Pow10(4) == 10000;
    assert s[0..4] == Digits(dt.year, 4);
    assert s[4..6] == Digits(dt.month, 2);
    assert s[6..8] == Digits(dt.day, 2);
    assert s[8..10] == Digits(dt.hour, 2);
    assert s[10..12] == Digits(dt.minute, 2);
    assert s[12..14] == Digits(dt.second, 2);
    DigitsRoundTrip(dt.year, 4);
    DigitsRoundTrip(dt.month, 2);
    DigitsRoundTrip(dt.day, 2);
    DigitsRoundTrip(dt.hour, 2);
    DigitsRoundTrip(dt.minute, 2);
    DigitsRoundTrip(dt.second, 2);
  }

  /** Deleting `-`, `T`, `:` and `Z` from the ISO rendering leaves the compact rendering. */
  lemma IsoStampWithoutSeparators(dt: DateTime)
    requires Valid(dt)
    ensures Without(IsoStamp(dt), {'-', 'T', ':', 'Z'}) == CompactStamp(dt)
  {
    SeparatorsDropped(IsoStamp(dt), CompactStamp(dt), Digits(dt.year, 4), Digits(dt.month, 2),
                      Digits(dt.day, 2), Digits(dt.hour, 2), Digits(dt.minute, 2), Digits(dt.second, 2));
  }

  /** The two renderings share their digit fields; the ISO one only adds separators around them. */
  lemma SeparatorsDropped(iso: string, compact: string, y: string, mo: string, d: string,
                          h: string, mi: string, s: string)
    requires AllDigits(y) && AllDigits(mo) && AllDigits(d) && AllDigits(h) && AllDigits(mi) && AllDigits(s)
    requires iso == y + "-" + mo + "-" + d + "T" + h + ":" + mi + ":" + s + "Z"
    requires compact == y + mo + d + h + mi + s
    ensures Without(iso, {'-', 'T', ':', 'Z'}) == compact
  {
    var drop := {'-', 'T', ':', 'Z'};
    WithoutKeepsDigits(y, drop);
    DropThenKeep(y, '-', mo, drop, y);
    DropThenKeep(y + "-" + mo, '-', d, drop, y + mo);
    DropThenKeep(y + "-" + mo + "-" + d, 'T', h, drop, y + mo + d);
    DropThenKeep(y + "-" + mo + "-" + d + "T" + h, ':', mi, drop, y + mo + d + h);
    DropThenKeep(y + "-" + mo + "-" + d + "T" + h + ":" + mi, ':', s, drop, y + mo + d + h + mi);
    var t := y + "-" + mo + "-" + d + "T" + h + ":" + mi + ":" + s;
    WithoutAppend(t, "Z", drop);
    assert Without("Z", drop) == "";
  }

  /** Appending a dropped separator and then a digit field adds just the field to what is kept. */
  lemma DropThenKeep(t: string, c: char, p: string, drop: set<char>, kept: string)
    requires Without(t, drop) == kept && c in drop && AllDigits(p)
    requires forall x | x in drop :: !IsDigit(x)
    ensures Without(t + [c] + p, drop) == kept + p
  {
    WithoutAppend(t, [c], drop);
    WithoutAppend(t + [c], p, drop);
    WithoutKeepsDigits(p, drop);
    assert Without([c], drop) == "";
  }

  // ---------------------------------------------------------------------------
  // the compact stamp sorts chronologically

  /** The number the compact stamp spells. */
  function Key(dt: DateTime): int {
    ((((dt.year * 100 + dt.month) * 100 + dt.day) * 100 + dt.hour) * 100 + dt.minute) * 100
    + dt.second
  }

  lemma {:induction false} ValueOfAppend(a: string, b: string)
    requires AllDigits(a) && AllDigits(b)
    ensures AllDigits(a + b)
    ensures ValueOf(a + b) == ValueOf(a) * Pow10(|b|) + ValueOf(b)
    decreases |b|
  {
    if |b| > 0 {
      var b' := b[..|b| - 1];
      assert (a + b)[..|a + b| - 1] == a + b';
      assert (a + b)[|a + b| - 1] == b[|b| - 1];
      assert b[..|b| - 1] == b';
      ValueOfAppend(a, b');
      var e := DigitValue(b[|b| - 1]);
      assert ValueOf(a + b) == 10 * ValueOf(a + b') + e;
      assert ValueOf(b) == 10 * ValueOf(b') + e;
      assert Pow10(|b|) == 10 * Pow10(|b'|);
      ShiftDigit(ValueOf(a), Pow10(|b'|), ValueOf(b'), e);
    } else {
      assert a + b == a;
    }
  }

  lemma AppendTwoDigits(a: string, n: nat)
    requires AllDigits(a) && n < 100
    ensures AllDigits(a + Digits(n, 2))
    ensures ValueOf(a + Digits(n, 2)) == ValueOf(a) * 100 + n
  {
    assert Pow10(2) == 100;
    DigitsRoundTrip(n, 2);
    ValueOfAppend(a, Digits(n, 2));
  }

  lemma CompactStampValue(dt: DateTime)
    requires Valid(dt)
    ensures ValueOf(CompactStamp(dt)) == Key(dt)
  {
    assert Pow10(4) == 10000;
    DigitsRoundTrip(dt.year, 4);
    var s0 := Digits(dt.year, 4);
    AppendTwoDigits(s0, dt.month);
    var s1 := s0 + Digits(dt.month, 2);
    AppendTwoDigits(s1, dt.day);
    var s2 := s1 + Digits(dt.day, 2);
    AppendTwoDigits(s2, dt.hour);
    var s3 := s2 + Digits(dt.hour, 2);
    AppendTwoDigits(s3, dt.minute);
    var s4 := s3 + Digits(dt.minute, 2);
    AppendTwoDigits(s4, dt.second);
  }

  /** Comparing `x` then a two-digit `u` is comparing `x * 100 + u`. */
  lemma MixedRadixLess(x: int, u: int, y: int, v: int)
    requires 0 <= u < 100 && 0 <= v < 100
    ensures x * 100 + u < y * 100 + v <==> x < y || (x == y && u < v)
  {
    if x < y {
      assert x * 100 + 100 <= y * 100;
    } else if y < x {
      assert y * 100 + 100 <= x * 100;
    }
  }

  lemma KeyOrder(a: DateTime, b: DateTime)
    requires Valid(a) && Valid(b)
    ensures Key(a) < Key(b) <==> Before(a, b)
  {
    var a1, b1 := a.year * 100 + a.month, b.year * 100 + b.month;
    var a2, b2 := a1 * 100 + a.day, b1 * 100 + b.day;
    var a3, b3 := a2 * 100 + a.hour, b2 * 100 + b.hour;
    var a4, b4 := a3 * 100 + a.minute, b3 * 100 + b.minute;
    MixedRadixLess(a.year, a.month, b.year, b.month);
    MixedRadixLess(a1, a.day, b1, b.day);
    MixedRadixLess(a2, a.hour, b2, b.hour);
    MixedRadixLess(a3, a.minute, b3, b.minute);
    MixedRadixLess(a4, a.second, b4, b.second);
    MixedRadixEqual(a.year, a.month, b.year, b.month);
    MixedRadixEqual(a1, a.day, b1, b.day);
    MixedRadixEqual(a2, a.hour, b2, b.hour);
    MixedRadixEqual(a3, a.minute, b3, b.minute);
  }

  lemma MixedRadixEqual(x: int, u: int, y: int, v: int)
    requires 0 <= u < 100 && 0 <= v < 100
    ensures x * 100 + u == y * 100 + v <==> x == y && u == v
  {
    MixedRadixLess(x, u, y, v);
    MixedRadixLess(y, v, x, u);
  }

  /**
    Python's string `<` on two compact stamps is chronological order, so the newest stamp
    of a group is the latest training time.
   */
  lemma CompactStampOrder(a: DateTime, b: DateTime)
    requires Valid(a) && Valid(b)
    ensures LexLess(CompactStamp(a), CompactStamp(b)) <==> Before(a, b)
  {
    LexLessIsNumericLess(CompactStamp(a), CompactStamp(b));
    CompactStampValue(a);
    CompactStampValue(b);
    KeyOrder(a, b);
  }
}
