/**
 * Timestamps (Python `datetime`, as supplied by the time service) and the
 * `strftime` patterns the core uses: `%Y-%m-%d`, `%H:%M` and
 * `%Y-%m-%d_%H-%M-%S`, all zero padded.
 */
module Time {
  import opened Optional

  type Year = y: int | 1 <= y <= 9999 witness 1
  type Month = m: int | 1 <= m <= 12 witness 1
  type Day = d: int | 1 <= d <= 31 witness 1
  type Hour = h: int | 0 <= h < 24
  type Minute = m: int | 0 <= m < 60
  type Second = s: int | 0 <= s < 60

  /** A wall-clock instant; the time zone is fixed by the time service and is not modelled. */
  datatype Timestamp = Timestamp(year: Year, month: Month, day: Day, hour: Hour, minute: Minute, second: Second)

  predicate IsDigit(c: char) { '0' <= c <= '9' }

  function Digit(n: int): (c: char)
    requires 0 <= n < 10
    ensures IsDigit(c) && DigitValue(c) == n
  {
    ('0' as int + n) as char
  }

  function DigitValue(c: char): int { c as int - '0' as int }

  predicate AllDigits(s: string) { forall i :: 0 <= i < |s| ==> IsDigit(s[i]) }

  /** `%02d`-style padding to two digits. */
  function Pad2(n: int): (r: string)
    requires 0 <= n < 100
    ensures |r| == 2 && AllDigits(r)
  {
    [Digit(n / 10), Digit(n % 10)]
  }

  /** Four-digit zero padding, as `%Y` prints years. */
  function Pad4(n: int): (r: string)
    requires 0 <= n < 10000
    ensures |r| == 4 && AllDigits(r)
  {
    [Digit(n / 1000), Digit(n / 100 % 10), Digit(n / 10 % 10), Digit(n % 10)]
  }

  function Unpad2(s: string): int
    requires |s| == 2
  {
    10 * DigitValue(s[0]) + DigitValue(s[1])
  }

  function Unpad4(s: string): int
    requires |s| == 4
  {
    1000 * DigitValue(s[0]) + 100 * DigitValue(s[1]) + 10 * DigitValue(s[2]) + DigitValue(s[3])
  }

  lemma Pad2RoundTrip(n: int)
    requires 0 <= n < 100
    ensures Unpad2(Pad2(n)) == n
  {
    assert 10 * (n / 10) + n % 10 == n;
  }

  lemma Pad4RoundTrip(n: int)
    requires 0 <= n < 10000
    ensures Unpad4(Pad4(n)) == n
  {
    assert n / 100 % 10 == (n / 10) / 10 % 10;
    assert 1000 * (n / 1000) + 100 * (n / 100 % 10) + 10 * (n / 10 % 10) + n % 10 == n;
  }

  /** `strftime("%Y-%m-%d")`. */
  function DateText(t: Timestamp): (r: string)
    ensures |r| == 10 && r[4] == '-' && r[7] == '-'
  {
    Pad4(t.year) + "-" + Pad2(t.month) + "-" + Pad2(t.day)
  }

  /** `strftime("%H:%M")`: hours and minutes, no seconds. */
  function TimeText(t: Timestamp): (r: string)
    ensures |r| == 5 && r[2] == ':'
  {
    Pad2(t.hour) + ":" + Pad2(t.minute)
  }

  /** `strftime("%Y-%m-%d_%H-%M-%S")`. */
  function StampSlug(t: Timestamp): (r: string)
    ensures |r| == 19 && r[..10] == DateText(t) && r[10] == '_' && r[13] == '-' && r[16] == '-'
  {
    DateText(t) + "_" + Pad2(t.hour) + "-" + Pad2(t.minute) + "-" + Pad2(t.second)
  }

  /**
   * The inverse of StampSlug: reads a 19-character `YYYY-MM-DD_HH-MM-SS`
   * back, rejecting anything out of shape or out of range.
   */
  function ParseSlug(s: string): Option<Timestamp>
  {
    if |s| != 19 || s[4] != '-' || s[7] != '-' || s[10] != '_' || s[13] != '-' || s[16] != '-' then None
    else if !(AllDigits(s[0..4]) && AllDigits(s[5..7]) && AllDigits(s[8..10])
              && AllDigits(s[11..13]) && AllDigits(s[14..16]) && AllDigits(s[17..19])) then None
    else
      var y, mo, d := Unpad4(s[0..4]), Unpad2(s[5..7]), Unpad2(s[8..10]);
      var h, mi, se := Unpad2(s[11..13]), Unpad2(s[14..16]), Unpad2(s[17..19]);
      if 1 <= y <= 9999 && 1 <= mo <= 12 && 1 <= d <= 31 && h < 24 && mi < 60 && se < 60
      then Some(Timestamp(y, mo, d, h, mi, se))
      else None
  }

  lemma {:induction false} SlugRoundTrip(t: Timestamp)
    ensures ParseSlug(StampSlug(t)) == Some(t)
  {
    var s := StampSlug(t);
    assert s[0..4] == Pad4(t.year);
    assert s[5..7] == Pad2(t.month);
    assert s[8..10] == Pad2(t.day);
    assert s[11..13] == Pad2(t.hour);
    assert s[14..16] == Pad2(t.minute);
    assert s[17..19] == Pad2(t.second);
    Pad4RoundTrip(t.year);
    Pad2RoundTrip(t.month);
    Pad2RoundTrip(t.day);
    Pad2RoundTrip(t.hour);
    Pad2RoundTrip(t.minute);
    Pad2RoundTrip(t.second);
  }

  /** Distinct instants give distinct slugs. */
  lemma SlugInjective(t1: Timestamp, t2: Timestamp)
    requires StampSlug(t1) == StampSlug(t2)
    ensures t1 == t2
  {
    SlugRoundTrip(t1);
    SlugRoundTrip(t2);
  }
}
