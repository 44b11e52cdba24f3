/** JavaScript's `Date.prototype.toISOString` on an instant (milliseconds since the
    epoch, proleptic Gregorian calendar, UTC), which the sync service uses to write its
    fallback cursor. Calendar arithmetic follows the civil-from-days construction on
    400-year eras of 146097 days. */
module IsoTime {
  import opened Records

  /** The decimal digit for `0 <= v < 10`. */
  function DigitChar(v: int): char
    requires 0 <= v < 10
  {
    ('0' as int + v) as char
  }

  predicate IsDigit(c: char) {
    '0' <= c <= '9'
  }

  function Pow10(k: nat): (p: nat)
    ensures p >= 1
  {
    if k == 0 then 1 else 10 * Pow10(k - 1)
  }

  /** The last `width` decimal places of `n`, zero-padded on the left. */
  function Digits(n: nat, width: nat): (r: string)
    ensures |r| == width
    ensures forall i :: 0 <= i < width ==> IsDigit(r[i])
  {
    if width == 0 then [] else Digits(n / 10, width - 1) + [DigitChar(n % 10)]
  }

  /** The number a string of decimal digits denotes. */
  function DigitsValue(s: string): nat
    requires forall i :: 0 <= i < |s| ==> IsDigit(s[i])
  {
    if |s| == 0 then 0
    else
      assert IsDigit(s[|s| - 1]);
      10 * DigitsValue(s[..|s| - 1]) + (s[|s| - 1] as int - '0' as int)
  }

  /** Writing a number in `width` digits and reading it back gives the number, when it fits. */
  lemma {:induction false} DigitsRoundTrip(n: nat, width: nat)
    requires n < Pow10(width)
    ensures DigitsValue(Digits(n, width)) == n
    decreases width
  {
    if width > 0 {
      var r := Digits(n, width);
      assert r[..width - 1] == Digits(n / 10, width - 1);
      DigitsRoundTrip(n / 10, width - 1);
    }
  }

  /** The civil date (year, month 1..12, day 1..31) of day `z` counted from 1970-01-01. */
  function CivilFromDays(z: int): (ymd: (int, int, int)) {
    var z1 := z + 719468;
    var era := z1 / 146097;
    var doe := z1 - era * 146097;
    var yoe := (doe - doe / 1460 + doe / 36524 - doe / 146096) / 365;
    var doy := doe - (365 * yoe + yoe / 4 - yoe / 100);
    var mp := (5 * doy + 2) / 153;
    var d := doy - (153 * mp + 2) / 5 + 1;
    var m := if mp < 10 then mp + 3 else mp - 9;
    (yoe + era * 400 + (if m <= 2 then 1 else 0), m, d)
  }

  /** A character of a written date: a digit, a dash, or the sign of a six-digit year. */
  predicate IsDateChar(c: char) {
    IsDigit(c) || c == '-' || c == '+'
  }

  /** The year as `toISOString` writes it: four digits for years 0..9999, otherwise a
      sign and six digits. */
  function YearText(y: int): (r: string)
    ensures forall i :: 0 <= i < |r| ==> IsDateChar(r[i])
  {
    if 0 <= y <= 9999 then Digits(y, 4)
    else (if y < 0 then "-" else "+") + Digits(if y < 0 then -y else y, 6)
  }

  /** A field value that is negative only on inputs the calendar never produces. */
  function Nat(x: int): nat {
    if x < 0 then 0 else x
  }

  /** `YYYY-MM-DD` for day `days` counted from 1970-01-01. */
  function DateText(days: int): (r: string)
    ensures forall i :: 0 <= i < |r| ==> IsDateChar(r[i])
  {
    var ymd := CivilFromDays(days);
    YearText(ymd.0) + "-" + Digits(Nat(ymd.1), 2) + "-" + Digits(Nat(ymd.2), 2)
  }

  /** `HH:mm:ss` for second-of-day `sod`. */
  function TimeText(sod: int): (r: string)
    ensures forall i :: 0 <= i < |r| ==> r[i] != '.'
  {
    Digits(Nat(sod / 3600), 2) + ":" + Digits(Nat(sod % 3600 / 60), 2) + ":" + Digits(Nat(sod % 60), 2)
  }

  /** `YYYY-MM-DDTHH:mm:ss` for day `days` and second-of-day `sod`. */
  function DateTimeText(days: int, sod: int): (r: string)
    ensures forall i :: 0 <= i < |r| ==> r[i] != '.'
  {
    NoDotIn(DateText(days) + "T", TimeText(sod));
    DateText(days) + "T" + TimeText(sod)
  }

  lemma NoDotIn(a: string, b: string)
    requires forall i :: 0 <= i < |a| ==> a[i] != '.'
    requires forall i :: 0 <= i < |b| ==> b[i] != '.'
    ensures forall i :: 0 <= i < |a + b| ==> (a + b)[i] != '.'
  {
  }

  /** `YYYY-MM-DDTHH:mm:ss`: the date and the time of day of `t`, to the second. */
  function IsoDateTime(t: Instant): (r: string)
    ensures forall i :: 0 <= i < |r| ==> r[i] != '.'
  {
    DateTimeText(t / MsPerDay, t % MsPerDay / MsPerSecond)
  }

  /** `toISOString()`: `YYYY-MM-DDTHH:mm:ss.sssZ`. */
  function ToIsoString(t: Instant): string {
    IsoDateTime(t) + "." + Digits(t % MsPerSecond, 3) + "Z"
  }

  /** `t.toISOString().split('T')[0]`: the UTC calendar date of `t`, whatever the time
      zone the instant was computed in. */
  function IsoDate(t: Instant): (r: string)
    ensures r == DateText(t / MsPerDay)
  {
    var rest := "T" + TimeText(t % MsPerDay / MsPerSecond) + "." + Digits(t % MsPerSecond, 3) + "Z";
    assert ToIsoString(t) == DateText(t / MsPerDay) + rest;
    BeforeFirst(DateText(t / MsPerDay), rest, 'T');
    Before(ToIsoString(t), 'T')
  }

  /** `s.split(c)[0]`: the part of `s` before the first `c`, or all of `s`. */
  function Before(s: string, c: char): (r: string)
    ensures |r| <= |s| && r == s[..|r|]
    ensures forall i :: 0 <= i < |r| ==> r[i] != c
    ensures |r| < |s| ==> s[|r|] == c
  {
    if |s| == 0 || s[0] == c then [] else [s[0]] + Before(s[1..], c)
  }

  /** `Before` stops at the first `c`. */
  lemma {:induction false} BeforeFirst(a: string, b: string, c: char)
    requires forall i :: 0 <= i < |a| ==> a[i] != c
    requires |b| > 0 && b[0] == c
    ensures Before(a + b, c) == a
    decreases |a|
  {
    if |a| > 0 {
      assert (a + b)[1..] == a[1..] + b;
      BeforeFirst(a[1..], b, c);
    } else {
      assert a + b == b;
    }
  }

  /** `t.toISOString().split('.')[0] + 'Z'`: the ISO text with the milliseconds cut off. */
  function IsoSeconds(t: Instant): (r: string)
    ensures r == IsoDateTime(t) + "Z"
  {
    BeforeFirst(IsoDateTime(t), "." + Digits(t % MsPerSecond, 3) + "Z", '.');
    assert ToIsoString(t) == IsoDateTime(t) + ("." + Digits(t % MsPerSecond, 3) + "Z");
    Before(ToIsoString(t), '.') + "Z"
  }

  /** Cutting the milliseconds off an instant leaves its ISO text to the second unchanged. */
  lemma WholeSecondSameText(t: Instant)
    ensures IsoDateTime(t - t % MsPerSecond) == IsoDateTime(t)
  {
    DivWholeSecond(t);
  }

  lemma DivWholeSecond(t: int)
    ensures (t - t % 1000) / 86400000 == t / 86400000
    ensures (t - t % 1000) % 86400000 / 1000 == t % 86400000 / 1000
  {
    var q := t / 86400000;
    var r := t % 86400000;
    assert t == q * 86400000 + r;
    assert t % 1000 == r % 1000;
    assert t - t % 1000 == q * 86400000 + (r - r % 1000);
    assert (r - r % 1000) / 1000 == r / 1000;
  }

  /** The instant 1771286400000 is written 2026-02-17T00:00:00Z. */
  lemma Feb17Text()
    ensures IsoSeconds(1771286400000) == "2026-02-17T00:00:00Z"
  {
    assert 1771286400000 / 86400000 == 20501;
    assert 1771286400000 % 86400000 / 1000 == 0;
    Feb17DateTime();
  }

  /** Day 20501 at second 0 is written 2026-02-17T00:00:00. */
  lemma Feb17DateTime()
    ensures DateTimeText(20501, 0) == "2026-02-17T00:00:00"
  {
    Feb17Date();
    Feb17Digits();
    assert YearText(2026) == "2026";
  }

  lemma Feb17Digits()
    ensures Digits(2026, 4) == "2026"
    ensures Digits(2, 2) == "02"
    ensures Digits(17, 2) == "17"
    ensures Digits(0, 2) == "00"
  {
    assert Digits(2026, 4) == "2026";
    assert Digits(2, 2) == "02";
    assert Digits(17, 2) == "17";
    assert Digits(0, 2) == "00";
  }

  /** Day 20500 after the epoch is 2026-02-16. */
  lemma Feb16Date()
    ensures CivilFromDays(20500) == (2026, 2, 16)
  {
    var z1 := 20500 + 719468;
    assert z1 / 146097 == 5;
    var doe := z1 - 5 * 146097;
    assert doe == 9483;
    assert doe / 1460 == 6 && doe / 36524 == 0 && doe / 146096 == 0;
    assert (doe - 6) / 365 == 25;
    var doy := doe - (365 * 25 + 25 / 4 - 25 / 100);
    assert doy == 352;
    assert (5 * doy + 2) / 153 == 11;
    assert (153 * 11 + 2) / 5 == 337;
  }

  /** Midnight of 2026-02-17 in UTC+5:30 is 2026-02-16T18:30Z, so its ISO date is the
      day before. */
  lemma IstMidnightIsoDate()
    ensures IsoDate(1771286400000 - 19800000) == "2026-02-16"
  {
    assert (1771286400000 - 19800000) / MsPerDay == 20500;
    Feb16Text();
  }

  lemma Feb16Text()
    ensures DateText(20500) == "2026-02-16"
  {
    Feb16Date();
    Feb17Digits();
    assert Digits(16, 2) == "16";
    assert YearText(2026) == "2026";
  }

  /** Day 20501 after the epoch is 2026-02-17. */
  lemma Feb17Date()
    ensures CivilFromDays(20501) == (2026, 2, 17)
  {
    var z1 := 20501 + 719468;
    assert z1 / 146097 == 5;
    var doe := z1 - 5 * 146097;
    assert doe == 9484;
    assert doe / 1460 == 6 && doe / 36524 == 0 && doe / 146096 == 0;
    assert (doe - 6) / 365 == 25;
    var doy := doe - (365 * 25 + 25 / 4 - 25 / 100);
    assert doy == 353;
    assert (5 * doy + 2) / 153 == 11;
    assert (153 * 11 + 2) / 5 == 337;
  }

  /** Cutting the milliseconds off gives a whole second no later than `t`, within a second. */
  lemma WholeSecondBounds(t: int)
    ensures (t - t % 1000) % 1000 == 0
    ensures t - t % 1000 <= t < t - t % 1000 + 1000
  {
    var q := t / 1000;
    assert t - t % 1000 == q * 1000;
  }
}
