/**
 * The display helpers of utils.py: `format_duration` (a video length in
 * seconds as a clock string) and `format_view` (a view count, banded with a
 * K / M / B suffix).
 */
module Formatting {
  import opened Wrappers
  import opened Decimal
  import Strings

  // ---- format_duration ----------------------------------------------------

  /**
   * `format_duration(seconds)`: `divmod` by 3600 and then by 60 (Python's
   * floor division, which for a positive divisor is Dafny's `/` and `%`),
   * rendered "HH:MM:SS" when the hour count is positive and "MM:SS" otherwise,
   * every field padded to two digits.
   */
  function FormatDuration(seconds: int): (r: string)
    ensures seconds < 3600 ==> |r| == 5 && r[2] == ':'
    ensures seconds >= 3600 ==> |r| >= 8 && r[|r| - 6] == ':' && r[|r| - 3] == ':'
  {
    var hours, remainder := seconds / 3600, seconds % 3600;
    var minutes, secs := remainder / 60, remainder % 60;
    if hours > 0 then Pad2(hours) + ":" + Pad2(minutes) + ":" + Pad2(secs)
    else Pad2(minutes) + ":" + Pad2(secs)
  }

  /** The fields of a clock string, as a reader of the display would take them. */
  datatype Clock = Clock(hours: nat, minutes: nat, seconds: nat)

  function TotalSeconds(c: Clock): nat {
    c.hours * 3600 + c.minutes * 60 + c.seconds
  }

  predicate IsNumeral(s: string) { |s| > 0 && AllDigits(s) }

  /** Reads "H..H:MM:SS" or "MM:SS" (fields of decimal digits split on ':') back into a clock. */
  function ReadClock(s: string): Option<Clock> {
    var f := Strings.SplitAll(s, ':');
    if |f| == 2 && IsNumeral(f[0]) && IsNumeral(f[1]) then
      Some(Clock(0, Value(f[0]), Value(f[1])))
    else if |f| == 3 && IsNumeral(f[0]) && IsNumeral(f[1]) && IsNumeral(f[2]) then
      Some(Clock(Value(f[0]), Value(f[1]), Value(f[2])))
    else None
  }

  lemma NoColonInDigits(s: string)
    requires AllDigits(s)
    ensures ':' !in s
  {
  }

  lemma {:induction false} ReadTwoFields(a: string, b: string)
    requires IsNumeral(a) && IsNumeral(b)
    ensures ReadClock(a + ":" + b) == Some(Clock(0, Value(a), Value(b)))
  {
    NoColonInDigits(a);
    NoColonInDigits(b);
    Strings.SplitAllJoin(a, ':', b);
    Strings.SplitAllWithout(b, ':');
  }

  lemma {:induction false} ReadThreeFields(a: string, b: string, c: string)
    requires IsNumeral(a) && IsNumeral(b) && IsNumeral(c)
    ensures ReadClock(a + ":" + b + ":" + c) == Some(Clock(Value(a), Value(b), Value(c)))
  {
    NoColonInDigits(a);
    NoColonInDigits(b);
    NoColonInDigits(c);
    assert a + ":" + b + ":" + c == a + [':'] + (b + [':'] + c);
    Strings.SplitAllJoin(a, ':', b + [':'] + c);
    Strings.SplitAllJoin(b, ':', c);
    Strings.SplitAllWithout(c, ':');
  }

  /**
   * Reading the fields of `format_duration(seconds)` back gives the hour count
   * (zero when the hour field is omitted), minutes and seconds, each of the
   * last two in 0..59; for a non-negative input they add up to the input again.
   * A negative input lands in the "MM:SS" branch and shows `seconds mod 3600`.
   */
  lemma {:induction false} DurationRoundTrip(seconds: int)
    ensures var c := ReadClock(FormatDuration(seconds));
      && c.Some?
      && c.value == ClockOf(seconds)
      && c.value.minutes < 60 && c.value.seconds < 60
      && (seconds >= 0 ==> TotalSeconds(c.value) == seconds)
      && (seconds < 0 ==> TotalSeconds(c.value) == seconds % 3600)
  {
    if seconds >= 3600 {
      ReadLongDuration(seconds);
    } else {
      ReadShortDuration(seconds);
    }
    ClockTotal(seconds);
  }

  lemma ReadLongDuration(seconds: int)
    requires seconds >= 3600
    ensures ReadClock(FormatDuration(seconds)) == Some(Clock(seconds / 3600, seconds % 3600 / 60, seconds % 60))
  {
    LongText(seconds);
    SecondsField(seconds);
    ReadThreeFields(Pad2(seconds / 3600), Pad2(seconds % 3600 / 60), Pad2(seconds % 3600 % 60));
  }

  lemma ReadShortDuration(seconds: int)
    requires seconds < 3600
    ensures ReadClock(FormatDuration(seconds)) == Some(Clock(0, seconds % 3600 / 60, seconds % 60))
  {
    ShortText(seconds);
    SecondsField(seconds);
    ReadTwoFields(Pad2(seconds % 3600 / 60), Pad2(seconds % 3600 % 60));
  }

  /** The "HH:MM:SS" branch of `format_duration`. */
  lemma LongText(seconds: int)
    requires seconds >= 3600
    ensures FormatDuration(seconds) == Pad2(seconds / 3600) + ":" + Pad2(seconds % 3600 / 60) + ":" + Pad2(seconds % 3600 % 60)
  {
    assert seconds / 3600 > 0;
  }

  /** The "MM:SS" branch of `format_duration`. */
  lemma ShortText(seconds: int)
    requires seconds < 3600
    ensures FormatDuration(seconds) == Pad2(seconds % 3600 / 60) + ":" + Pad2(seconds % 3600 % 60)
  {
    assert seconds / 3600 <= 0;
  }

  lemma SecondsField(seconds: int)
    ensures seconds % 3600 % 60 == seconds % 60
  {
    assert seconds == (seconds / 3600) * 3600 + seconds % 3600;
    assert seconds % 3600 == (seconds % 3600 / 60) * 60 + seconds % 3600 % 60;
    assert seconds == (seconds / 3600 * 60 + seconds % 3600 / 60) * 60 + seconds % 3600 % 60;
  }

  /** The clock read back from `format_duration(seconds)`, as arithmetic. */
  function ClockOf(seconds: int): Clock {
    Clock(if seconds >= 3600 then seconds / 3600 else 0, seconds % 3600 / 60, seconds % 60)
  }

  lemma ClockTotal(seconds: int)
    ensures ClockOf(seconds).minutes < 60 && ClockOf(seconds).seconds < 60
    ensures seconds >= 0 ==> TotalSeconds(ClockOf(seconds)) == seconds
    ensures seconds < 0 ==> TotalSeconds(ClockOf(seconds)) == seconds % 3600
  {
    var remainder := seconds % 3600;
    assert remainder == (remainder / 60) * 60 + remainder % 60;
    assert seconds == (seconds / 3600) * 3600 + remainder;
    if 0 <= seconds < 3600 {
      assert seconds / 3600 == 0;
    }
  }

  lemma ShortDurationExample()
    ensures FormatDuration(125) == "02:05"
  {
    assert Pad2(2) == "02" && Pad2(5) == "05";
  }

  lemma HourDurationExample()
    ensures FormatDuration(3725) == "01:02:05"
  {
    assert Pad2(1) == "01" && Pad2(2) == "02" && Pad2(5) == "05";
    assert FormatDuration(3725) == Pad2(1) + ":" + Pad2(2) + ":" + Pad2(5);
  }

  /** The hour field is never truncated. */
  lemma LongDurationExample()
    ensures FormatDuration(360000) == "100:00:00"
  {
    assert Pad2(0) == "00";
    assert Pad2(100) == "100" by {
      assert Digits(10) == "10";
      assert Digits(100) == "100";
    }
    assert FormatDuration(360000) == Pad2(100) + ":" + Pad2(0) + ":" + Pad2(0);
  }

  // ---- format_view --------------------------------------------------------

  datatype Band = Thousands | Millions | Billions

  function Unit(b: Band): nat {
    match b
    case Thousands => 1000
    case Millions => 1000000
    case Billions => 1000000000
  }

  function Suffix(b: Band): string {
    match b
    case Thousands => "K"
    case Millions => "M"
    case Billions => "B"
  }

  /**
   * What `format_view` returns: the count itself, a count to be shown as
   * `f'{views / Unit(band):.1f}' + Suffix(band)`, or nothing (Python's None).
   */
  datatype ViewLabel = Plain(count: int) | Scaled(views: int, band: Band) | NoLabel

  /**
   * The `.1f` rendering of `views / Unit(band)` printed as `tenths / 10`:
   * rounding to one decimal place leaves the printed number within half a
   * tenth of the exact quotient.
   */
  predicate Renders(views: int, band: Band, tenths: nat) {
    var u: int := Unit(band);
    var e := 10 * views - tenths * u;
    -u <= 2 * e <= u
  }

  /** `format_view(views)`: the band is chosen by the four integer range tests. */
  function FormatView(views: int): (r: ViewLabel)
    ensures r.NoLabel? <==> views <= 0
    ensures r.Plain? ==> r.count == views
    ensures r.Scaled? ==> r.views == views && Unit(r.band) <= views
    ensures r.Scaled? && r.band != Billions ==> views < 1000 * Unit(r.band)
  {
    if 0 < views < 1000 then Plain(views)
    else if 1000 <= views <= 999999 then Scaled(views, Thousands)
    else if 1000000 <= views <= 999999999 then Scaled(views, Millions)
    else if views >= 1000000000 then Scaled(views, Billions)
    else NoLabel
  }

  /** An independent statement of the bands: by the number of decimal digits of the count. */
  function BandByDigits(views: nat): ViewLabel {
    var d := |Digits(views)|;
    if d <= 3 then Plain(views)
    else if d <= 6 then Scaled(views, Thousands)
    else if d <= 9 then Scaled(views, Millions)
    else Scaled(views, Billions)
  }

  /**
   * The four bands of `format_view` are the counts of 1-3, 4-6, 7-9 and 10 or
   * more digits: disjoint, and together every positive count.
   */
  lemma ViewBandsByDigits(views: int)
    requires views > 0
    ensures FormatView(views) == BandByDigits(views)
  {
    DigitsLength(views, 3);
    DigitsLength(views, 6);
    DigitsLength(views, 9);
    assert Pow10(3) == 1000;
    assert Pow10(6) == 1000000;
    assert Pow10(9) == 1000000000;
  }

  lemma ViewExamples(t1: nat, t2: nat)
    requires Renders(1500, Thousands, t1) && Renders(2300000, Millions, t2)
    ensures FormatView(1500) == Scaled(1500, Thousands) && t1 == 15
    ensures FormatView(2300000) == Scaled(2300000, Millions) && t2 == 23
    ensures FormatView(999) == Plain(999) && FormatView(0) == NoLabel
  {
  }

  /**
   * As written, the K and M bands end at 999999 and 999999999, but the `.1f`
   * rendering rounds: 999999 is shown as "1000.0K" and 999999999 as "1000.0M".
   */
  lemma RolloverAsWritten(t1: nat, t2: nat)
    requires Renders(999999, Thousands, t1) && Renders(999999999, Millions, t2)
    ensures FormatView(999999) == Scaled(999999, Thousands) && t1 == 10000
    ensures FormatView(999999999) == Scaled(999999999, Millions) && t2 == 10000
  {
  }

  // ---- format_view with the band chosen after rounding ---------------------

  /** A view label whose scaled number is fixed: `tenths / 10` followed by the band's suffix. */
  datatype ViewText = Count(count: int) | Tenths(tenths: nat, band: Band) | NoText

  /** `views / Unit(band)` rounded half up to tenths. */
  function RoundTenths(views: nat, band: Band): (t: nat)
    ensures Renders(views, band, t)
  {
    match band
    case Thousands => (20 * views + 1000) / 2000
    case Millions => (20 * views + 1000000) / 2000000
    case Billions => (20 * views + 1000000000) / 2000000000
  }

  /**
   * `format_view` as evidently intended: a count whose rounded K value would
   * read 1000.0 moves up to M, and likewise from M to B, so that the K and M
   * labels always show 1.0 to 999.9.
   */
  function FormatViewCorrected(views: int): (r: ViewText)
    ensures r.NoText? <==> views <= 0
    ensures r.Count? ==> r.count == views && views < 1000
    ensures r.Tenths? ==> Renders(views, r.band, r.tenths) && 10 <= r.tenths
    ensures r.Tenths? && r.band != Billions ==> r.tenths < 10000
  {
    if views <= 0 then NoText
    else if views < 1000 then Count(views)
    else if RoundTenths(views, Thousands) < 10000 then Tenths(RoundTenths(views, Thousands), Thousands)
    else if RoundTenths(views, Millions) < 10000 then Tenths(RoundTenths(views, Millions), Millions)
    else Tenths(RoundTenths(views, Billions), Billions)
  }

  /** Away from the two rollovers the corrected helper keeps the band `format_view` chooses. */
  lemma CorrectedKeepsBand(views: int)
    requires FormatView(views).Scaled?
    requires RoundTenths(views, FormatView(views).band) < 10000 || FormatView(views).band == Billions
    ensures FormatViewCorrected(views) == Tenths(RoundTenths(views, FormatView(views).band), FormatView(views).band)
  {
  }

  /** The corrected helper on the two inputs that roll over as written. */
  lemma CorrectedRollover()
    ensures FormatViewCorrected(999999) == Tenths(10, Millions)
    ensures FormatViewCorrected(999999999) == Tenths(10, Billions)
  {
  }
}
