/**
 * The arithmetic behind the study analytics page: `formatTime`, which shows
 * a number of minutes as hours and minutes, and the best day and the total
 * over the week's study minutes.
 */
module StudyDashboard {
  import opened Subjects

  // ---------------------------------------------------------------------
  // Decimal text of integers, as template literals print them
  // ---------------------------------------------------------------------

  predicate IsDigit(c: char) {
    '0' <= c <= '9'
  }

  predicate AllDigits(s: string) {
    forall i :: 0 <= i < |s| ==> IsDigit(s[i])
  }

  function DigitChar(d: int): (c: char)
    requires 0 <= d < 10
    ensures IsDigit(c) && c as int - '0' as int == d
  {
    ('0' as int + d) as char
  }

  /** The decimal digits of `n`, without leading zeros. */
  function Digits(n: nat): (s: string)
    ensures |s| > 0 && AllDigits(s)
    ensures |s| == 1 <==> n < 10
    ensures s[0] == '0' <==> n == 0
  {
    if n < 10 then [DigitChar(n)] else Digits(n / 10) + [DigitChar(n % 10)]
  }

  /** The value of a string of decimal digits, read from the left. */
  function DigitsValue(s: string): nat
    requires AllDigits(s)
  {
    if s == [] then 0 else DigitsValue(s[..|s| - 1]) * 10 + (s[|s| - 1] as int - '0' as int)
  }

  lemma {:induction false} DigitsRoundTrip(n: nat)
    ensures DigitsValue(Digits(n)) == n
  {
    if n >= 10 {
      var s := Digits(n);
      assert s[..|s| - 1] == Digits(n / 10);
      DigitsRoundTrip(n / 10);
    }
  }

  /** `${i}` for an integer `i`. */
  function IntToString(i: int): (s: string)
    ensures i >= 0 ==> |s| > 0 && AllDigits(s) && DigitsValue(s) == i && (s[0] == '0' ==> s == "0")
    ensures i < 0 ==> |s| >= 2 && s[0] == '-' && AllDigits(s[1..]) && DigitsValue(s[1..]) == -i && s[1] != '0'
  {
    if i < 0 then
      DigitsRoundTrip(-i);
      assert ("-" + Digits(-i))[1..] == Digits(-i);
      "-" + Digits(-i)
    else
      DigitsRoundTrip(i);
      Digits(i)
  }

  /** JavaScript's `%`: the remainder takes the sign of the dividend. */
  function JsRemainder(a: int, b: int): (r: int)
    requires b > 0
    ensures -b < r < b
    ensures a >= 0 ==> r == a % b
    ensures a <= 0 ==> r <= 0
    ensures (a - r) % b == 0
  {
    if a >= 0 then
      RemainderLeavesMultiple(a, b);
      a % b
    else
      RemainderLeavesMultiple(-a, b);
      NegatedMultiple((-a) - (-a) % b, b);
      assert a - -((-a) % b) == -((-a) - (-a) % b);
      -((-a) % b)
  }

  /** Taking away the remainder leaves a multiple of the divisor. */
  lemma RemainderLeavesMultiple(x: int, b: int)
    requires b > 0
    ensures (x - x % b) % b == 0
  {
    assert x - x % b == b * (x / b);
    MultipleRemainder(b, x / b);
  }

  /** The negation of a multiple of `b` is one too. */
  lemma NegatedMultiple(y: int, b: int)
    requires b > 0 && y % b == 0
    ensures (-y) % b == 0
  {
    assert y == b * (y / b);
    assert -y == b * -(y / b);
    MultipleRemainder(b, -(y / b));
  }

  lemma MulNonNegative(x: int, y: int)
    requires x >= 0 && y >= 0
    ensures x * y >= 0
  {
  }

  /** A multiple of `b` leaves no remainder. */
  lemma MultipleRemainder(b: int, k: int)
    requires b > 0
    ensures (b * k) % b == 0
  {
    var x := b * k;
    var q, m := x / b, x % b;
    assert x == b * q + m && 0 <= m < b;
    var d := k - q;
    assert b * d == b * k - b * q;
    assert b * d == m;
    if d > 0 {
      MulNonNegative(b, d - 1);
    } else if d < 0 {
      MulNonNegative(b, -d - 1);
    }
  }

  // ---------------------------------------------------------------------
  // formatTime and its inverse
  // ---------------------------------------------------------------------

  /**
   * `formatTime(minutes)`: `Math.floor(minutes / 60)` hours (Dafny's `/`
   * by a positive divisor rounds down as `Math.floor` does) and
   * `minutes % 60` minutes; the hours are shown only when positive.
   */
  function FormatTime(minutes: int): (s: string)
    ensures minutes >= 0 ==> ParseTime(s) == Some(minutes)
    ensures 'h' in s <==> minutes >= 60
    ensures minutes < 0 ==> s == IntToString(JsRemainder(minutes, 60)) + "m"
  {
    var hours := minutes / 60;
    var mins := JsRemainder(minutes, 60);
    var s := if hours > 0 then IntToString(hours) + "h " + IntToString(mins) + "m"
             else IntToString(mins) + "m";
    FormatTimeFacts(minutes, hours, mins, s);
    s
  }

  lemma FormatTimeFacts(minutes: int, hours: int, mins: int, s: string)
    requires hours == minutes / 60 && mins == JsRemainder(minutes, 60)
    requires s == if hours > 0 then IntToString(hours) + "h " + IntToString(mins) + "m"
                  else IntToString(mins) + "m"
    ensures minutes >= 0 ==> ParseTime(s) == Some(minutes)
    ensures 'h' in s <==> minutes >= 60
  {
    if hours > 0 {
      assert 0 <= mins < 60 && minutes == 60 * hours + mins;
      assert IntToString(hours) == Digits(hours) && IntToString(mins) == Digits(mins);
      HoursAndMinutesRoundTrip(hours, mins);
    } else if minutes >= 0 {
      assert IntToString(mins) == Digits(mins);
      MinutesRoundTrip(mins);
    } else {
      NoHourMark(mins);
    }
  }

  /** The text of an integer followed by the unit has no hours mark. */
  lemma NoHourMark(i: int)
    ensures 'h' !in IntToString(i) + "m"
  {
    var t := IntToString(i);
    if i < 0 {
      forall k | 1 <= k < |t| ensures t[k] != 'h' {
        assert t[k] == t[1..][k - 1];
      }
    }
    assert forall k :: 0 <= k < |t + "m"| ==> (t + "m")[k] != 'h';
  }

  lemma MinutesRoundTrip(m: nat)
    ensures ParseTime(Digits(m) + "m") == Some(m)
    ensures 'h' !in Digits(m) + "m"
  {
    var s := Digits(m) + "m";
    assert s[..|s| - 1] == Digits(m);
    DigitsRoundTrip(m);
  }

  lemma HoursAndMinutesRoundTrip(h: nat, m: nat)
    requires h > 0
    ensures ParseTime(Digits(h) + "h " + Digits(m) + "m") == Some(60 * h + m)
    ensures 'h' in Digits(h) + "h " + Digits(m) + "m"
  {
    var hs, ms := Digits(h), Digits(m);
    var body := hs + ("h " + ms);
    assert hs + "h " + ms + "m" == body + "m";
    assert (body + "m")[|hs|] == 'h';
    StripUnit(body);
    SplitAtHours(hs, ms);
    ParseDigitPair(h, m);
  }

  lemma StripUnit(body: string)
    ensures ParseTime(body + "m") == ParseBody(body)
  {
    var s := body + "m";
    assert s[..|s| - 1] == body;
  }

  lemma ParseDigitPair(h: nat, m: nat)
    ensures ParseHoursMinutes(Digits(h), " " + Digits(m)) == Some(60 * h + m)
  {
    DigitsRoundTrip(h);
    DigitsRoundTrip(m);
    assert (" " + Digits(m))[1..] == Digits(m);
  }

  /** A body `"<digits>h <rest>"` splits at its first `h`. */
  lemma SplitAtHours(hs: string, ms: string)
    requires AllDigits(hs)
    ensures ParseBody(hs + ("h " + ms)) == ParseHoursMinutes(hs, " " + ms)
  {
    var body := hs + ("h " + ms);
    assert body[|hs|] == 'h';
    assert !AllDigits(body);
    FirstIndexOfPrefix(hs, "h " + ms, 'h');
    assert body[..|hs|] == hs;
    assert body[|hs| + 1..] == " " + ms;
  }

  /** The first index of `c` in `s`, or `|s|` when `c` does not occur. */
  function FirstIndex(s: string, c: char): (k: nat)
    ensures k <= |s|
    ensures forall i :: 0 <= i < k ==> s[i] != c
    ensures k < |s| ==> s[k] == c
  {
    if s == [] then 0 else if s[0] == c then 0 else 1 + FirstIndex(s[1..], c)
  }

  lemma FirstIndexOfPrefix(a: string, b: string, c: char)
    requires c !in a && |b| > 0 && b[0] == c
    ensures FirstIndex(a + b, c) == |a|
  {
    assert (a + b)[|a|] == c;
    assert forall i :: 0 <= i < |a| ==> (a + b)[i] == a[i];
  }

  /**
   * Reads back what `FormatTime` shows for a non-negative number of
   * minutes: `"<m>m"` or `"<h>h <m>m"` with decimal `h` and `m`.
   */
  function ParseTime(s: string): Option<int> {
    if |s| == 0 || s[|s| - 1] != 'm' then None else ParseBody(s[..|s| - 1])
  }

  function ParseBody(body: string): Option<int> {
    if AllDigits(body) then ParseNumber(body)
    else
      var k := FirstIndex(body, 'h');
      if k == |body| then None else ParseHoursMinutes(body[..k], body[k + 1..])
  }

  function ParseNumber(s: string): Option<int> {
    if s != [] && AllDigits(s) then Some(DigitsValue(s)) else None
  }

  function ParseHoursMinutes(hs: string, rest: string): Option<int> {
    if |rest| == 0 || rest[0] != ' ' then None
    else
      match (ParseNumber(hs), ParseNumber(rest[1..]))
      case (Some(h), Some(m)) => Some(60 * h + m)
      case _ => None
  }

  /** Different non-negative durations are never shown alike. */
  lemma FormatTimeInjective(a: int, b: int)
    requires a >= 0 && b >= 0 && FormatTime(a) == FormatTime(b)
    ensures a == b
  {
  }

  /**
   * The split `formatTime` makes: `h` hours and `m` minutes with
   * `60 * h + m == minutes` and `0 <= m < 60`, the hours omitted below one hour.
   */
  lemma FormatTimeSplit(minutes: int)
    requires minutes >= 0
    ensures var h, m := minutes / 60, minutes % 60;
            60 * h + m == minutes && 0 <= m < 60 &&
            FormatTime(minutes) == if minutes >= 60 then Digits(h) + "h " + Digits(m) + "m" else Digits(m) + "m"
  {
  }

  // ---------------------------------------------------------------------
  // The week's study minutes
  // ---------------------------------------------------------------------

  datatype DayStudy = DayStudy(day: string, minutes: int, date: string)

  /** `Math.max(...xs)`: `-Infinity` for no arguments. */
  datatype Extended = NegInfinity | Finite(value: int)

  const WeeklyData: seq<DayStudy> := [
    DayStudy("Mon", 120, "12/9"),
    DayStudy("Tue", 95, "12/10"),
    DayStudy("Wed", 180, "12/11"),
    DayStudy("Thu", 75, "12/12"),
    DayStudy("Fri", 160, "12/13"),
    DayStudy("Sat", 200, "12/14"),
    DayStudy("Sun", 145, "12/15")
  ]

  const TodayStudyTime: int := 145

  /** `Math.max(...days.map(d => d.minutes))` */
  function MaxStudyTime(days: seq<DayStudy>): (r: Extended)
    ensures r == NegInfinity <==> days == []
    ensures r.Finite? ==> forall i :: 0 <= i < |days| ==> days[i].minutes <= r.value
    ensures r.Finite? ==> exists i :: 0 <= i < |days| && days[i].minutes == r.value
  {
    if days == [] then NegInfinity
    else
      var first := days[0].minutes;
      match MaxStudyTime(days[1..])
      case NegInfinity => Finite(first)
      case Finite(m) =>
        if first < m then
          ghost var i :| 0 <= i < |days[1..]| && days[1..][i].minutes == m;
          assert days[i + 1].minutes == m;
          Finite(m)
        else Finite(first)
  }

  /** The sum of the minutes, as a reference for the fold below. */
  function Sum(days: seq<DayStudy>): int {
    if days == [] then 0 else days[0].minutes + Sum(days[1..])
  }

  /** `days.reduce((sum, day) => sum + day.minutes, acc)`: a left fold. */
  function Reduce(acc: int, days: seq<DayStudy>): int
    decreases days
  {
    if days == [] then acc else Reduce(acc + days[0].minutes, days[1..])
  }

  lemma {:induction false} ReduceIsSum(acc: int, days: seq<DayStudy>)
    ensures Reduce(acc, days) == acc + Sum(days)
    decreases days
  {
    if days != [] {
      ReduceIsSum(acc + days[0].minutes, days[1..]);
    }
  }

  /** The "Total This Week" figure. */
  function WeeklyTotal(days: seq<DayStudy>): (t: int)
    ensures t == Sum(days)
  {
    ReduceIsSum(0, days);
    Reduce(0, days)
  }

  /** With no negative day, the best day is at most the week's total. */
  lemma {:induction false} BestDayAtMostTotal(days: seq<DayStudy>)
    requires forall i :: 0 <= i < |days| ==> days[i].minutes >= 0
    requires days != []
    ensures MaxStudyTime(days).value <= WeeklyTotal(days)
  {
    var rest := days[1..];
    SumNonNegative(rest);
    if rest != [] {
      BestDayAtMostTotal(rest);
      assert WeeklyTotal(rest) == Sum(rest);
    }
    assert WeeklyTotal(days) == days[0].minutes + Sum(rest);
  }

  lemma {:induction false} SumNonNegative(days: seq<DayStudy>)
    requires forall i :: 0 <= i < |days| ==> days[i].minutes >= 0
    ensures Sum(days) >= 0
  {
    if days != [] {
      SumNonNegative(days[1..]);
    }
  }

  /** The figures the page shows: today's time, the best day and the week's total. */
  lemma TodayFigure()
    ensures FormatTime(TodayStudyTime) == "2h 25m"
  {
    assert Digits(2) == "2" && Digits(25) == "25";
  }

  lemma BestDayFigure()
    ensures MaxStudyTime(WeeklyData) == Finite(200)
  {
    var r := MaxStudyTime(WeeklyData);
    assert r.value >= WeeklyData[5].minutes == 200;
    var i :| 0 <= i < |WeeklyData| && WeeklyData[i].minutes == r.value;
    assert forall j :: 0 <= j < |WeeklyData| ==> WeeklyData[j].minutes <= 200;
  }

  lemma BestDayShown()
    ensures FormatTime(200) == "3h 20m"
  {
    assert JsRemainder(200, 60) == 20;
    assert Digits(3) == "3" && Digits(20) == "20";
    assert IntToString(3) == "3" && IntToString(20) == "20";
  }

  lemma WeekTotalFigure()
    ensures WeeklyTotal(WeeklyData) == 975
  {
    assert Sum(WeeklyData[6..]) == 145;
  }

  lemma WeekTotalShown()
    ensures FormatTime(975) == "16h 15m"
  {
    assert JsRemainder(975, 60) == 15;
    assert Digits(16) == "16" && Digits(15) == "15";
    assert IntToString(16) == "16" && IntToString(15) == "15";
  }
}
