/** Report timestamps of the form `DD-MON-YYYY HH:MM` (strptime format
    "%d-%b-%Y %H:%M"), their proleptic Gregorian day count, the whole-day
    difference used for the uptime check and the three uptime colour bands. */
module Timestamps {
  import opened Text

  datatype Stamp = Stamp(year: nat, month: nat, day: nat, hour: nat, minute: nat)

  predicate IsLeap(y: nat) {
    y % 4 == 0 && (y % 100 != 0 || y % 400 == 0)
  }

  function DaysInMonth(y: nat, m: nat): (r: nat)
    requires 1 <= m <= 12
    ensures 28 <= r <= 31
    ensures m == 2 ==> (r == 29 <==> IsLeap(y))
  {
    if m == 2 then (if IsLeap(y) then 29 else 28)
    else if m == 4 || m == 6 || m == 9 || m == 11 then 30
    else 31
  }

  /** What datetime accepts: years 1..9999, real calendar days, 24-hour clock. */
  predicate ValidStamp(st: Stamp) {
    && 1 <= st.year <= 9999
    && 1 <= st.month <= 12
    && 1 <= st.day <= DaysInMonth(st.year, st.month)
    && st.hour < 24
    && st.minute < 60
  }

  // ---------------------------------------------------------------------------
  // strptime("%d-%b-%Y %H:%M")

  /** The C-locale month abbreviations, as matched case-insensitively by %b. */
  const MonthNames: seq<string> :=
    ["jan", "feb", "mar", "apr", "may", "jun", "jul", "aug", "sep", "oct", "nov", "dec"]

  predicate InRange(c: char, lo: char, hi: char) { lo <= c <= hi }

  /** %d: 3[01] | [12]\d | 0[1-9] | [1-9] | ' '[1-9], up to the first '-'. */
  function DayField(p: string): (r: Option<nat>)
    ensures r.Some? ==> 1 <= r.value <= 31
  {
    if |p| == 1 && InRange(p[0], '1', '9') then Some(DigitValue(p[0]))
    else if |p| != 2 then None
    else if p[0] == ' ' && InRange(p[1], '1', '9') then Some(DigitValue(p[1]))
    else if p[0] == '0' && InRange(p[1], '1', '9') then Some(DigitValue(p[1]))
    else if InRange(p[0], '1', '2') && IsDigit(p[1]) then Some(DigitValue(p[0]) * 10 + DigitValue(p[1]))
    else if p[0] == '3' && InRange(p[1], '0', '1') then Some(30 + DigitValue(p[1]))
    else None
  }

  /** %H: 2[0-3] | [01]\d | \d, up to the ':'. */
  function HourField(p: string): (r: Option<nat>)
    ensures r.Some? ==> r.value < 24
  {
    if |p| == 1 && IsDigit(p[0]) then Some(DigitValue(p[0]))
    else if |p| != 2 then None
    else if p[0] == '2' && InRange(p[1], '0', '3') then Some(20 + DigitValue(p[1]))
    else if InRange(p[0], '0', '1') && IsDigit(p[1]) then Some(DigitValue(p[0]) * 10 + DigitValue(p[1]))
    else None
  }

  /** %M: [0-5]\d | \d, which must also end the string. */
  function MinuteField(p: string): (r: Option<nat>)
    ensures r.Some? ==> r.value < 60
  {
    if |p| == 1 && IsDigit(p[0]) then Some(DigitValue(p[0]))
    else if |p| == 2 && InRange(p[0], '0', '5') && IsDigit(p[1]) then Some(DigitValue(p[0]) * 10 + DigitValue(p[1]))
    else None
  }

  function MonthFrom(p: string, k: nat): (r: Option<nat>)
    requires k <= 12
    decreases 12 - k
    ensures r.Some? ==> k + 1 <= r.value <= 12 && MonthNames[r.value - 1] == p
  {
    if k == 12 then None
    else if MonthNames[k] == p then Some(k + 1)
    else MonthFrom(p, k + 1)
  }

  /** %b: a three-letter month abbreviation in any letter case. */
  function MonthField(p: string): (r: Option<nat>)
    ensures r.Some? ==> 1 <= r.value <= 12 && Lower(p) == MonthNames[r.value - 1]
  {
    MonthFrom(Lower(p), 0)
  }

  /** datetime.strptime(s, "%d-%b-%Y %H:%M"), None where it raises ValueError:
      a field that does not fit its directive, text left after the minutes, or
      a date the calendar does not have (31-APR, 29-FEB of a common year,
      year 0000).  The space of the format matches one or more whitespace
      characters. */
  function ParseStamp(s: string): (r: Option<Stamp>)
    ensures r.Some? ==> ValidStamp(r.value)
  {
    match FindChar(s, '-', 0)
    case None => None
    case Some(i) =>
      if i + 10 > |s| then None
      else
        var day := DayField(s[..i]);
        var month := MonthField(s[i + 1..i + 4]);
        if day.None? || month.None? || s[i + 4] != '-' || !AllDigits(s[i + 5..i + 9]) || !IsSpace(s[i + 9]) then None
        else
          var k := SkipSpace(s, i + 9);
          match FindChar(s, ':', k)
          case None => None
          case Some(c) =>
            var hour := HourField(s[k..c]);
            var minute := MinuteField(s[c + 1..]);
            var year := DigitsValue(s[i + 5..i + 9]);
            assert year <= 9999 by { FourDigitsBound(s[i + 5..i + 9]); }
            if hour.None? || minute.None? || year == 0 || day.value > DaysInMonth(year, month.value) then None
            else Some(Stamp(year, month.value, day.value, hour.value, minute.value))
  }

  lemma FourDigitsBound(s: string)
    requires |s| == 4 && AllDigits(s)
    ensures DigitsValue(s) <= 9999
  {
    var a, b, c := s[..3], s[..2], s[..1];
    assert a[..2] == b && b[..1] == c && c[..0] == [];
    assert DigitsValue(c) <= 9;
    assert DigitsValue(b) <= 99;
    assert DigitsValue(a) <= 999;
  }

  // ---------------------------------------------------------------------------
  // The canonical rendering, used to state what the parser accepts

  const MonthAbbreviations: seq<string> :=
    ["JAN", "FEB", "MAR", "APR", "MAY", "JUN", "JUL", "AUG", "SEP", "OCT", "NOV", "DEC"]

  function Pad2(n: nat): (r: string)
    requires n < 100
    ensures |r| == 2 && AllDigits(r) && DigitsValue(r) == n
  {
    var r := [DigitChar(n / 10), DigitChar(n % 10)];
    assert r[..1] == [DigitChar(n / 10)] && r[..1][..0] == [];
    assert DigitValue(r[0]) == n / 10 && DigitValue(r[1]) == n % 10;
    assert DigitsValue(r[..1]) == n / 10;
    r
  }

  function Pad4(n: nat): (r: string)
    requires n < 10000
    ensures |r| == 4 && AllDigits(r) && DigitsValue(r) == n
  {
    var r := Pad2(n / 100) + Pad2(n % 100);
    assert r[..3] == Pad2(n / 100) + [r[2]];
    assert r[..2] == Pad2(n / 100);
    assert DigitsValue(r[..3]) == DigitsValue(Pad2(n / 100)) * 10 + DigitValue(r[2]);
    r
  }

  /** "DD-MON-YYYY HH:MM", as the report writes its dates. */
  function FormatStamp(st: Stamp): (r: string)
    requires ValidStamp(st)
    ensures |r| == 17
  {
    Pad2(st.day) + "-" + MonthAbbreviations[st.month - 1] + "-" + Pad4(st.year)
      + " " + Pad2(st.hour) + ":" + Pad2(st.minute)
  }

  lemma MonthNamesMatch(m: nat)
    requires 1 <= m <= 12
    ensures MonthField(MonthAbbreviations[m - 1]) == Some(m)
  {
    var p := MonthAbbreviations[m - 1];
    assert Lower(p) == MonthNames[m - 1] by {
      LowerAbbreviation(m);
    }
    MonthFromFinds(m);
  }

  lemma LowerAbbreviation(m: nat)
    requires 1 <= m <= 12
    ensures Lower(MonthAbbreviations[m - 1]) == MonthNames[m - 1]
  {
    var p, q := MonthAbbreviations[m - 1], MonthNames[m - 1];
    assert |p| == 3 && |q| == 3;
    assert Lower(p)[0] == q[0] && Lower(p)[1] == q[1] && Lower(p)[2] == q[2];
  }

  lemma MonthFromFinds(m: nat)
    requires 1 <= m <= 12
    ensures MonthFrom(MonthNames[m - 1], 0) == Some(m)
  {
    var q := MonthNames[m - 1];
    forall i | 0 <= i < m - 1
      ensures MonthNames[i] != q
    {
      MonthNamesDiffer(i, m - 1);
    }
    MonthFromAt(q, 0, m - 1);
  }

  lemma {:induction false} MonthFromAt(q: string, k: nat, j: nat)
    requires k <= j < 12 && MonthNames[j] == q
    requires forall i :: k <= i < j ==> MonthNames[i] != q
    decreases j - k
    ensures MonthFrom(q, k) == Some(j + 1)
  {
    if k < j {
      MonthFromAt(q, k + 1, j);
    }
  }

  /** The last two letters already tell the months apart. */
  lemma MonthNamesDiffer(k: nat, j: nat)
    requires k < j < 12
    ensures MonthNames[k] != MonthNames[j]
  {
    var key := seq(12, i requires 0 <= i < 12 => MonthNames[i][1] as int * 256 + MonthNames[i][2] as int);
    assert key == [24942, 25954, 24946, 28786, 24953, 30062, 30060, 30055, 25968, 25460, 28534, 25955];
    assert key[k] != key[j];
  }

  lemma DayFieldOfPad2(d: nat)
    requires 1 <= d <= 31
    ensures DayField(Pad2(d)) == Some(d)
  {
  }

  lemma HourFieldOfPad2(h: nat)
    requires h < 24
    ensures HourField(Pad2(h)) == Some(h)
  {
  }

  lemma MinuteFieldOfPad2(m: nat)
    requires m < 60
    ensures MinuteField(Pad2(m)) == Some(m)
  {
  }

  /** Where the fields of a rendered date sit. */
  lemma Layout(dd: string, mon: string, yyyy: string, hh: string, mm: string)
    requires |dd| == 2 && |mon| == 3 && |yyyy| == 4 && |hh| == 2
    ensures var s := dd + "-" + mon + "-" + yyyy + " " + hh + ":" + mm;
      && |s| == 15 + |mm|
      && s[..2] == dd && s[2] == '-' && s[3..6] == mon && s[6] == '-'
      && s[7..11] == yyyy && s[11] == ' ' && s[12..14] == hh && s[14] == ':' && s[15..] == mm
  {
  }

  /** The parser accepts a text whose fields all fit their directives. */
  lemma ParseFields(s: string, st: Stamp, k: nat, c: nat)
    requires ValidStamp(st)
    requires FindChar(s, '-', 0) == Some(2) && |s| >= 12
    requires DayField(s[..2]) == Some(st.day) && MonthField(s[3..6]) == Some(st.month)
    requires s[6] == '-' && AllDigits(s[7..11]) && DigitsValue(s[7..11]) == st.year && IsSpace(s[11])
    requires SkipSpace(s, 11) == k && FindChar(s, ':', k) == Some(c)
    requires HourField(s[k..c]) == Some(st.hour) && MinuteField(s[c + 1..]) == Some(st.minute)
    ensures ParseStamp(s) == Some(st)
  {
  }

  /** Every date the report can print parses back to itself. */
  lemma ParseFormat(st: Stamp)
    requires ValidStamp(st)
    ensures ParseStamp(FormatStamp(st)) == Some(st)
  {
    var s := FormatStamp(st);
    var dd, hh, mm := Pad2(st.day), Pad2(st.hour), Pad2(st.minute);
    var mon := MonthAbbreviations[st.month - 1];
    var yyyy := Pad4(st.year);
    assert s == dd + "-" + mon + "-" + yyyy + " " + hh + ":" + mm;
    Layout(dd, mon, yyyy, hh, mm);
    assert FindChar(s, '-', 0) == Some(2) by {
      assert s[0] == dd[0] && s[1] == dd[1];
      FindCharAt(s, '-', 2);
    }
    assert SkipSpace(s, 11) == 12 by {
      assert s[12] == hh[0];
    }
    assert FindChar(s, ':', 12) == Some(14) by {
      assert s[12] == hh[0] && s[13] == hh[1];
    }
    DayFieldOfPad2(st.day);
    MonthNamesMatch(st.month);
    HourFieldOfPad2(st.hour);
    MinuteFieldOfPad2(st.minute);
    ParseFields(s, st, 12, 14);
  }

  // ---------------------------------------------------------------------------
  // Day count

  /** Days in the years before `y` (proleptic Gregorian). */
  function DaysBeforeYear(y: nat): nat
    requires y >= 1
  {
    var p := y - 1;
    p * 365 + p / 4 - p / 100 + p / 400
  }

  const CumulativeDays: seq<nat> := [0, 31, 59, 90, 120, 151, 181, 212, 243, 273, 304, 334]

  function DaysBeforeMonth(y: nat, m: nat): nat
    requires 1 <= m <= 12
  {
    CumulativeDays[m - 1] + (if m > 2 && IsLeap(y) then 1 else 0)
  }

  /** date.toordinal(): 1 January of year 1 is day 1. */
  function Ordinal(y: nat, m: nat, d: nat): (r: nat)
    requires y >= 1 && 1 <= m <= 12
  {
    DaysBeforeYear(y) + DaysBeforeMonth(y, m) + d
  }

  lemma OrdinalNextDay(y: nat, m: nat, d: nat)
    requires y >= 1 && 1 <= m <= 12 && d < DaysInMonth(y, m)
    ensures Ordinal(y, m, d + 1) == Ordinal(y, m, d) + 1
  {
  }

  /** The first of a month follows the last day of the month before. */
  lemma OrdinalNextMonth(y: nat, m: nat)
    requires y >= 1 && 1 <= m < 12
    ensures Ordinal(y, m + 1, 1) == Ordinal(y, m, DaysInMonth(y, m)) + 1
  {
  }

  /** 1 January follows 31 December of the year before. */
  lemma OrdinalNextYear(y: nat)
    requires y >= 1
    ensures Ordinal(y + 1, 1, 1) == Ordinal(y, 12, 31) + 1
  {
    LeapYearLength(y);
  }

  lemma LeapYearLength(y: nat)
    requires y >= 1
    ensures DaysBeforeYear(y + 1) == DaysBeforeYear(y) + (if IsLeap(y) then 366 else 365)
  {
    var p := y - 1;
    MultipleStep(p, 4);
    MultipleStep(p, 100);
    MultipleStep(p, 400);
    CenturyMultiples(y);
  }

  /** Counting the multiples of `d` up to `p + 1` adds one exactly when
      `p + 1` is one. */
  lemma MultipleStep(p: nat, d: nat)
    requires d == 4 || d == 100 || d == 400
    ensures (p + 1) / d == p / d + (if (p + 1) % d == 0 then 1 else 0)
  {
    if d == 4 {
      assert p == 4 * (p / 4) + p % 4;
    } else if d == 100 {
      assert p == 100 * (p / 100) + p % 100;
    } else {
      assert p == 400 * (p / 400) + p % 400;
    }
  }

  /** Multiples of 400 are multiples of 100, and those of 100 of 4. */
  lemma CenturyMultiples(y: nat)
    ensures y % 400 == 0 ==> y % 100 == 0
    ensures y % 100 == 0 ==> y % 4 == 0
  {
    if y % 400 == 0 {
      assert y == 100 * (4 * (y / 400));
    }
    if y % 100 == 0 {
      assert y == 4 * (25 * (y / 100));
    }
  }

  /** Minutes since the start of day 1. */
  function Minutes(st: Stamp): int
    requires ValidStamp(st)
  {
    Ordinal(st.year, st.month, st.day) * 1440 + st.hour * 60 + st.minute
  }

  /** (system_date - start_time).days, with 0 when either string does not
      parse. */
  function DaysDifference(start: string, system: string): (r: int)
    ensures match (ParseStamp(start), ParseStamp(system))
      case (Some(a), Some(b)) => r * 1440 <= Minutes(b) - Minutes(a) < (r + 1) * 1440
      case _ => r == 0
  {
    match (ParseStamp(start), ParseStamp(system))
    case (Some(a), Some(b)) => (Minutes(b) - Minutes(a)) / 1440
    case _ => 0
  }

  // ---------------------------------------------------------------------------
  // Uptime colour bands

  datatype Band = Normal | NeedsAttention | RestartAdvised

  /** The band of an uptime in days: up to 31 days normal, up to 62 days
      needs attention, beyond that a restart is advised. */
  function UptimeBand(days: int): Band
  {
    if days <= 31 then Normal else if days <= 62 then NeedsAttention else RestartAdvised
  }

  function BandRank(b: Band): nat {
    match b
    case Normal => 0
    case NeedsAttention => 1
    case RestartAdvised => 2
  }

  /** A longer uptime never lands in a milder band, and each band is hit. */
  lemma BandMonotone(a: int, b: int)
    requires a <= b
    ensures BandRank(UptimeBand(a)) <= BandRank(UptimeBand(b))
    ensures UptimeBand(31) == Normal && UptimeBand(32) == NeedsAttention
    ensures UptimeBand(62) == NeedsAttention && UptimeBand(63) == RestartAdvised
  {
  }

  /** `<span style='color: {colour}; font-weight: bold;'>{text}</span>` */
  function ColouredSpan(colour: string, text: string): string {
    "<span style='color: " + colour + "; font-weight: bold;'>" + text + "</span>"
  }

  /** The status span printed after an uptime. */
  function TimeStatusWithColor(days: int): (r: string)
    ensures days <= 31 <==> r == ColouredSpan("green", "状态正常")
    ensures 32 <= days <= 62 <==> r == ColouredSpan("orange", "需要关注")
    ensures days >= 63 <==> r == ColouredSpan("red", "立即关注，建议立即重启服务器以释放资源")
  {
    match UptimeBand(days)
    case Normal => ColouredSpan("green", "状态正常")
    case NeedsAttention => ColouredSpan("orange", "需要关注")
    case RestartAdvised => ColouredSpan("red", "立即关注，建议立即重启服务器以释放资源")
  }

  // ---------------------------------------------------------------------------
  // Worked examples

  /** The day count has the sign of the time between the stamps, is 0 for
      the same instant, and, as `timedelta.days` floors, swapping the stamps
      negates it, one lower unless the difference is whole days. */
  lemma {:induction false} DaysBetween(a: string, b: string, sa: Stamp, sb: Stamp)
    requires ParseStamp(a) == Some(sa) && ParseStamp(b) == Some(sb)
    ensures ValidStamp(sa) && ValidStamp(sb)
    ensures DaysDifference(a, b) >= 0 <==> Minutes(sa) <= Minutes(sb)
    ensures Minutes(sa) == Minutes(sb) ==> DaysDifference(a, b) == 0
    ensures DaysDifference(b, a) ==
      -DaysDifference(a, b) - (if DaysDifference(a, b) * 1440 == Minutes(sb) - Minutes(sa) then 0 else 1)
  {
    var r := DaysDifference(a, b);
    var q := DaysDifference(b, a);
    DaysRange(a, b, sa, sb);
    DaysRange(b, a, sb, sa);
    FloorSwap(Minutes(sb) - Minutes(sa), r, q);
  }

  lemma DaysRange(a: string, b: string, sa: Stamp, sb: Stamp)
    requires ParseStamp(a) == Some(sa) && ParseStamp(b) == Some(sb)
    ensures ValidStamp(sa) && ValidStamp(sb)
    ensures DaysDifference(a, b) * 1440 <= Minutes(sb) - Minutes(sa) < (DaysDifference(a, b) + 1) * 1440
  {
  }

  /** Floors of a number of minutes and of its negation, in days. */
  lemma FloorSwap(m: int, r: int, q: int)
    requires r * 1440 <= m < (r + 1) * 1440
    requires q * 1440 <= -m < (q + 1) * 1440
    ensures r >= 0 <==> m >= 0
    ensures m == 0 ==> r == 0
    ensures q == -r - (if r * 1440 == m then 0 else 1)
  {
  }

  /** The same clock time one day later is one day of uptime. */
  lemma OneDayLater(a: string, b: string, sa: Stamp, sb: Stamp)
    requires ParseStamp(a) == Some(sa) && ParseStamp(b) == Some(sb)
    requires sb == sa.(day := sa.day + 1)
    ensures DaysDifference(a, b) == 1
  {
    OrdinalNextDay(sa.year, sa.month, sa.day);
  }

  /** Two months of uptime fall in the attention band, ten weeks in the
      restart band: from 1 January 2025, midnight, to 1 March and to 10 March. */
  lemma UptimeExamples(jan1: Stamp, mar1: Stamp, mar10: Stamp)
    requires jan1 == Stamp(2025, 1, 1, 0, 0) && mar1 == Stamp(2025, 3, 1, 0, 0) && mar10 == Stamp(2025, 3, 10, 0, 0)
    ensures ValidStamp(jan1) && ValidStamp(mar1) && ValidStamp(mar10)
    ensures (Minutes(mar1) - Minutes(jan1)) / 1440 == 59 && UptimeBand(59) == NeedsAttention
    ensures (Minutes(mar10) - Minutes(jan1)) / 1440 == 68 && UptimeBand(68) == RestartAdvised
  {
    assert !IsLeap(2025);
  }
}
