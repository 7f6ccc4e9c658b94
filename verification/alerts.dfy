/** The four alert rules of the standalone monitor.  Each one reads the HTML
    analysis text line by line (the text split at '\n') and yields at most one
    alert message; a message carries "alert-critical" or "alert-warning",
    which is what the escalation step looks for. */
module AlertRules {
  import opened Text
  import opened Timestamps
  import opened HtmlReport
  import opened Tablespace

  /** Python truthiness of the analysis text: not None and not empty. */
  predicate Present(h: Option<string>) {
    h.Some? && h.value != ""
  }

  function AnalysisLines(h: Option<string>): (r: seq<string>)
    requires h.Some?
    ensures forall k :: 0 <= k < |r| ==> '\n' !in r[k]
  {
    Split(h.value, '\n')
  }

  /** The first message of `xs` that contains `p`. */
  function FirstContaining(xs: seq<string>, p: string): (r: Option<string>)
    ensures r.None? <==> forall k :: 0 <= k < |xs| ==> !Contains(xs[k], p)
    ensures r.Some? ==> exists i :: (0 <= i < |xs| && r.value == xs[i] && Contains(xs[i], p)
      && forall k :: 0 <= k < i ==> !Contains(xs[k], p))
  {
    if xs == [] then None
    else if Contains(xs[0], p) then Some(xs[0])
    else
      var r := FirstContaining(xs[1..], p);
      assert forall k :: 1 <= k < |xs| ==> xs[k] == xs[1..][k - 1];
      r
  }

  // ---------------------------------------------------------------------------
  // _check_database_runtime_alert

  /** Inside a run of digits every start position has the same run end. */
  lemma {:induction false} DigitRunEndInside(s: string, i: nat, k: nat)
    requires i <= |s| && i <= k <= DigitRunEnd(s, i)
    ensures DigitRunEnd(s, k) == DigitRunEnd(s, i)
    decreases k - i
  {
    if k > i {
      DigitRunEndInside(s, i + 1, k);
    }
  }

  /** `(\d+)天` matches at position a: a digit starts there and the greedy
      run of digits is followed by 天 (a shorter run would be followed by a
      digit, so backtracking finds nothing else). */
  predicate DaysMatchAt(s: string, a: nat) {
    a < |s| && IsDigit(s[a]) && DigitRunEnd(s, a) < |s| && s[DigitRunEnd(s, a)] == '天'
  }

  /** The leftmost position at or after i where `(\d+)天` matches. */
  function DaysMatchStart(s: string, i: nat): (r: Option<nat>)
    requires i <= |s|
    decreases |s| - i
    ensures r.Some? ==> i <= r.value < |s| && DaysMatchAt(s, r.value)
    ensures forall k :: i <= k < |s| && (r.None? || k < r.value) ==> !DaysMatchAt(s, k)
  {
    if i == |s| then None
    else if !IsDigit(s[i]) then DaysMatchStart(s, i + 1)
    else
      var e := DigitRunEnd(s, i);
      if e < |s| && s[e] == '天' then Some(i)
      else
        SkipRun(s, i);
        DaysMatchStart(s, e)
  }

  lemma SkipRun(s: string, i: nat)
    requires i < |s| && IsDigit(s[i])
    requires var e := DigitRunEnd(s, i); !(e < |s| && s[e] == '天')
    ensures forall k :: i <= k < DigitRunEnd(s, i) ==> !DaysMatchAt(s, k)
  {
    forall k | i <= k < DigitRunEnd(s, i)
      ensures !DaysMatchAt(s, k)
    {
      DigitRunEndInside(s, i, k);
    }
  }

  /** int(re.search(r'(\d+)天', s).group(1)), None when there is no match. */
  function DayCount(s: string): (r: Option<nat>)
    ensures r.None? <==> forall k :: 0 <= k < |s| ==> !DaysMatchAt(s, k)
  {
    match DaysMatchStart(s, 0)
    case None => None
    case Some(a) => Some(DigitsValue(s[a..DigitRunEnd(s, a)]))
  }

  const StandbyRuntimeMarker: string := RuntimeLabel(Standby)
  const ProductionRuntimeMarker: string := RuntimeLabel(Production)
  const CriticalTag: string := "alert-critical"
  const WarningTag: string := "alert-warning"
  const RuntimeCriticalTail: string := "天 - " + CriticalTag + " (数据库启用已超过2个月，建议重启服务器以释放资源)"
  const RuntimeWarningTail: string := "天 - " + WarningTag + " (32-62天，需要关注)"

  /** The alert for an uptime of `days` days: critical from 63 days on,
      warning from 32, none below. */
  function RuntimeMessage(role: Role, days: nat): (r: Option<string>)
  {
    if days >= 63 then Some(RoleName(role) + "数据库运行时间: " + NatToString(days) + RuntimeCriticalTail)
    else if days >= 32 then Some(RoleName(role) + "数据库运行时间: " + NatToString(days) + RuntimeWarningTail)
    else None
  }

  /** `m` is the uptime alert of some role and day count. */
  ghost predicate IsRuntimeMessage(m: string) {
    exists role, d :: RuntimeMessage(role, d) == Some(m)
  }

  /** The alert one line yields: a standby uptime line first, otherwise a
      production one; each needs its marker and 天 on the line. */
  function RuntimeLineAlert(line: string): Option<string> {
    if Contains(line, StandbyRuntimeMarker) && Contains(line, "天") then
      match DayCount(line)
      case None => None
      case Some(d) => RuntimeMessage(Standby, d)
    else if Contains(line, ProductionRuntimeMarker) && Contains(line, "天") then
      match DayCount(line)
      case None => None
      case Some(d) => RuntimeMessage(Production, d)
    else None
  }

  /** The alerts of the lines, in line order. */
  function RuntimeAlerts(lines: seq<string>): (r: seq<string>)
    ensures |r| <= |lines|
    ensures forall k :: 0 <= k < |r| ==> IsRuntimeMessage(r[k])
  {
    if lines == [] then [] else LineAlerts(lines[0]) + RuntimeAlerts(lines[1..])
  }

  /** The alert of one line, as a sequence of at most one message. */
  function LineAlerts(line: string): (r: seq<string>)
    ensures |r| <= 1
    ensures forall k :: 0 <= k < |r| ==> IsRuntimeMessage(r[k])
  {
    match RuntimeLineAlert(line)
    case None => []
    case Some(m) => [m]
  }

  /** The first critical alert, or failing that the first warning alert. */
  function RuntimeAlert(h: Option<string>): (r: Option<string>)
    ensures !Present(h) ==> r.None?
    ensures Present(h) ==> (r.None? <==> RuntimeAlerts(AnalysisLines(h)) == [])
    ensures Present(h) && r.Some? && !Contains(r.value, CriticalTag) ==>
      forall k :: 0 <= k < |RuntimeAlerts(AnalysisLines(h))| ==> !Contains(RuntimeAlerts(AnalysisLines(h))[k], CriticalTag)
    ensures r.Some? ==> Contains(r.value, CriticalTag) || Contains(r.value, WarningTag)
    ensures Present(h) && r.Some? ==> FirstOfItsLevel(RuntimeAlerts(AnalysisLines(h)), r.value)
  {
    if !Present(h) then None
    else
      var alerts := RuntimeAlerts(AnalysisLines(h));
      EveryRuntimeAlertTagged(alerts);
      match FirstContaining(alerts, CriticalTag)
      case Some(a) => Some(a)
      case None =>
        var w := FirstContaining(alerts, WarningTag);
        assert w.Some? ==> FirstOfItsLevel(alerts, w.value);
        w
  }

  /** `a` is one of the alerts: the first critical one if it is critical,
      and otherwise the first warning one. */
  ghost predicate FirstOfItsLevel(alerts: seq<string>, a: string) {
    exists i :: 0 <= i < |alerts| && a == alerts[i]
      && (Contains(alerts[i], CriticalTag) ==> forall k :: 0 <= k < i ==> !Contains(alerts[k], CriticalTag))
      && (!Contains(alerts[i], CriticalTag) ==> forall k :: 0 <= k < i ==> !Contains(alerts[k], WarningTag))
  }

  /** The alerts of two stretches of lines are those of the first followed by
      those of the second. */
  lemma {:induction false} RuntimeAlertsAppend(a: seq<string>, b: seq<string>)
    ensures RuntimeAlerts(a + b) == RuntimeAlerts(a) + RuntimeAlerts(b)
  {
    if a != [] {
      var ab := a + b;
      var x, ra, rb := LineAlerts(a[0]), RuntimeAlerts(a[1..]), RuntimeAlerts(b);
      assert RuntimeAlerts(ab) == x + (ra + rb) by {
        TailOfAppend(a, b);
        RuntimeAlertsAppend(a[1..], b);
      }
      assert RuntimeAlerts(a) == x + ra;
      Associate(x, ra, rb);
    } else {
      assert a + b == b;
    }
  }

  /** One line gives its own alert, if any. */
  lemma RuntimeAlertsOfLine(line: string)
    ensures RuntimeAlerts([line]) == if RuntimeLineAlert(line).Some? then [RuntimeLineAlert(line).value] else []
  {
    assert [line][1..] == [];
  }

  lemma EveryRuntimeAlertTagged(alerts: seq<string>)
    requires forall k :: 0 <= k < |alerts| ==> IsRuntimeMessage(alerts[k])
    ensures forall k :: 0 <= k < |alerts| ==> Contains(alerts[k], CriticalTag) || Contains(alerts[k], WarningTag)
  {
    forall k | 0 <= k < |alerts|
      ensures Contains(alerts[k], CriticalTag) || Contains(alerts[k], WarningTag)
    {
      var role, d :| RuntimeMessage(role, d) == Some(alerts[k]);
      RuntimeMessageTag(role, d);
    }
  }

  /** A critical uptime alert carries "alert-critical"; a warning one carries
      "alert-warning" and not "alert-critical". */
  lemma RuntimeMessageTag(role: Role, d: nat)
    ensures d >= 63 ==> Contains(RuntimeMessage(role, d).value, CriticalTag)
    ensures 32 <= d < 63 ==>
      Contains(RuntimeMessage(role, d).value, WarningTag) && !Contains(RuntimeMessage(role, d).value, CriticalTag)
  {
    var head := RoleName(role) + "数据库运行时间: " + NatToString(d);
    if d >= 63 {
      assert RuntimeMessage(role, d).value == head + RuntimeCriticalTail;
      TagInTail(head, RuntimeCriticalTail, CriticalTag, 4);
    } else if d >= 32 {
      assert RuntimeMessage(role, d).value == head + RuntimeWarningTail;
      TagInTail(head, RuntimeWarningTail, WarningTag, 4);
      HeadLacksCritical(role, d, head);
      assert !Contains(RuntimeWarningTail, CriticalTag) by {
        WarningTailLacksC();
        assert CriticalTag[6] == 'c';
        NotContainsByChar(RuntimeWarningTail, CriticalTag, 'c');
      }
      assert head[|head| - 1] in NatToString(d);
      NotContainsAcross(head, RuntimeWarningTail, CriticalTag);
    }
  }

  lemma WarningTailLacksC()
    ensures 'c' !in RuntimeWarningTail
  {
    assert 'c' !in "天 - " && 'c' !in WarningTag && 'c' !in " (32-62天，需要关注)";
  }

  /** The head of an uptime alert has no letter 'l', so no "alert-critical". */
  lemma HeadLacksCritical(role: Role, d: nat, head: string)
    requires head == RoleName(role) + "数据库运行时间: " + NatToString(d)
    ensures !Contains(head, CriticalTag)
  {
    var lead := RoleName(role) + "数据库运行时间: ";
    assert 'l' !in lead;
    DigitsHaveNo(NatToString(d), 'l');
    assert 'l' !in head;
    NotContainsByChar(head, CriticalTag, 'l');
  }

  lemma TagInTail(head: string, tail: string, tag: string, at: nat)
    requires at + |tag| <= |tail| && tail[at..at + |tag|] == tag
    ensures Contains(head + tail, tag)
  {
    var s := head + tail;
    assert s[|head| + at..|head| + at + |tag|] == tail[at..at + |tag|];
    assert OccursAt(s, tag, |head| + at);
  }

  /** On a text whose first digits are `digits` followed by 天, the day
      count is their value. */
  lemma DayCountOf(pre: string, digits: string, post: string)
    requires digits != [] && AllDigits(digits) && post != [] && post[0] == '天'
    requires NoDigits(pre)
    ensures DayCount(pre + digits + post) == Some(DigitsValue(digits))
  {
    var s := pre + digits + post;
    var e := |pre| + |digits|;
    RunEndFrom(s, |pre|, e);
    assert s[|pre|..e] == digits;
    assert DaysMatchAt(s, |pre|);
    assert forall k :: 0 <= k < |pre| ==> s[k] == pre[k];
    var r := DaysMatchStart(s, 0);
    assert r == Some(|pre|);
  }

  lemma {:induction false} RunEndFrom(s: string, i: nat, e: nat)
    requires i <= e < |s| && AllDigits(s[i..e]) && !IsDigit(s[e])
    ensures DigitRunEnd(s, i) == e
    decreases e - i
  {
    if i < e {
      assert s[i] == s[i..e][0];
      assert s[i + 1..e] == s[i..e][1..];
      RunEndFrom(s, i + 1, e);
    }
  }

  lemma LabelHasNoDigits(role: Role)
    ensures NoDigits(RuntimeLabel(role))
  {
    var t := RuntimeLabel(role);
    forall k | 0 <= k < |t|
      ensures !IsDigit(t[k])
    {
      assert t[k] in t;
    }
  }

  lemma StatusLacksS(d: int)
    ensures 'S' !in TimeStatusWithColor(d)
  {
    assert 'S' !in "<span style='color: " && 'S' !in "; font-weight: bold;'>" && 'S' !in "</span>";
    match UptimeBand(d)
    case Normal =>
      assert 'S' !in "green" && 'S' !in "状态正常";
    case NeedsAttention =>
      assert 'S' !in "orange" && 'S' !in "需要关注";
    case RestartAdvised =>
      assert 'S' !in "red" && 'S' !in "立即关注，建议立即重启服务器以释放资源";
  }

  /** The runtime rule reads back the day count of an uptime line, without its
      sign, and for a non-negative count its alert agrees with the colour band:
      none exactly in the normal band, critical exactly in the restart band. */
  lemma RuntimeRuleAgreesWithBand(role: Role, d: int)
    ensures RuntimeLineAlert(UptimeLine(role, d)) == RuntimeMessage(role, if d < 0 then -d else d)
    ensures d >= 0 ==> (RuntimeLineAlert(UptimeLine(role, d)).None? <==> UptimeBand(d) == Normal)
    ensures d >= 0 ==> (RuntimeLineAlert(UptimeLine(role, d)).Some? && Contains(RuntimeLineAlert(UptimeLine(role, d)).value, CriticalTag)
      <==> UptimeBand(d) == RestartAdvised)
  {
    var n: nat := if d < 0 then -d else d;
    var line := UptimeLine(role, d);
    LineReadsBack(role, d);
    RoleMarker(role, d, line);
    RuntimeMessageTag(role, n);
  }

  /** An uptime line holds 天 and its day count is the magnitude of the days. */
  lemma LineReadsBack(role: Role, d: int)
    ensures Contains(UptimeLine(role, d), "天")
    ensures DayCount(UptimeLine(role, d)) == Some(if d < 0 then -d else d)
  {
    var sign := if d < 0 then "-" else "";
    UptimeLineParts(role, d);
    LabelHasNoDigits(role);
    LeadHasNoDigits(RuntimeLabel(role), sign);
    DayCountOf("   " + RuntimeLabel(role) + " " + sign, NatToString(if d < 0 then -d else d), "天 " + TimeStatusWithColor(d));
    TianAfter("   " + RuntimeLabel(role) + " " + sign + NatToString(if d < 0 then -d else d), TimeStatusWithColor(d));
  }

  /** The uptime line of a role, split where the digits start. */
  lemma UptimeLineParts(role: Role, d: int)
    ensures var sign := if d < 0 then "-" else "";
      UptimeLine(role, d) == ("   " + RuntimeLabel(role) + " " + sign) + NatToString(if d < 0 then -d else d) + ("天 " + TimeStatusWithColor(d))
  {
  }

  lemma LeadHasNoDigits(name: string, sign: string)
    requires NoDigits(name) && (sign == "" || sign == "-")
    ensures NoDigits("   " + name + " " + sign)
  {
    NoDigitsConcat("   ", name);
    NoDigitsConcat("   " + name, " ");
    NoDigitsConcat("   " + name + " ", sign);
  }

  lemma TianAfter(a: string, st: string)
    ensures Contains(a + ("天 " + st), "天")
  {
    ContainsMiddle(a, "天", " " + st);
    assert a + "天" + (" " + st) == a + ("天 " + st);
  }

  predicate NoDigits(s: string) {
    forall k :: 0 <= k < |s| ==> !IsDigit(s[k])
  }

  lemma NoDigitsConcat(a: string, b: string)
    requires NoDigits(a) && NoDigits(b)
    ensures NoDigits(a + b)
  {
    forall k | 0 <= k < |a + b|
      ensures !IsDigit((a + b)[k])
    {
      if k >= |a| {
        assert (a + b)[k] == b[k - |a|];
      }
    }
  }

  /** An uptime line holds its own role's marker, and a production line does
      not hold the standby marker. */
  lemma RoleMarker(role: Role, d: int, line: string)
    requires line == UptimeLine(role, d)
    ensures role == Standby ==> Contains(line, StandbyRuntimeMarker)
    ensures role == Production ==> !Contains(line, StandbyRuntimeMarker) && Contains(line, ProductionRuntimeMarker)
  {
    MarkerIn(RuntimeLabel(role), d, TimeStatusWithColor(d));
    if role == Production {
      assert 'S' !in line by {
        StatusLacksS(d);
        assert RuntimeLabel(role) == "Production" + "数据库运行时间:";
        assert 'S' !in "Production" && 'S' !in "数据库运行时间:";
        MarkerLacks(RuntimeLabel(role), d, TimeStatusWithColor(d), 'S');
      }
      assert StandbyRuntimeMarker[0] == 'S';
      NotContainsByChar(line, StandbyRuntimeMarker, 'S');
    }
  }

  lemma MarkerIn(name: string, d: int, st: string)
    ensures Contains("   " + name + " " + IntToString(d) + "天 " + st, name)
  {
    var tail := " " + IntToString(d) + "天 " + st;
    assert "   " + name + " " + IntToString(d) + "天 " + st == "   " + name + tail;
    ContainsMiddle("   ", name, tail);
  }

  /** A letter in neither the label nor the status is not on the uptime line. */
  lemma MarkerLacks(name: string, d: int, st: string, c: char)
    requires 'A' <= c <= 'Z' && c !in name && c !in st
    ensures c !in "   " + name + " " + IntToString(d) + "天 " + st
  {
    var n: nat := if d < 0 then -d else d;
    DigitsHaveNo(NatToString(n), c);
  }

  // ---------------------------------------------------------------------------
  // _check_status_alert

  const StandbyStatusAlert: string := "Standby数据库STATUS异常 - " + CriticalTag + " (STATUS应为MOUNTED状态)"
  const ProductionStatusAlert: string := "Production数据库STATUS异常 - " + CriticalTag + " (STATUS应为OPEN状态)"

  /** A line naming a database and STATUS (any case) raises an alert unless
      it also says MOUNTED (standby) or OPEN (production). */
  function StatusLineAlert(line: string): Option<string> {
    if Contains(line, "Standby Database") && Contains(Upper(line), "STATUS") then
      if !Contains(Upper(line), "MOUNTED") then Some(StandbyStatusAlert) else None
    else if Contains(line, "Production Database") && Contains(Upper(line), "STATUS") then
      if !Contains(Upper(line), "OPEN") then Some(ProductionStatusAlert) else None
    else None
  }

  /** What a line needs to raise each of the two status alerts. */
  lemma StatusLineAlertMeaning(line: string)
    ensures StatusLineAlert(line).Some? ==> Contains(Upper(line), "STATUS")
    ensures StatusLineAlert(line) == Some(StandbyStatusAlert) ==>
      Contains(line, "Standby Database") && !Contains(Upper(line), "MOUNTED")
    ensures StatusLineAlert(line) == Some(ProductionStatusAlert) ==>
      Contains(line, "Production Database") && !Contains(Upper(line), "OPEN") && !Contains(line, "Standby Database")
    ensures StatusLineAlert(line).None? || StatusLineAlert(line) == Some(StandbyStatusAlert)
      || StatusLineAlert(line) == Some(ProductionStatusAlert)
  {
    assert StandbyStatusAlert[0] != ProductionStatusAlert[0];
  }

  /** The alert of the first line that raises one. */
  function FirstStatusAlert(lines: seq<string>): (r: Option<string>)
    ensures r.None? <==> forall k :: 0 <= k < |lines| ==> StatusLineAlert(lines[k]).None?
    ensures r.Some? ==> exists i :: (0 <= i < |lines| && StatusLineAlert(lines[i]) == r
      && forall k :: 0 <= k < i ==> StatusLineAlert(lines[k]).None?)
  {
    if lines == [] then None
    else if StatusLineAlert(lines[0]).Some? then StatusLineAlert(lines[0])
    else
      var r := FirstStatusAlert(lines[1..]);
      assert forall k :: 1 <= k < |lines| ==> lines[k] == lines[1..][k - 1];
      r
  }

  function StatusAlert(h: Option<string>): (r: Option<string>)
    ensures !Present(h) ==> r.None?
    ensures Present(h) ==> r == FirstStatusAlert(AnalysisLines(h))
  {
    if !Present(h) then None else FirstStatusAlert(AnalysisLines(h))
  }

  lemma UpperConcat(a: string, b: string)
    ensures Upper(a + b) == Upper(a) + Upper(b)
  {
  }

  /** An upper-case letter is absent from Upper(s) when s has it in neither
      case. */
  lemma UpperAvoids(s: string, c: char)
    requires 'A' <= c <= 'Z' && c !in s && (c as int + 32) as char !in s
    ensures c !in Upper(s)
  {
    forall k | 0 <= k < |s|
      ensures Upper(s)[k] != c
    {
      assert s[k] in s;
    }
  }

  /** The heading line of the standby block mentions no STATUS. */
  lemma StandbyHeadingSilent()
    ensures StatusLineAlert(StandbyInfoHeading).None?
  {
    UpperAvoids(StandbyInfoHeading, 'U');
    NotContainsByChar(Upper(StandbyInfoHeading), "STATUS", 'U');
  }

  /** Nor does the heading line of the production block. */
  lemma ProductionHeadingSilent()
    ensures StatusLineAlert(ProductionHeadingLine).None?
  {
    var a, b := " Production", " Database 主库信息:";
    assert ProductionHeadingLine == a + b;
    UpperConcat(a, b);
    UpperPartsLackStatus(a, b);
    NotContainsAcross(Upper(a), Upper(b), "STATUS");
  }

  lemma UpperPartsLackStatus(a: string, b: string)
    requires a == " Production" && b == " Database 主库信息:"
    ensures !Contains(Upper(a), "STATUS") && !Contains(Upper(b), "STATUS")
    ensures Upper(a) != [] && Upper(a)[|Upper(a)| - 1] !in "STATUS"
  {
    UpperAvoids(a, 'S');
    NotContainsByChar(Upper(a), "STATUS", 'S');
    UpperAvoids(b, 'U');
    NotContainsByChar(Upper(b), "STATUS", 'U');
  }

  /** A field name written in capitals and spaces. */
  predicate CapitalKey(key: string) {
    forall i :: 0 <= i < |key| ==> ('A' <= key[i] <= 'Z') || key[i] == ' '
  }

  /** A field value that stays on one line and names no database role. */
  predicate PlainValue(v: string) {
    '\n' !in v && !Contains(v, "Standby Database") && !Contains(v, "Production Database")
  }

  /** A field line names no database, so it raises no status alert. */
  lemma FieldLineSilent(key: string, v: string)
    requires CapitalKey(key) && PlainValue(v)
    ensures StatusLineAlert("   " + key + ": " + v).None?
    ensures '\n' !in "   " + key + ": " + v
  {
    var a := "   " + key + ":";
    assert 'y' !in a && 'o' !in a && '\n' !in a by {
      forall i | 0 <= i < |a|
        ensures a[i] != 'y' && a[i] != 'o' && a[i] != '\n'
      {
        if 3 <= i < 3 + |key| {
          assert a[i] == key[i - 3];
        }
      }
    }
    assert "   " + key + ": " + v == a + (" " + v);
    assert !Contains(a + (" " + v), "Standby Database") by {
      NotContainsByChar(a, "Standby Database", 'y');
      NotContainsCons(' ', v, "Standby Database");
      NotContainsAcross(a, " " + v, "Standby Database");
    }
    assert !Contains(a + (" " + v), "Production Database") by {
      NotContainsByChar(a, "Production Database", 'o');
      NotContainsCons(' ', v, "Production Database");
      NotContainsAcross(a, " " + v, "Production Database");
    }
  }

  /** No line of the list raises a status alert. */
  predicate Silent(lines: seq<string>) {
    forall k :: 0 <= k < |lines| ==> StatusLineAlert(lines[k]).None?
  }

  /** No line of the list holds a newline. */
  predicate OneLineEach(lines: seq<string>) {
    forall k :: 0 <= k < |lines| ==> '\n' !in lines[k]
  }

  lemma FieldLinesSilent(keys: seq<string>, values: seq<string>)
    requires |keys| == |values|
    requires forall k :: 0 <= k < |keys| ==> CapitalKey(keys[k]) && PlainValue(values[k])
    ensures Silent(FieldLines(keys, values)) && OneLineEach(FieldLines(keys, values))
  {
    forall k | 0 <= k < |keys|
      ensures StatusLineAlert(FieldLines(keys, values)[k]).None?
      ensures '\n' !in FieldLines(keys, values)[k]
    {
      FieldLineSilent(keys[k], values[k]);
    }
  }

  lemma KeysAreCapitals()
    ensures forall k :: 0 <= k < |StandbyKeys| ==> CapitalKey(StandbyKeys[k])
    ensures forall k :: 0 <= k < |ProductionKeys| ==> CapitalKey(ProductionKeys[k])
  {
  }

  /** The status rule never fires on the two information blocks as the
      extractors write them: each block puts its heading and its STATUS field
      on separate lines, and the rule needs the role and STATUS on one line. */
  lemma InfoBlocksRaiseNoStatusAlert(sv: seq<string>, pv: seq<string>)
    requires |sv| == |StandbyKeys| && |pv| == |ProductionKeys|
    requires forall k :: 0 <= k < |sv| ==> PlainValue(sv[k])
    requires forall k :: 0 <= k < |pv| ==> PlainValue(pv[k])
    ensures StatusAlert(Some(Join(
      Part(StandbyInfoHeading, Some(Join(FieldLines(StandbyKeys, sv), "\n")))
      + Part(ProductionInfoHeading, Some(Join(FieldLines(ProductionKeys, pv), "\n"))), "\n"))).None?
  {
    var l1 := FieldLines(StandbyKeys, sv);
    var l2 := FieldLines(ProductionKeys, pv);
    var pl := ProductionHeadingLine;
    var text := Join(Part(StandbyInfoHeading, Some(Join(l1, "\n"))) + Part("\n" + pl, Some(Join(l2, "\n"))), "\n");
    var lines := [StandbyInfoHeading] + (l1 + ([""] + ([pl] + l2)));
    assert Silent(l1) && Silent(l2) && OneLineEach(l1) && OneLineEach(l2) by {
      KeysAreCapitals();
      FieldLinesSilent(StandbyKeys, sv);
      FieldLinesSilent(ProductionKeys, pv);
    }
    assert Split(text, '\n') == lines by {
      HeadingsOneLine();
      assert l1[0] != [] && l2[0] != [];
      BlocksSplit(StandbyInfoHeading, l1, pl, l2);
    }
    assert Silent(lines) by {
      StandbyHeadingSilent();
      ProductionHeadingSilent();
      SilentConcat([""], [pl], l2);
      SilentConcat([StandbyInfoHeading], l1, [""] + ([pl] + l2));
    }
  }

  lemma HeadingsOneLine()
    ensures '\n' !in StandbyInfoHeading && '\n' !in ProductionHeadingLine
  {
  }

  lemma SilentConcat(a: seq<string>, b: seq<string>, c: seq<string>)
    requires Silent(a) && Silent(b) && Silent(c)
    ensures Silent(a + (b + c))
  {
    var s := a + (b + c);
    forall k | 0 <= k < |s|
      ensures StatusLineAlert(s[k]).None?
    {
      if k < |a| {
        assert s[k] == a[k];
      } else if k < |a| + |b| {
        assert s[k] == b[k - |a|];
      } else {
        assert s[k] == c[k - |a| - |b|];
      }
    }
  }

  /** The two blocks joined under their headings split back into all
      their lines, with an empty line before the production heading. */
  lemma BlocksSplit(h1: string, l1: seq<string>, pl: string, l2: seq<string>)
    requires '\n' !in h1 && '\n' !in pl && OneLineEach(l1) && OneLineEach(l2)
    requires l1 != [] && l2 != [] && l1[0] != [] && l2[0] != []
    ensures var text := Join(Part(h1, Some(Join(l1, "\n"))) + Part("\n" + pl, Some(Join(l2, "\n"))), "\n");
      Split(text, '\n') == [h1] + (l1 + ([""] + ([pl] + l2)))
  {
    var b1, b2 := Join(l1, "\n"), Join(l2, "\n");
    var t2 := "\n" + pl + "\n" + b2;
    var t1 := b1 + "\n" + t2;
    assert Join(Part(h1, Some(b1)) + Part("\n" + pl, Some(b2)), "\n") == h1 + "\n" + t1 by {
      JoinStarts(l1, "\n");
      JoinStarts(l2, "\n");
      assert Part(h1, Some(b1)) + Part("\n" + pl, Some(b2)) == [h1, b1, "\n" + pl, b2];
      Join4(h1, b1, "\n" + pl, b2, "\n");
    }
    assert Split(t1, '\n') == l1 + ([""] + ([pl] + l2)) by {
      SecondBlockSplit(pl, l2);
      SplitJoinAppend(l1, '\n', t2);
    }
    SplitAfter(h1, '\n', t1);
  }

  /** The production block, after the newline that ends the standby block,
      splits into an empty line, its heading and its lines. */
  lemma SecondBlockSplit(pl: string, l2: seq<string>)
    requires '\n' !in pl && OneLineEach(l2) && l2 != []
    ensures Split("\n" + pl + "\n" + Join(l2, "\n"), '\n') == [""] + ([pl] + l2)
  {
    var b2 := Join(l2, "\n");
    var t3 := pl + "\n" + b2;
    assert Split(t3, '\n') == [pl] + l2 by {
      SplitAfter(pl, '\n', b2);
      SplitJoin(l2, '\n');
    }
    assert "\n" + pl + "\n" + b2 == ['\n'] + t3;
    SplitLeading('\n', t3);
  }

  /** A leading separator splits off an empty piece. */
  lemma SplitLeading(c: char, y: string)
    ensures Split([c] + y, c) == [""] + Split(y, c)
  {
    var s := [c] + y;
    assert FindChar(s, c, 0) == Some(0);
    assert s[1..] == y;
  }

  lemma Join4(a: string, b: string, c: string, d: string, sep: string)
    ensures Join([a, b, c, d], sep) == a + sep + (b + sep + (c + sep + d))
  {
    assert [c, d][1..] == [d];
    assert Join([c, d], sep) == c + sep + d;
    assert [b, c, d][1..] == [c, d];
    assert Join([b, c, d], sep) == b + sep + Join([c, d], sep);
    assert [a, b, c, d][1..] == [b, c, d];
  }

  lemma JoinStarts(parts: seq<string>, sep: string)
    requires parts != []
    ensures |Join(parts, sep)| >= |parts[0]|
  {
  }
  // ---------------------------------------------------------------------------
  // _check_backup_time_alert

  const EndTimeMarker: string := "END_TIME:"
  const SystemDateMarker: string := "SYSTEM DATE:"
  const BackupAlertMessage: string := "RMAN备份故障，请立即检查 - " + CriticalTag + " (备份时间超过48小时)"

  /** `{marker}\s*([^\n]+)` searched in a line without newlines, the group
      stripped: the text after the first occurrence of the marker, stripped,
      provided at least one character follows it (when only whitespace
      follows, the greedy \s* gives one character back and the stripped group
      is empty). */
  function MarkerValue(line: string, marker: string): (r: Option<string>)
    requires '\n' !in line
    ensures r.Some? ==> Contains(line, marker)
  {
    match Find(line, marker, 0)
    case None => None
    case Some(i) => if i + |marker| < |line| then Some(Strip(line[i + |marker|..])) else None
  }

  /** The END_TIME and SYSTEM DATE values after the lines, scanning in line
      order: a line holding END_TIME: is read for it alone, and a value that
      is found replaces the one before. */
  function BackupTimes(lines: seq<string>): (r: (Option<string>, Option<string>))
    requires OneLineEach(lines)
    decreases |lines|
  {
    if lines == [] then (None, None)
    else
      assert OneLineEach(lines[..|lines| - 1]);
      BackupStep(BackupTimes(lines[..|lines| - 1]), lines[|lines| - 1])
  }

  /** The values after one more line. */
  function BackupStep(prev: (Option<string>, Option<string>), line: string): (r: (Option<string>, Option<string>))
    requires '\n' !in line
  {
    if Contains(line, EndTimeMarker) then
      match MarkerValue(line, EndTimeMarker)
      case None => prev
      case Some(v) => (Some(v), prev.1)
    else if Contains(line, SystemDateMarker) then
      match MarkerValue(line, SystemDateMarker)
      case None => prev
      case Some(v) => (prev.0, Some(v))
    else prev
  }

  /** A line that sets the END_TIME value. */
  predicate SetsEndTime(line: string)
    requires '\n' !in line
  {
    Contains(line, EndTimeMarker) && MarkerValue(line, EndTimeMarker).Some?
  }

  /** A line that sets the SYSTEM DATE value. */
  predicate SetsSystemDate(line: string)
    requires '\n' !in line
  {
    !Contains(line, EndTimeMarker) && Contains(line, SystemDateMarker) && MarkerValue(line, SystemDateMarker).Some?
  }

  /** A line that sets the END_TIME value (`end`) or the SYSTEM DATE value. */
  predicate Sets(line: string, end: bool)
    requires '\n' !in line
  {
    if end then SetsEndTime(line) else SetsSystemDate(line)
  }

  /** The marker of the END_TIME value (`end`) or of the SYSTEM DATE value. */
  function Marker(end: bool): string {
    if end then EndTimeMarker else SystemDateMarker
  }

  /** The END_TIME value (`end`) or the SYSTEM DATE value of a pair. */
  function Pick(p: (Option<string>, Option<string>), end: bool): Option<string> {
    if end then p.0 else p.1
  }

  /** One line changes a value exactly when it sets it, and then to what
      follows its marker. */
  lemma BackupStepMeaning(prev: (Option<string>, Option<string>), line: string, end: bool)
    requires '\n' !in line
    ensures Pick(BackupStep(prev, line), end) == if Sets(line, end) then MarkerValue(line, Marker(end)) else Pick(prev, end)
  {
  }

  /** The last of the first n lines that sets the value. */
  function LastSetting(lines: seq<string>, n: nat, end: bool): (r: Option<nat>)
    requires OneLineEach(lines) && n <= |lines|
    ensures r.Some? ==> r.value < n && Sets(lines[r.value], end)
    ensures forall k :: (if r.Some? then r.value < k else 0 <= k) && k < n ==> !Sets(lines[k], end)
  {
    if n == 0 then None
    else if Sets(lines[n - 1], end) then Some(n - 1)
    else LastSetting(lines, n - 1, end)
  }

  /** The last occurrence of each value wins: each is read from the last
      line that sets it, and is None when no line does. */
  lemma {:induction false} BackupTimesLast(lines: seq<string>, end: bool)
    requires OneLineEach(lines)
    decreases |lines|
    ensures var e := LastSetting(lines, |lines|, end);
      Pick(BackupTimes(lines), end) == if e.None? then None else MarkerValue(lines[e.value], Marker(end))
  {
    if lines != [] {
      var n := |lines|;
      var init, line := lines[..n - 1], lines[n - 1];
      assert OneLineEach(init);
      var e := LastSetting(init, n - 1, end);
      assert Pick(BackupTimes(init), end) == if e.None? then None else MarkerValue(init[e.value], Marker(end)) by {
        BackupTimesLast(init, end);
      }
      assert LastSetting(lines, n - 1, end) == e by {
        LastSettingPrefix(lines, n - 1, end);
      }
      assert e.Some? ==> init[e.value] == lines[e.value];
      assert BackupTimes(lines) == BackupStep(BackupTimes(init), line);
      BackupStepMeaning(BackupTimes(init), line, end);
    }
  }

  /** LastSetting over the first n lines does not look past them. */
  lemma {:induction false} LastSettingPrefix(lines: seq<string>, n: nat, end: bool)
    requires OneLineEach(lines) && n <= |lines|
    decreases n
    ensures OneLineEach(lines[..n]) && LastSetting(lines[..n], n, end) == LastSetting(lines, n, end)
  {
    assert forall k :: 0 <= k < n ==> lines[..n][k] == lines[k];
    LastSettingAgree(lines[..n], lines, n, end);
  }

  /** LastSetting over the first n lines reads nothing past them. */
  lemma {:induction false} LastSettingAgree(a: seq<string>, b: seq<string>, n: nat, end: bool)
    requires OneLineEach(a) && OneLineEach(b) && n <= |a| && n <= |b|
    requires forall k :: 0 <= k < n ==> a[k] == b[k]
    decreases n
    ensures LastSetting(a, n, end) == LastSetting(b, n, end)
  {
    if n > 0 {
      LastSettingAgree(a, b, n - 1, end);
    }
  }

  /** The alert when both values are non-empty, both parse as
      "%d-%b-%Y %H:%M", and the system date is more than 48 hours after the
      end of the backup. */
  function BackupDecision(endTime: Option<string>, systemDate: Option<string>): (r: Option<string>)
    ensures r.Some? ==> r.value == BackupAlertMessage
  {
    if endTime.Some? && endTime.value != "" && systemDate.Some? && systemDate.value != "" then
      match (ParseStamp(endTime.value), ParseStamp(systemDate.value))
      case (Some(a), Some(b)) => if Minutes(b) - Minutes(a) > 48 * 60 then Some(BackupAlertMessage) else None
      case _ => None
    else None
  }

  function BackupAlert(h: Option<string>): (r: Option<string>)
    ensures !Present(h) ==> r.None?
    ensures r.Some? ==> r.value == BackupAlertMessage
  {
    if !Present(h) then None
    else
      var times := BackupTimes(AnalysisLines(h));
      BackupDecision(times.0, times.1)
  }

  /** On two formatted timestamps the rule fires exactly when more than 48
      hours (2880 minutes) separate them; exactly 48 hours raises nothing. */
  lemma BackupThreshold(a: Stamp, b: Stamp)
    requires ValidStamp(a) && ValidStamp(b)
    ensures BackupDecision(Some(FormatStamp(a)), Some(FormatStamp(b))).Some? <==> Minutes(b) - Minutes(a) > 2880
  {
    ParseFormat(a);
    ParseFormat(b);
  }

  /** A value that does not parse raises nothing. */
  lemma BackupNeedsParse(endTime: string, systemDate: string)
    requires ParseStamp(endTime).None? || ParseStamp(systemDate).None?
    ensures BackupDecision(Some(endTime), Some(systemDate)).None?
  {
  }

  /** Backups ending at 16:36 on 20 July 2025: a system date two days later
      at 15:36 (47 hours) or 16:36 (48 hours) raises nothing, one at 17:36
      (49 hours) raises the alert. */
  lemma BackupExamples(end: Stamp, at: Stamp)
    requires end == Stamp(2025, 7, 20, 16, 36)
    requires at.year == 2025 && at.month == 7 && at.day == 22 && at.minute == 36 && 15 <= at.hour <= 17
    ensures BackupDecision(Some(FormatStamp(end)), Some(FormatStamp(at))).Some? <==> at.hour == 17
  {
    assert ValidStamp(end) && ValidStamp(at);
    assert Ordinal(2025, 7, 22) == Ordinal(2025, 7, 20) + 2;
    BackupThreshold(end, at);
  }
  /** The rule reads back the values of the field lines the extractors
      write: an END_TIME line of the backup block followed by a SYSTEM DATE
      line of an information block, holding formatted timestamps. */
  lemma BackupReadsFieldLines(a: Stamp, b: Stamp)
    requires ValidStamp(a) && ValidStamp(b)
    ensures var lines := FieldLines(["END_TIME", "SYSTEM DATE"], [FormatStamp(a), FormatStamp(b)]);
      BackupAlert(Some(Join(lines, "\n"))).Some? <==> Minutes(b) - Minutes(a) > 2880
  {
    var fa, fb := FormatStamp(a), FormatStamp(b);
    StampTextShape(a);
    StampTextShape(b);
    var keys := ["END_TIME", "SYSTEM DATE"];
    var lines := FieldLines(keys, [fa, fb]);
    BackupKeyFacts();
    FieldLinesTimes(keys[0], keys[1], fa, fb);
    assert lines == [lines[0], lines[1]];
    assert lines[1..] == [lines[1]];
    TwoLines(lines[0], lines[1]);
    var text := Join(lines, "\n");
    JoinTwo(lines[0], lines[1], "\n");
    assert |text| > 0;
    assert BackupAlert(Some(text)) == BackupDecision(Some(fa), Some(fb));
    BackupThreshold(a, b);
  }

  /** The two keys the rule looks for, as the extractors write them. */
  lemma BackupKeyFacts()
    ensures "END_TIME" + ":" == EndTimeMarker && "SYSTEM DATE" + ":" == SystemDateMarker
    ensures '\n' !in "END_TIME" && '\n' !in "SYSTEM DATE" && '_' !in "SYSTEM DATE"
    ensures "END_TIME"[0] != ' ' && "SYSTEM DATE"[0] != ' '
  {
  }

  /** Two one-line texts joined by a newline split back into the two. */
  lemma TwoLines(l1: string, l2: string)
    requires '\n' !in l1 && '\n' !in l2
    ensures AnalysisLines(Some(l1 + "\n" + l2)) == [l1, l2]
  {
    SplitAfter(l1, '\n', l2);
    SplitJoin([l2], '\n');
    assert l1 + "\n" + l2 == l1 + ['\n'] + l2;
  }

  /** An END_TIME field line followed by a SYSTEM DATE field line yields
      the two values. */
  lemma FieldLinesTimes(endKey: string, dateKey: string, fa: string, fb: string)
    requires endKey + ":" == EndTimeMarker && dateKey + ":" == SystemDateMarker
    requires endKey[0] != ' ' && dateKey[0] != ' ' && '\n' !in endKey && '\n' !in dateKey && '_' !in dateKey
    requires fa != [] && !IsSpace(fa[0]) && !IsSpace(fa[|fa| - 1]) && '\n' !in fa
    requires fb != [] && !IsSpace(fb[0]) && !IsSpace(fb[|fb| - 1]) && '\n' !in fb && '_' !in fb
    ensures '\n' !in "   " + endKey + ": " + fa && '\n' !in "   " + dateKey + ": " + fb
    ensures BackupTimes(["   " + endKey + ": " + fa, "   " + dateKey + ": " + fb]) == (Some(fa), Some(fb))
  {
    var l1 := "   " + endKey + ": " + fa;
    var l2 := "   " + dateKey + ": " + fb;
    FieldMarkerValue(endKey, fa);
    FieldMarkerValue(dateKey, fb);
    FieldLineLacks(endKey, fa, '\n');
    FieldLineLacks(dateKey, fb, '\n');
    FieldLineLacks(dateKey, fb, '_');
    FindIffContains(l1, EndTimeMarker);
    FindIffContains(l2, SystemDateMarker);
    NotContainsByChar(l2, EndTimeMarker, '_');
    var lines := [l1, l2];
    assert SetsEndTime(lines[0]) && !SetsEndTime(lines[1]);
    assert SetsSystemDate(lines[1]);
    assert LastSetting(lines, 2, true) == Some(0);
    assert LastSetting(lines, 2, false) == Some(1);
    BackupTimesLast(lines, true);
    BackupTimesLast(lines, false);
  }

  /** A field line holds only its key's and its value's characters besides
      spaces and the colon. */
  lemma FieldLineLacks(key: string, v: string, c: char)
    requires c != ' ' && c != ':' && c !in key && c !in v
    ensures c !in "   " + key + ": " + v
  {
  }

  /** A character in neither part is not in their concatenation. */
  lemma NotInConcat(a: string, b: string, c: char)
    requires c !in a && c !in b
    ensures c !in a + b
  {
  }

  /** A formatted timestamp is one line, starts and ends with a digit, and
      has no underscore. */
  lemma StampTextShape(st: Stamp)
    requires ValidStamp(st)
    ensures var t := FormatStamp(st);
      t != [] && IsDigit(t[0]) && IsDigit(t[|t| - 1]) && '_' !in t && '\n' !in t
  {
    var t := FormatStamp(st);
    DigitsHaveNo(Pad2(st.day), '_');
    DigitsHaveNo(Pad4(st.year), '_');
    DigitsHaveNo(Pad2(st.hour), '_');
    DigitsHaveNo(Pad2(st.minute), '_');
    DigitsHaveNo(Pad2(st.day), '\n');
    DigitsHaveNo(Pad4(st.year), '\n');
    DigitsHaveNo(Pad2(st.hour), '\n');
    DigitsHaveNo(Pad2(st.minute), '\n');
    assert '_' !in MonthAbbreviations[st.month - 1] && '\n' !in MonthAbbreviations[st.month - 1];
    assert t[0] == Pad2(st.day)[0];
    assert t[|t| - 1] == Pad2(st.minute)[1];
  }

  /** In a field line `   {key}: {value}` the marker `{key}:` is found at
      the key, and the text after it, stripped, is the value. */
  lemma FieldMarkerValue(key: string, v: string)
    requires key != [] && key[0] != ' ' && '\n' !in key && '\n' !in v
    requires v != [] && !IsSpace(v[0]) && !IsSpace(v[|v| - 1])
    ensures MarkerValue("   " + key + ": " + v, key + ":") == Some(v)
  {
    var m := key + ":";
    var line := "   " + key + ": " + v;
    assert line == "   " + m + (" " + v);
    FindAfterSpaces("   ", m, " " + v);
    assert line[3 + |m|..] == " " + v;
    StripLeadingSpace(v);
  }

  /** A marker that does not start with a space is found first right after
      a run of spaces. */
  lemma FindAfterSpaces(pre: string, m: string, rest: string)
    requires m != [] && m[0] != ' ' && forall k :: 0 <= k < |pre| ==> pre[k] == ' '
    ensures Find(pre + m + rest, m, 0) == Some(|pre|)
    ensures Contains(pre + m + rest, m)
  {
    var line := pre + m + rest;
    ContainsMiddle(pre, m, rest);
    assert line[|pre|..|pre| + |m|] == m;
    forall k | 0 <= k < |pre|
      ensures !OccursAt(line, m, k)
    {
      assert line[k..k + |m|][0] == line[k] != m[0];
    }
    FindFirstAt(line, m, |pre|);
  }

  /** One leading space is stripped away from a value without space ends. */
  lemma StripLeadingSpace(v: string)
    requires v != [] && !IsSpace(v[0]) && !IsSpace(v[|v| - 1])
    ensures Strip(" " + v) == v
  {
    assert (" " + v)[1..] == v;
    assert StripStart(" " + v) == v;
    StripNoSpaceEnds(v);
  }

  /** Find reports an occurrence when none comes before it. */
  lemma FindFirstAt(s: string, p: string, i: nat)
    requires OccursAt(s, p, i)
    requires forall k :: 0 <= k < i ==> !OccursAt(s, p, k)
    ensures Find(s, p, 0) == Some(i)
  {
  }
  lemma JoinTwo(x: string, y: string, sep: string)
    ensures Join([x, y], sep) == x + sep + y
  {
    assert [x, y][1..] == [y];
  }
  // ---------------------------------------------------------------------------
  // _check_capacity_alert

  /** The end of the run of [\d.] characters that starts at i. */
  function NumRunEnd(s: string, i: nat): (r: nat)
    requires i <= |s|
    decreases |s| - i
    ensures i <= r <= |s| && AllNumChars(s[i..r])
    ensures r == |s| || !IsNumChar(s[r])
  {
    if i < |s| && IsNumChar(s[i]) then NumRunEnd(s, i + 1) else i
  }

  /** `整体使用率:\s*([\d.]+)%` matches at i: the label, then spaces, then a
      non-empty greedy run of digits and dots followed by '%' (neither \s*
      nor the run can give characters back usefully, so this is the only
      way to match there). */
  predicate UsageMatchAt(s: string, i: nat) {
    OccursAt(s, OverallUsageLabel, i) &&
    var a := SkipSpace(s, i + |OverallUsageLabel|);
    a < |s| && IsNumChar(s[a]) && NumRunEnd(s, a) < |s| && s[NumRunEnd(s, a)] == '%'
  }

  /** The leftmost position at or after i where the pattern matches. */
  function UsageMatchFrom(s: string, i: nat): (r: Option<nat>)
    requires i <= |s|
    decreases |s| - i
    ensures r.Some? ==> i <= r.value < |s| && UsageMatchAt(s, r.value)
    ensures forall k :: i <= k < |s| && (r.None? || k < r.value) ==> !UsageMatchAt(s, k)
  {
    if i == |s| then None
    else if UsageMatchAt(s, i) then Some(i)
    else UsageMatchFrom(s, i + 1)
  }

  /** match.group(1) of the usage pattern on one line, when the line passes
      the `整体使用率:` and `%` pre-check and the pattern matches. */
  function UsageText(line: string): (r: Option<string>)
    ensures r.Some? ==> r.value != [] && AllNumChars(r.value) && Contains(line, OverallUsageLabel)
  {
    if Contains(line, OverallUsageLabel) && Contains(line, "%") then
      match UsageMatchFrom(line, 0)
      case None => None
      case Some(i) =>
        var a := SkipSpace(line, i + |OverallUsageLabel|);
        Some(line[a..NumRunEnd(line, a)])
    else None
  }

  const CapacityCriticalTail: string := "% - " + CriticalTag + " (超过80%)"
  const CapacityWarningTail: string := "% - " + WarningTag + " (超过70%)"

  /** The capacity alert for a usage of u percent, the usage written with
      two decimals. */
  function CapacityMessage(u: real, critical: bool): string
    requires u >= 0.0
  {
    "容量使用率: " + Hundredths(RoundHundredths(u)) + (if critical then CapacityCriticalTail else CapacityWarningTail)
  }

  /** A line whose usage is above 70 percent: it ends the scan with an
      alert. */
  predicate UsageAlarms(line: string) {
    UsageText(line).Some? && DecimalValue(UsageText(line).value).Some? && DecimalValue(UsageText(line).value).value > 70.0
  }

  /** A line whose usage text float() rejects: the handler ends the scan
      with no alert. */
  predicate UsageUnreadable(line: string) {
    UsageText(line).Some? && DecimalValue(UsageText(line).value).None?
  }

  /** The scan over the lines: the first line whose usage is above 70
      raises critical above 80 and warning otherwise; an unreadable usage
      ends the scan with nothing; other lines are passed over. */
  function CapacityScan(lines: seq<string>): (r: Option<string>)
    decreases |lines|
  {
    if lines == [] then None
    else
      match UsageText(lines[0])
      case None => CapacityScan(lines[1..])
      case Some(g) =>
        match DecimalValue(g)
        case None => None
        case Some(u) =>
          if u > 80.0 then Some(CapacityMessage(u, true))
          else if u > 70.0 then Some(CapacityMessage(u, false))
          else CapacityScan(lines[1..])
  }

  function CapacityAlert(h: Option<string>): (r: Option<string>)
    ensures !Present(h) ==> r.None?
  {
    if !Present(h) then None else CapacityScan(AnalysisLines(h))
  }

  /** A line that ends the scan: its usage is above 70, or unreadable. */
  predicate UsageStops(line: string) {
    UsageAlarms(line) || UsageUnreadable(line)
  }

  /** The first line at or after j that ends the scan. */
  function FirstStop(lines: seq<string>, j: nat): (r: Option<nat>)
    requires j <= |lines|
    decreases |lines| - j
    ensures r.Some? ==> j <= r.value < |lines| && UsageStops(lines[r.value])
    ensures forall k :: j <= k < |lines| && (r.None? || k < r.value) ==> !UsageStops(lines[k])
  {
    if j == |lines| then None
    else
      var stops := UsageStops(lines[j]);
      if stops then Some(j)
      else
        var r := FirstStop(lines, j + 1);
        assert forall k :: j < k < |lines| && (r.None? || k < r.value) ==> !UsageStops(lines[k]);
        r
  }

  /** What a line that ends the scan yields: nothing when its usage is
      unreadable, else the alert, critical exactly above 80. */
  function StopAlert(line: string): (r: Option<string>)
    requires UsageStops(line)
  {
    if UsageUnreadable(line) then None
    else
      var u := DecimalValue(UsageText(line).value).value;
      Some(CapacityMessage(u, u > 80.0))
  }

  /** The scan is decided by the first line that ends it: lines whose usage
      is at most 70, or that have no usage, are passed over, and no line
      ending it means no alert. */
  lemma {:induction false} CapacityScanStops(lines: seq<string>, j: nat)
    requires j <= |lines|
    decreases |lines| - j
    ensures CapacityScan(lines[j..]) == match FirstStop(lines, j) case None => None case Some(i) => StopAlert(lines[i])
  {
    if j < |lines| {
      assert lines[j..][0] == lines[j];
      assert lines[j..][1..] == lines[j + 1..];
      if !UsageStops(lines[j]) {
        CapacityScanStops(lines, j + 1);
      }
    }
  }
  /** A critical capacity alert carries "alert-critical"; a warning one
      carries "alert-warning" and not "alert-critical". */
  lemma CapacityMessageTag(u: real, critical: bool)
    requires u >= 0.0
    ensures critical ==> Contains(CapacityMessage(u, critical), CriticalTag)
    ensures !critical ==>
      Contains(CapacityMessage(u, critical), WarningTag) && !Contains(CapacityMessage(u, critical), CriticalTag)
  {
    var head := "容量使用率: " + Hundredths(RoundHundredths(u));
    var tail := if critical then CapacityCriticalTail else CapacityWarningTail;
    assert CapacityMessage(u, critical) == head + tail;
    if critical {
      TagInTail(head, tail, CriticalTag, 4);
    } else {
      TagInTail(head, tail, WarningTag, 4);
      var h := Hundredths(RoundHundredths(u));
      NotInConcat("容量使用率: ", h, 'l');
      NotContainsByChar(head, CriticalTag, 'l');
      NotContainsByChar(tail, CriticalTag, 'c');
      assert head[|head| - 1] == h[|h| - 1];
      NotContainsAcross(head, tail, CriticalTag);
    }
  }

  lemma {:induction false} NumRunEndFrom(s: string, i: nat, e: nat)
    requires i <= e < |s| && AllNumChars(s[i..e]) && !IsNumChar(s[e])
    ensures NumRunEnd(s, i) == e
    decreases e - i
  {
    if i < e {
      assert s[i] == s[i..e][0];
      assert s[i + 1..e] == s[i..e][1..];
      NumRunEndFrom(s, i + 1, e);
    }
  }

  /** On the overall-usage line that the tablespace statistics write, the
      pattern reads back the usage text. */
  lemma UsageLineReads(n: nat)
    ensures UsageText(UsageLine(n)) == Some(Hundredths(n))
  {
    var line, h := UsageLine(n), Hundredths(n);
    var m := |OverallUsageLabel|;
    assert line == OverallUsageLabel + (" " + h + "%");
    ContainsMiddle([], OverallUsageLabel, " " + h + "%");
    assert [] + OverallUsageLabel + (" " + h + "%") == line;
    assert OccursAt(line, OverallUsageLabel, 0);
    assert OccursAt(line, "%", |line| - 1);
    assert line[m] == ' ' && line[m + 1] == h[0];
    assert SkipSpace(line, m + 1) == m + 1;
    assert SkipSpace(line, m) == m + 1;
    assert line[m + 1..m + 1 + |h|] == h;
    NumRunEndFrom(line, m + 1, m + 1 + |h|);
    assert UsageMatchAt(line, 0);
  }

  /** The nearest hundredths of n / 100 is n. */
  lemma RoundExact(n: nat)
    ensures RoundHundredths(n as real / 100.0) == n
  {
    assert n as real / 100.0 * 100.0 + 0.5 == n as real + 0.5;
  }

  /** Fed the overall-usage line followed by other lines, the rule raises
      a critical alert above 80 percent and a warning above 70 up to 80, and
      at 70 or below it goes on to the following lines. */
  lemma UsageLineAlert(n: nat, rest: seq<string>)
    ensures var u := n as real / 100.0;
      CapacityScan([UsageLine(n)] + rest) ==
        if n > 8000 then Some(CapacityMessage(u, true))
        else if n > 7000 then Some(CapacityMessage(u, false))
        else CapacityScan(rest)
  {
    var lines := [UsageLine(n)] + rest;
    UsageLineReads(n);
    HundredthsRoundTrip(n);
    assert lines[0] == UsageLine(n) && lines[1..] == rest;
    var u := n as real / 100.0;
    assert (u > 80.0) == (n > 8000) && (u > 70.0) == (n > 7000);
  }

  /** At exactly 80.00 percent the alert is a warning, carrying the usage
      as 80.00; at exactly 70.00 percent nothing is raised. */
  lemma CapacityBoundaries(rest: seq<string>)
    ensures CapacityScan([UsageLine(8000)] + rest) == Some(CapacityMessage(80.0, false))
    ensures CapacityScan([UsageLine(7000)] + rest) == CapacityScan(rest)
    ensures CapacityScan([UsageLine(8001)] + rest) == Some(CapacityMessage(80.01, true))
  {
    UsageLineAlert(8000, rest);
    UsageLineAlert(7000, rest);
    UsageLineAlert(8001, rest);
    assert 8000 as real / 100.0 == 80.0;
    assert 8001 as real / 100.0 == 80.01;
  }
  /** With no line holding the overall-usage label the rule raises nothing:
      the label is written only by the tablespace statistics, which the rule
      is not given. */
  lemma CapacityNeedsLabel(h: Option<string>)
    requires Present(h) ==> forall k :: 0 <= k < |AnalysisLines(h)| ==> !Contains(AnalysisLines(h)[k], OverallUsageLabel)
    ensures CapacityAlert(h).None?
  {
    if Present(h) {
      var lines := AnalysisLines(h);
      CapacityScanStops(lines, 0);
      assert lines[0..] == lines;
      assert forall k :: 0 <= k < |lines| ==> UsageText(lines[k]).None?;
    }
  }
}
