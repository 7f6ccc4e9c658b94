/** The composition steps of the standalone monitor's report: the
    escalation of the alert level over the four rules and the keyword check,
    the alert lines it writes, the keyword heuristics for performance and
    risk, and the closing summary. */
module Analysis {
  import opened Text
  import opened AlertRules
  import opened Tablespace

  // ---------------------------------------------------------------------------
  // _analyze_alert_levels

  datatype AlertLevel = NormalLevel | WarningLevel | CriticalLevel

  function Rank(l: AlertLevel): nat {
    match l
    case NormalLevel => 0
    case WarningLevel => 1
    case CriticalLevel => 2
  }

  /** The level and the two issue lists as the escalation has left them. */
  datatype Escalation = Escalation(level: AlertLevel, critical: seq<string>, warnings: seq<string>)

  const Start: Escalation := Escalation(NormalLevel, [], [])

  /** The level is critical exactly when there is a critical issue, a
      warning level has a warning issue, and a normal level has no issue. */
  predicate Coherent(e: Escalation) {
    (e.level == CriticalLevel <==> e.critical != [])
    && (e.level == WarningLevel ==> e.warnings != [])
    && (e.level == NormalLevel ==> e.warnings == [])
  }

  /** Python truthiness of a rule's result. */
  predicate Raised(alert: Option<string>) {
    alert.Some? && alert.value != ""
  }

  /** A runtime or capacity alert: one carrying "alert-critical" makes the
      level critical and joins the critical issues; one carrying only
      "alert-warning" lifts a level below critical to warning and joins the
      warning issues. */
  function TaggedStep(e: Escalation, alert: Option<string>): (r: Escalation)
    ensures Rank(r.level) >= Rank(e.level)
    ensures Coherent(e) ==> Coherent(r)
  {
    if !Raised(alert) then e
    else if Contains(alert.value, CriticalTag) then Escalation(CriticalLevel, e.critical + [alert.value], e.warnings)
    else if Contains(alert.value, WarningTag) then
      Escalation(if e.level == CriticalLevel then CriticalLevel else WarningLevel, e.critical, e.warnings + [alert.value])
    else e
  }

  /** A status or backup alert is critical whatever it says. */
  function CriticalStep(e: Escalation, alert: Option<string>): (r: Escalation)
    ensures Rank(r.level) >= Rank(e.level)
    ensures Coherent(e) ==> Coherent(r)
  {
    if Raised(alert) then Escalation(CriticalLevel, e.critical + [alert.value], e.warnings) else e
  }

  const AnomalyIssue: string := "HTML报告中发现异常信息"

  /** "danger" or "error" in the lower-cased text, or 异常 in the text. */
  predicate HasAnomalyKeyword(text: string) {
    Contains(Lower(text), "danger") || Contains(Lower(text), "error") || Contains(text, "异常")
  }

  /** The keyword check: it only ever lifts a normal level to warning. */
  function KeywordStep(e: Escalation, html: Option<string>): (r: Escalation)
    ensures Rank(r.level) >= Rank(e.level)
    ensures Coherent(e) ==> Coherent(r)
    ensures r.level != e.level ==> e.level == NormalLevel && r.level == WarningLevel
    ensures r.critical == e.critical
  {
    if Present(html) && HasAnomalyKeyword(html.value) && e.level == NormalLevel then
      Escalation(WarningLevel, e.critical, e.warnings + [AnomalyIssue])
    else e
  }

  /** The five steps in order: runtime, status, backup, capacity, keywords. */
  function Escalate(html: Option<string>): (r: Escalation)
    ensures Coherent(r)
  {
    EscalateOver(RuntimeAlert(html), StatusAlert(html), BackupAlert(html), CapacityAlert(html), html)
  }

  /** The five steps over the four rules' results. */
  function EscalateOver(runtime: Option<string>, status: Option<string>, backup: Option<string>,
                        capacity: Option<string>, html: Option<string>): (r: Escalation)
    ensures Coherent(r)
  {
    var e1 := TaggedStep(Start, runtime);
    var e2 := CriticalStep(e1, status);
    var e3 := CriticalStep(e2, backup);
    var e4 := TaggedStep(e3, capacity);
    KeywordStep(e4, html)
  }

  /** The level never goes down from one step to the next. */
  lemma EscalationMonotone(html: Option<string>)
    ensures var e1 := TaggedStep(Start, RuntimeAlert(html));
      var e2 := CriticalStep(e1, StatusAlert(html));
      var e3 := CriticalStep(e2, BackupAlert(html));
      var e4 := TaggedStep(e3, CapacityAlert(html));
      Rank(Start.level) <= Rank(e1.level) <= Rank(e2.level) <= Rank(e3.level) <= Rank(e4.level) <= Rank(Escalate(html).level)
  {
  }

  /** A critical runtime uptime settles the level, and no later step can
      lower it. */
  lemma CriticalUptimeIsCritical(html: Option<string>)
    requires RuntimeAlert(html).Some? && Contains(RuntimeAlert(html).value, CriticalTag)
    ensures Escalate(html).level == CriticalLevel
    ensures RuntimeAlert(html).value == Escalate(html).critical[0]
  {
    CriticalRuntimeFirst(RuntimeAlert(html), StatusAlert(html), BackupAlert(html), CapacityAlert(html), html);
  }

  /** The same over the rules' results: a critical runtime alert is the
      first critical issue. */
  lemma CriticalRuntimeFirst(runtime: Option<string>, status: Option<string>, backup: Option<string>,
                             capacity: Option<string>, html: Option<string>)
    requires runtime.Some? && Contains(runtime.value, CriticalTag)
    ensures EscalateOver(runtime, status, backup, capacity, html).level == CriticalLevel
    ensures EscalateOver(runtime, status, backup, capacity, html).critical[0] == runtime.value
  {
  }

  const WarningMark: string := "🟡 重要"
  const CriticalMark: string := "🔴 紧急"
  const LevelLabel: string := "告警级别: "
  const CriticalHeader: string := LevelLabel + CriticalMark + " - 发现严重问题，需要立即处理"
  const WarningHeader: string := LevelLabel + WarningMark + " - 发现重要问题，建议尽快处理"
  const NormalHeader: string := "告警级别: ✅ 正常 - 系统运行正常"
  const ClientCause: string := "根因分析: Oracle客户端环境配置问题"
  const ConnectionCause: string := "根因分析: Oracle数据库连接或配置问题"
  const ArchiveGapCause: string := "根因分析: 归档日志同步问题"

  /** `p in str(errors).lower()`: some error line contains p once
      lower-cased. */
  predicate AnyErrorContains(errors: seq<string>, p: string) {
    exists k :: 0 <= k < |errors| && Contains(Lower(errors[k]), p)
  }

  /** The root-cause line: the client set-up when sqlplus and "not
      recognized" both occur in the errors, else the connection when ora-
      does, else archive gaps when the analysis text mentions 间隙. */
  function RootCause(checkErrors: seq<string>, html: Option<string>): (r: seq<string>)
    ensures |r| <= 1
    ensures var client := AnyErrorContains(checkErrors, "sqlplus") && AnyErrorContains(checkErrors, "not recognized");
      var connection := AnyErrorContains(checkErrors, "ora-");
      var gaps := Present(html) && Contains(html.value, "间隙");
      && (r == [ClientCause] <==> client)
      && (r == [ConnectionCause] <==> !client && connection)
      && (r == [ArchiveGapCause] <==> !client && !connection && gaps)
      && (r == [] <==> !client && !connection && !gaps)
  {
    if AnyErrorContains(checkErrors, "sqlplus") && AnyErrorContains(checkErrors, "not recognized") then [ClientCause]
    else if AnyErrorContains(checkErrors, "ora-") then [ConnectionCause]
    else if Present(html) && Contains(html.value, "间隙") then [ArchiveGapCause]
    else []
  }

  function ErrorCountLine(total: nat): string {
    "检测到其他错误数: " + NatToString(total)
  }

  /** The lines written for an escalation: the level's header, then the
      issues (a critical level lists the critical issues only, a warning
      level the warning issues and then the critical ones), the count of
      other errors when there are any, and the root cause. */
  function AlertLines(e: Escalation, total: nat, checkErrors: seq<string>, html: Option<string>): (r: seq<string>)
    requires Coherent(e)
  {
    IssueLines(e) + (if total > 0 then [ErrorCountLine(total)] else []) + RootCause(checkErrors, html)
  }

  /** The header and the issues listed under it. */
  function IssueLines(e: Escalation): seq<string> {
    match e.level
    case CriticalLevel => [CriticalHeader] + e.critical
    case WarningLevel => [WarningHeader] + e.warnings + e.critical
    case NormalLevel => [NormalHeader]
  }

  /** The alert analysis: the four rules read the analysis text, the level
      is escalated over their results, and the lines are written. */
  method AnalyzeAlertLevels(checkErrors: seq<string>, dailyErrors: seq<string>, html: Option<string>)
    returns (alerts: seq<string>)
    ensures alerts == AlertLines(Escalate(html), |checkErrors| + |dailyErrors|, checkErrors, html)
  {
    var level, critical, warnings := EscalateLevels(RuntimeAlert(html), StatusAlert(html), BackupAlert(html), CapacityAlert(html), html);
    ghost var e := Escalation(level, critical, warnings);
    var total := |checkErrors| + |dailyErrors|;

    if level == CriticalLevel {
      alerts := [CriticalHeader] + critical;
    } else if level == WarningLevel {
      alerts := [WarningHeader] + warnings + critical;
    } else {
      alerts := [NormalHeader];
    }
    assert alerts == IssueLines(e);
    ghost var issues := alerts;
    if total > 0 {
      alerts := alerts + [ErrorCountLine(total)];
    }
    assert alerts == issues + (if total > 0 then [ErrorCountLine(total)] else []);
    alerts := alerts + RootCause(checkErrors, html);
  }

  /** The five escalation steps over the rules' results, updating the level
      and the two issue lists in place as the monitor does. */
  method EscalateLevels(runtime: Option<string>, status: Option<string>, backup: Option<string>,
                        capacity: Option<string>, html: Option<string>)
    returns (level: AlertLevel, critical: seq<string>, warnings: seq<string>)
    ensures Escalation(level, critical, warnings) == EscalateOver(runtime, status, backup, capacity, html)
  {
    level, critical, warnings := NormalLevel, [], [];
    level, critical, warnings := ApplyTagged(level, critical, warnings, runtime);
    level, critical, warnings := ApplyCritical(level, critical, warnings, status);
    level, critical, warnings := ApplyCritical(level, critical, warnings, backup);
    level, critical, warnings := ApplyTagged(level, critical, warnings, capacity);
    ghost var e4 := Escalation(level, critical, warnings);
    if Present(html) && HasAnomalyKeyword(html.value) && level == NormalLevel {
      level := WarningLevel;
      warnings := warnings + [AnomalyIssue];
    }
    assert Escalation(level, critical, warnings) == KeywordStep(e4, html);
  }

  /** The update for a runtime or capacity alert. */
  method ApplyTagged(level: AlertLevel, critical: seq<string>, warnings: seq<string>, alert: Option<string>)
    returns (level': AlertLevel, critical': seq<string>, warnings': seq<string>)
    ensures Escalation(level', critical', warnings') == TaggedStep(Escalation(level, critical, warnings), alert)
  {
    level', critical', warnings' := level, critical, warnings;
    if Raised(alert) {
      if Contains(alert.value, CriticalTag) {
        level' := CriticalLevel;
        critical' := critical' + [alert.value];
      } else if Contains(alert.value, WarningTag) {
        if level' != CriticalLevel {
          level' := WarningLevel;
        }
        warnings' := warnings' + [alert.value];
      }
    }
  }

  /** The update for a status or backup alert. */
  method ApplyCritical(level: AlertLevel, critical: seq<string>, warnings: seq<string>, alert: Option<string>)
    returns (level': AlertLevel, critical': seq<string>, warnings': seq<string>)
    ensures Escalation(level', critical', warnings') == CriticalStep(Escalation(level, critical, warnings), alert)
  {
    level', critical', warnings' := level, critical, warnings;
    if Raised(alert) {
      level' := CriticalLevel;
      critical' := critical' + [alert.value];
    }
  }

  /** A critical level lists no warning issue: every line after the header
      up to the error count is a critical issue. */
  lemma CriticalListsOnlyCritical(e: Escalation, total: nat, checkErrors: seq<string>, html: Option<string>)
    requires Coherent(e) && e.level == CriticalLevel
    ensures AlertLines(e, total, checkErrors, html)[1..1 + |e.critical|] == e.critical
    ensures |AlertLines(e, total, checkErrors, html)| == 1 + |e.critical| + (if total > 0 then 1 else 0) + |RootCause(checkErrors, html)|
  {
  }
  /** The alert lines open with the level's header. */
  lemma AlertLinesHeader(e: Escalation, total: nat, checkErrors: seq<string>, html: Option<string>)
    requires Coherent(e)
    ensures var r := AlertLines(e, total, checkErrors, html);
      r != [] && r[0] == match e.level case CriticalLevel => CriticalHeader case WarningLevel => WarningHeader case NormalLevel => NormalHeader
  {
  }

  // ---------------------------------------------------------------------------
  // _analyze_performance and _analyze_risks

  /** `p in text.lower()`. */
  predicate Mentions(text: string, p: string) {
    Contains(Lower(text), p)
  }

  const SyncMonitored: string := "同步状态: 正在监控主备库同步延迟"
  const SyncUnknown: string := "同步状态: 无法获取同步时间信息"
  const MrpWaiting: string := "MRP进程: 正常运行，等待日志"
  const MrpApplying: string := "MRP进程: 正在应用日志"
  const MrpAttention: string := "MRP进程: 状态需要关注"
  const MrpMissing: string := "MRP进程: 未检测到进程信息"
  const RfsRunning: string := "网络传输: RFS进程正常运行"
  const RfsMissing: string := "网络传输: 需要检查RFS进程状态"

  /** The three performance items: synchronisation, the MRP process and
      the RFS transport, each read off the two outputs by keyword. */
  function Performance(checkOut: string, dailyOut: string): (r: seq<string>)
    ensures |r| == 3
  {
    [if Mentions(dailyOut, "last applied") && Mentions(dailyOut, "last received") then SyncMonitored else SyncUnknown,
     if Mentions(checkOut, "mrp") then
       (if Mentions(checkOut, "wait_for_log") then MrpWaiting
        else if Mentions(checkOut, "applying_log") then MrpApplying
        else MrpAttention)
     else MrpMissing,
     if Mentions(checkOut, "rfs") then RfsRunning else RfsMissing]
  }

  /** Some item contains p. */
  predicate AnyContains(items: seq<string>, p: string) {
    exists k :: 0 <= k < |items| && Contains(items[k], p)
  }

  /** 正常 appears among the performance items exactly when RFS is running
      or the MRP process is waiting for a log. */
  lemma PerformanceNormalIff(checkOut: string, dailyOut: string)
    ensures AnyContains(Performance(checkOut, dailyOut), "正常") <==>
      Mentions(checkOut, "rfs") || (Mentions(checkOut, "mrp") && Mentions(checkOut, "wait_for_log"))
  {
    var r := Performance(checkOut, dailyOut);
    PerformanceItemsNormal();
    if Mentions(checkOut, "rfs") {
      assert Contains(r[2], "正常");
    } else if Mentions(checkOut, "mrp") && Mentions(checkOut, "wait_for_log") {
      assert Contains(r[1], "正常");
    } else {
      assert forall k :: 0 <= k < 3 ==> !Contains(r[k], "正常");
    }
  }

  /** Which performance items say 正常. */
  lemma PerformanceItemsNormal()
    ensures Contains(MrpWaiting, "正常") && Contains(RfsRunning, "正常")
    ensures !Contains(SyncMonitored, "正常") && !Contains(SyncUnknown, "正常") && !Contains(MrpApplying, "正常")
    ensures !Contains(MrpAttention, "正常") && !Contains(MrpMissing, "正常") && !Contains(RfsMissing, "正常")
  {
    NormalItems();
    SyncItemsNotNormal();
    MrpItemsNotNormal();
  }

  lemma NormalItems()
    ensures Contains(MrpWaiting, "正常") && Contains(RfsRunning, "正常")
  {
    ContainsMiddle("MRP进程: ", "正常", "运行，等待日志");
    assert MrpWaiting == "MRP进程: " + "正常" + "运行，等待日志";
    ContainsMiddle("网络传输: RFS进程", "正常", "运行");
    assert RfsRunning == "网络传输: RFS进程" + "正常" + "运行";
  }

  lemma SyncItemsNotNormal()
    ensures !Contains(SyncMonitored, "正常") && !Contains(SyncUnknown, "正常") && !Contains(RfsMissing, "正常")
  {
    NotContainsByChar(SyncMonitored, "正常", '常');
    NotContainsByChar(SyncUnknown, "正常", '常');
    NotContainsByChar(RfsMissing, "正常", '常');
  }

  lemma MrpItemsNotNormal()
    ensures !Contains(MrpApplying, "正常") && !Contains(MrpAttention, "正常") && !Contains(MrpMissing, "正常")
  {
    NotContainsByChar(MrpApplying, "正常", '常');
    NotContainsByChar(MrpAttention, "正常", '常');
    NotContainsByChar(MrpMissing, "正常", '常');
  }

  const RiskWord: string := "风险"
  const ConnectionRisk: string := "连接" + RiskWord + ": 检测到Oracle连接错误"
  const EnvironmentRisk: string := "环境" + RiskWord + ": Oracle客户端未正确安装或配置"
  const ConnectionFine: string := "连接状态: 基础检查正常"
  const SomeProcesses: string := "进程健康: 部分关键进程运行，需要关注"
  const NoProcesses: string := "进程健康: 未检测到关键进程，可能存在" + RiskWord + ""
  const ModeAvailable: string := "配置检查: 保护模式信息可用"
  const ModeUnknown: string := "配置检查: 无法获取保护模式信息"
  const RoleStandby: string := "角色检查: 数据库角色为备库，正常"
  const RoleOdd: string := "角色检查: 数据库角色异常，需要确认"
  const RoleUnknown: string := "角色检查: 无法确认数据库角色"

  /** How many of mrp, rfs and lgwr the output mentions. */
  function ProcessCount(checkOut: string): (r: nat)
    ensures r <= 3
    ensures r == 0 <==> !Mentions(checkOut, "mrp") && !Mentions(checkOut, "rfs") && !Mentions(checkOut, "lgwr")
  {
    (if Mentions(checkOut, "mrp") then 1 else 0) + (if Mentions(checkOut, "rfs") then 1 else 0)
      + (if Mentions(checkOut, "lgwr") then 1 else 0)
  }

  function ProcessesLine(count: nat): string {
    "进程健康: 检测到 " + NatToString(count) + " 个关键进程运行"
  }

  /** The four risk items: connection, process health, protection mode
      and database role. */
  function Risks(checkOut: string, dailyOut: string): (r: seq<string>)
    ensures |r| == 4
  {
    var count := ProcessCount(checkOut);
    [if Mentions(checkOut, "ora-") || Mentions(checkOut, "tns-") then ConnectionRisk
     else if Mentions(checkOut, "sqlplus") && Mentions(checkOut, "not recognized") then EnvironmentRisk
     else ConnectionFine,
     if count >= 2 then ProcessesLine(count) else if count == 1 then SomeProcesses else NoProcesses,
     if Mentions(dailyOut, "protection_mode") then ModeAvailable else ModeUnknown,
     if Mentions(checkOut, "database_role") then (if Mentions(checkOut, "standby") then RoleStandby else RoleOdd)
     else RoleUnknown]
  }

  /** 风险 appears among the risk items exactly when there is a connection
      error, the client is missing, or none of the key processes shows. */
  lemma RiskIff(checkOut: string, dailyOut: string)
    ensures AnyContains(Risks(checkOut, dailyOut), "风险") <==>
      Mentions(checkOut, "ora-") || Mentions(checkOut, "tns-")
      || (Mentions(checkOut, "sqlplus") && Mentions(checkOut, "not recognized"))
      || ProcessCount(checkOut) == 0
  {
    var r := Risks(checkOut, dailyOut);
    RiskItems();
    ProcessesLineNoRisk(ProcessCount(checkOut));
    if Mentions(checkOut, "ora-") || Mentions(checkOut, "tns-") {
      assert Contains(r[0], "风险");
    } else if Mentions(checkOut, "sqlplus") && Mentions(checkOut, "not recognized") {
      assert Contains(r[0], "风险");
    } else if ProcessCount(checkOut) == 0 {
      assert Contains(r[1], "风险");
    } else {
      assert forall k :: 0 <= k < 4 ==> !Contains(r[k], "风险");
    }
  }

  /** Which fixed risk items say 风险. */
  lemma RiskItems()
    ensures Contains(ConnectionRisk, "风险") && Contains(EnvironmentRisk, "风险") && Contains(NoProcesses, "风险")
    ensures !Contains(ConnectionFine, "风险") && !Contains(SomeProcesses, "风险")
    ensures !Contains(ModeAvailable, "风险") && !Contains(ModeUnknown, "风险")
    ensures !Contains(RoleStandby, "风险") && !Contains(RoleOdd, "风险") && !Contains(RoleUnknown, "风险")
  {
    RiskyItems();
    HealthItemsNotRisky();
    RoleItemsNotRisky();
  }

  lemma RiskyItems()
    ensures Contains(ConnectionRisk, "风险") && Contains(EnvironmentRisk, "风险") && Contains(NoProcesses, "风险")
  {
    ContainsMiddle("连接", RiskWord, ": 检测到Oracle连接错误");
    ContainsMiddle("环境", RiskWord, ": Oracle客户端未正确安装或配置");
    ContainsMiddle("进程健康: 未检测到关键进程，可能存在", RiskWord, "");
  }

  lemma HealthItemsNotRisky()
    ensures !Contains(ConnectionFine, "风险") && !Contains(SomeProcesses, "风险")
    ensures !Contains(ModeAvailable, "风险") && !Contains(ModeUnknown, "风险")
  {
    NotContainsByChar(ConnectionFine, "风险", '险');
    NotContainsByChar(SomeProcesses, "风险", '险');
    NotContainsByChar(ModeAvailable, "风险", '险');
    NotContainsByChar(ModeUnknown, "风险", '险');
  }

  lemma RoleItemsNotRisky()
    ensures !Contains(RoleStandby, "风险") && !Contains(RoleOdd, "风险") && !Contains(RoleUnknown, "风险")
  {
    NotContainsByChar(RoleStandby, "风险", '险');
    NotContainsByChar(RoleOdd, "风险", '险');
    NotContainsByChar(RoleUnknown, "风险", '险');
  }

  lemma ProcessesLineNoRisk(count: nat)
    ensures !Contains(ProcessesLine(count), "风险")
  {
    DigitsHaveNo(NatToString(count), '险');
    NotInConcat("进程健康: 检测到 ", NatToString(count), '险');
    NotInConcat("进程健康: 检测到 " + NatToString(count), " 个关键进程运行", '险');
    NotContainsByChar(ProcessesLine(count), "风险", '险');
  }
  // ---------------------------------------------------------------------------
  // _generate_comprehensive_summary

  /** A line counted as a warning. */
  predicate CountsAsWarning(line: string) {
    Contains(line, WarningTag) || Contains(line, WarningMark)
  }

  /** A line counted as critical: only when it is not counted as a
      warning. */
  predicate CountsAsCritical(line: string) {
    !CountsAsWarning(line) && (Contains(line, CriticalTag) || Contains(line, CriticalMark))
  }

  function WarningCount(lines: seq<string>): (r: nat)
    ensures r <= |lines|
  {
    if lines == [] then 0
    else WarningCount(lines[..|lines| - 1]) + (if CountsAsWarning(lines[|lines| - 1]) then 1 else 0)
  }

  function CriticalCount(lines: seq<string>): (r: nat)
    ensures r <= |lines|
  {
    if lines == [] then 0
    else CriticalCount(lines[..|lines| - 1]) + (if CountsAsCritical(lines[|lines| - 1]) then 1 else 0)
  }

  /** Some line is counted exactly when the two counts are not both zero. */
  lemma {:induction false} CountsPositive(lines: seq<string>)
    ensures WarningCount(lines) + CriticalCount(lines) > 0 <==>
      exists k :: 0 <= k < |lines| && (CountsAsWarning(lines[k]) || CountsAsCritical(lines[k]))
  {
    if lines != [] {
      var init := lines[..|lines| - 1];
      CountsPositive(init);
      assert forall k :: 0 <= k < |init| ==> init[k] == lines[k];
    }
  }

  const PerformanceFine: string := "性能状态: 基本正常"
  const PerformanceAttention: string := "性能状态: 需要关注"
  const CapacityFine: string := "容量状态: 正常"
  const CapacityAttention: string := "容量状态: 需要关注"
  const RiskPresent: string := "风险评估: 存在潜在风险"
  const RiskControlled: string := "风险评估: 风险可控"
  const RecheckSoon: string := "建议: 1小时后重新检查"
  const RecheckAsPlanned: string := "建议: 按计划进行下次检查"
  const ContactAdmin: string := "紧急情况: 建议联系数据库管理员"

  /** The summary lines for the three item lists and the counted total. */
  function SummaryLines(performance: seq<string>, capacity: seq<string>, risks: seq<string>, total: nat): (r: seq<string>)
  {
    [PerformanceLine(performance), CapacityLine(capacity), RiskLine(risks), AdviceLine(total)]
    + (if total > 3 then [ContactAdmin] else [])
  }

  function PerformanceLine(performance: seq<string>): string {
    if AnyContains(performance, "正常") then PerformanceFine else PerformanceAttention
  }

  function CapacityLine(capacity: seq<string>): string {
    if AnyContains(capacity, "充足") || AnyContains(capacity, "正常") then CapacityFine else CapacityAttention
  }

  function RiskLine(risks: seq<string>): string {
    if AnyContains(risks, "风险") then RiskPresent else RiskControlled
  }

  function AdviceLine(total: nat): string {
    if total > 0 then RecheckSoon else RecheckAsPlanned
  }

  /** Counts the warning and the critical lines, a line that counts as a
      warning not being counted again as critical. */
  method CountAlerts(alerts: seq<string>) returns (warningCount: nat, criticalCount: nat)
    ensures warningCount == WarningCount(alerts) && criticalCount == CriticalCount(alerts)
  {
    warningCount, criticalCount := 0, 0;
    for i := 0 to |alerts|
      invariant warningCount == WarningCount(alerts[..i])
      invariant criticalCount == CriticalCount(alerts[..i])
    {
      assert alerts[..i + 1][..i] == alerts[..i];
      if CountsAsWarning(alerts[i]) {
        warningCount := warningCount + 1;
      } else if Contains(alerts[i], CriticalTag) || Contains(alerts[i], CriticalMark) {
        criticalCount := criticalCount + 1;
      }
    }
    assert alerts[..|alerts|] == alerts;
  }

  /** The closing summary: the alert analysis is run again and its lines
      counted, and the total with the basic-scan errors decides the
      recommendation and the call to the administrator. */
  method GenerateSummary(checkErrors: seq<string>, dailyErrors: seq<string>, html: Option<string>,
                         performance: seq<string>, capacity: seq<string>, risks: seq<string>)
    returns (summary: seq<string>)
    ensures var alerts := AlertLines(Escalate(html), |checkErrors| + |dailyErrors|, checkErrors, html);
      summary == SummaryLines(performance, capacity, risks,
                              WarningCount(alerts) + CriticalCount(alerts) + |checkErrors| + |dailyErrors|)
  {
    var alerts := AnalyzeAlertLevels(checkErrors, dailyErrors, html);
    var warningCount, criticalCount := CountAlerts(alerts);
    var total := warningCount + criticalCount + |checkErrors| + |dailyErrors|;
    summary := WriteSummary(performance, capacity, risks, total);
  }

  /** The summary lines written one after the other for a counted total. */
  method WriteSummary(performance: seq<string>, capacity: seq<string>, risks: seq<string>, total: nat)
    returns (summary: seq<string>)
    ensures summary == SummaryLines(performance, capacity, risks, total)
  {
    summary := [];
    if AnyContains(performance, "正常") {
      summary := summary + [PerformanceFine];
    } else {
      summary := summary + [PerformanceAttention];
    }
    assert summary == [PerformanceLine(performance)];
    if AnyContains(capacity, "充足") || AnyContains(capacity, "正常") {
      summary := summary + [CapacityFine];
    } else {
      summary := summary + [CapacityAttention];
    }
    assert summary == [PerformanceLine(performance), CapacityLine(capacity)];
    if AnyContains(risks, "风险") {
      summary := summary + [RiskPresent];
    } else {
      summary := summary + [RiskControlled];
    }
    assert summary == [PerformanceLine(performance), CapacityLine(capacity), RiskLine(risks)];
    if total > 0 {
      summary := summary + [RecheckSoon];
    } else {
      summary := summary + [RecheckAsPlanned];
    }
    assert summary == [PerformanceLine(performance), CapacityLine(capacity), RiskLine(risks), AdviceLine(total)];
    if total > 3 {
      summary := summary + [ContactAdmin];
    }
  }

  /** A line with no 'i' and neither coloured mark is not counted. */
  lemma Uncounted(line: string)
    requires 'i' !in line && '🟡' !in line && '🔴' !in line
    ensures !CountsAsWarning(line) && !CountsAsCritical(line)
  {
    NotContainsByChar(line, WarningTag, 'i');
    NotContainsByChar(line, CriticalTag, 'i');
    NotContainsByChar(line, WarningMark, '🟡');
    NotContainsByChar(line, CriticalMark, '🔴');
  }

  lemma NormalHeaderUncounted()
    ensures !CountsAsWarning(NormalHeader) && !CountsAsCritical(NormalHeader)
  {
    assert 'i' !in NormalHeader;
    assert '🟡' !in NormalHeader;
    assert '🔴' !in NormalHeader;
    Uncounted(NormalHeader);
  }

  lemma ErrorCountUncounted(total: nat)
    ensures !CountsAsWarning(ErrorCountLine(total)) && !CountsAsCritical(ErrorCountLine(total))
  {
    var digits := NatToString(total);
    DigitsHaveNo(digits, 'i');
    DigitsHaveNo(digits, '🟡');
    DigitsHaveNo(digits, '🔴');
    Uncounted(ErrorCountLine(total));
  }

  lemma ClientCauseUncounted()
    ensures !CountsAsWarning(ClientCause) && !CountsAsCritical(ClientCause)
  {
    assert 'i' !in ClientCause;
    assert '🟡' !in ClientCause;
    assert '🔴' !in ClientCause;
    Uncounted(ClientCause);
  }

  lemma ConnectionCauseUncounted()
    ensures !CountsAsWarning(ConnectionCause) && !CountsAsCritical(ConnectionCause)
  {
    assert 'i' !in ConnectionCause;
    assert '🟡' !in ConnectionCause;
    assert '🔴' !in ConnectionCause;
    Uncounted(ConnectionCause);
  }

  lemma ArchiveGapCauseUncounted()
    ensures !CountsAsWarning(ArchiveGapCause) && !CountsAsCritical(ArchiveGapCause)
  {
    assert 'i' !in ArchiveGapCause;
    assert '🟡' !in ArchiveGapCause;
    assert '🔴' !in ArchiveGapCause;
    Uncounted(ArchiveGapCause);
  }

  /** The warning and critical headers are counted. */
  lemma HeadersCounted()
    ensures CountsAsWarning(WarningHeader)
    ensures CountsAsWarning(CriticalHeader) || CountsAsCritical(CriticalHeader)
  {
    ContainsMiddle(LevelLabel, WarningMark, " - 发现重要问题，建议尽快处理");
    ContainsMiddle(LevelLabel, CriticalMark, " - 发现严重问题，需要立即处理");
  }

  /** The alert lines hold a counted line exactly when the level is not
      normal: the headers of the raised levels are counted, and nothing
      written at the normal level is. */
  lemma CountedIffRaised(e: Escalation, total: nat, checkErrors: seq<string>, html: Option<string>)
    requires Coherent(e)
    ensures var alerts := AlertLines(e, total, checkErrors, html);
      WarningCount(alerts) + CriticalCount(alerts) > 0 <==> e.level != NormalLevel
  {
    var alerts := AlertLines(e, total, checkErrors, html);
    CountsPositive(alerts);
    if e.level == NormalLevel {
      var cause := RootCause(checkErrors, html);
      NormalHeaderUncounted();
      ErrorCountUncounted(total);
      ClientCauseUncounted();
      ConnectionCauseUncounted();
      ArchiveGapCauseUncounted();
      assert forall k :: 0 <= k < |cause| ==> cause[k] in {ClientCause, ConnectionCause, ArchiveGapCause};
      assert alerts == [NormalHeader] + (if total > 0 then [ErrorCountLine(total)] else []) + cause;
      forall k | 0 <= k < |alerts|
        ensures !CountsAsWarning(alerts[k]) && !CountsAsCritical(alerts[k])
      {
        if k > 0 && !(total > 0 && k == 1) {
          assert alerts[k] in cause;
        }
      }
    } else {
      HeadersCounted();
      AlertLinesHeader(e, total, checkErrors, html);
      assert CountsAsWarning(alerts[0]) || CountsAsCritical(alerts[0]);
    }
  }

  /** The summary advises a re-check in one hour exactly when the alert
      level is not normal or the basic scans found errors, and calls for the
      administrator exactly when the counted total exceeds 3. */
  lemma SummaryAdvice(checkErrors: seq<string>, dailyErrors: seq<string>, html: Option<string>,
                      performance: seq<string>, capacity: seq<string>, risks: seq<string>)
    ensures var alerts := AlertLines(Escalate(html), |checkErrors| + |dailyErrors|, checkErrors, html);
      var total := WarningCount(alerts) + CriticalCount(alerts) + |checkErrors| + |dailyErrors|;
      var summary := SummaryLines(performance, capacity, risks, total);
      (RecheckSoon in summary <==> Escalate(html).level != NormalLevel || |checkErrors| + |dailyErrors| > 0)
      && (ContactAdmin in summary <==> total > 3)
  {
    var alerts := AlertLines(Escalate(html), |checkErrors| + |dailyErrors|, checkErrors, html);
    var total := WarningCount(alerts) + CriticalCount(alerts) + |checkErrors| + |dailyErrors|;
    CountedIffRaised(Escalate(html), |checkErrors| + |dailyErrors|, checkErrors, html);
    SummaryLinesAdvice(performance, capacity, risks, total);
  }

  /** Which advice lines the summary holds. */
  lemma SummaryLinesAdvice(performance: seq<string>, capacity: seq<string>, risks: seq<string>, total: nat)
    ensures RecheckSoon in SummaryLines(performance, capacity, risks, total) <==> total > 0
    ensures ContactAdmin in SummaryLines(performance, capacity, risks, total) <==> total > 3
  {
    assert RecheckSoon[4] != RecheckAsPlanned[4];
    assert RecheckSoon[0] != PerformanceFine[0] && RecheckSoon[0] != PerformanceAttention[0];
    assert RecheckSoon[0] != CapacityFine[0] && RecheckSoon[0] != CapacityAttention[0];
    assert RecheckSoon[0] != RiskPresent[0] && RecheckSoon[0] != RiskControlled[0] && RecheckSoon[0] != ContactAdmin[0];
    assert ContactAdmin[0] != PerformanceFine[0] && ContactAdmin[0] != PerformanceAttention[0];
    assert ContactAdmin[0] != CapacityFine[0] && ContactAdmin[0] != CapacityAttention[0];
    assert ContactAdmin[0] != RiskPresent[0] && ContactAdmin[0] != RiskControlled[0] && ContactAdmin[0] != RecheckAsPlanned[0];
  }
  /** The summary's performance line reads "基本正常" exactly when RFS is
      running or MRP is waiting for a log. */
  lemma PerformanceSummary(checkOut: string, dailyOut: string)
    ensures PerformanceLine(Performance(checkOut, dailyOut)) == PerformanceFine <==>
      Mentions(checkOut, "rfs") || (Mentions(checkOut, "mrp") && Mentions(checkOut, "wait_for_log"))
  {
    PerformanceNormalIff(checkOut, dailyOut);
    assert PerformanceFine[7] != PerformanceAttention[7];
  }

  /** The summary's risk line reports a potential risk exactly when there
      is a connection error, the client is missing, or no key process
      shows. */
  lemma RiskSummary(checkOut: string, dailyOut: string)
    ensures RiskLine(Risks(checkOut, dailyOut)) == RiskPresent <==>
      Mentions(checkOut, "ora-") || Mentions(checkOut, "tns-")
      || (Mentions(checkOut, "sqlplus") && Mentions(checkOut, "not recognized"))
      || ProcessCount(checkOut) == 0
  {
    RiskIff(checkOut, dailyOut);
    assert RiskPresent[6] != RiskControlled[6];
  }

  /** Without the overall-usage label in the analysis text, the escalation
      is the one with no capacity alert. */
  lemma CapacityNeverEscalates(html: Option<string>)
    requires Present(html) ==> forall k :: 0 <= k < |AnalysisLines(html)| ==> !Contains(AnalysisLines(html)[k], OverallUsageLabel)
    ensures Escalate(html) == EscalateOver(RuntimeAlert(html), StatusAlert(html), BackupAlert(html), None, html)
  {
    CapacityNeedsLabel(html);
  }
}
