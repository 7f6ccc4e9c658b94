# OperaScheduler monitor and reconciliation mailer, modelled in Dafny

OperaScheduler watches an Oracle Data Guard pair (a production database and a
physical standby) that serves the Opera hotel system, and it mails vendor
reconciliation letters. This project models the decision logic of three
programs and proves properties of it:

- **The standalone service-mode monitor** (`opera_task_standalone/opera_monitor.py`).
  - It runs once a day at a configured time.
  - It scans the output of the `check_standby` and `daily_report` scripts for error patterns.
  - It pulls fixed blocks out of the HTML health report: standby and production information, uptimes, versions and the last RMAN backup.
  - It totals the tablespace table.
  - It runs four alert rules (uptime, STATUS, backup age, capacity) over the analysis text.
  - It escalates them to one alert level and writes the comprehensive summary.
- **The older interactive monitor** (`opera_monitor.py`).
  - It has the issue scan with context lines.
  - It lists the last ten `SEQUENCE#`/`APPLIED` records.
  - It has the database-status checks over the report and the final verdict.
- **The reconciliation mailer** (`email_service.py`).
  - It reads the `key: value` configuration file and picks the SMTP encryption.
  - It extracts vendor names and year-months from the letters' file names.
  - It groups the confirmation letters by vendor.
  - It looks up each vendor's address and records the vendors that have none.
  - It builds the sender and subject of each mail.

The project has one module per part, each in its own file:

| module | part |
|---|---|
| `Text` | Python's string built-ins as the programs use them: `strip`, `lower`, `split`, `in`, `float` of a decimal, and `str` of integers |
| `Scanner` | the line scanners |
| `LegacyMonitor` | the interactive monitor's analysis |
| `Timestamps` | the `%d-%b-%Y %H:%M` parser and day counts |
| `HtmlReport` | the report extractors and `html_analysis` |
| `Tablespace` | the tablespace scan |
| `AlertRules` | the four rules |
| `Analysis` | alert levels, performance, risks and the summary |
| `Schedule` | the daily-run rule |
| `Reconciliation` | the mailer |

Each regular expression is modelled as a hand-written matcher for that one
pattern. Its doc comment gives the pattern, and the matcher follows Python's
leftmost, greedy or lazy semantics for it.

The source's imperative parts stay imperative:

- `Tablespace.AnalyzeTablespaceUsage` keeps the outer and inner loops of the scan.
- `Analysis.AnalyzeAlertLevels` and `Analysis.CountAlerts` keep the escalation and counting loops.
- `Scanner.CheckForIssues` and `LegacyMonitor.CheckDatabaseStatus` keep their loops and chains.
- `Reconciliation.LoadConfig`, `GetVendorEmail` and `GroupByVendor` keep their loops.
- `Reconciliation.Mailer` is a class whose `skippedVendors` field the folder processing extends.
- `Schedule.Monitor` is a class whose `lastRun` field the monitoring run records.

Each of these is proved against a specification function, and the lemmas state
what the source promises about that function.

### Behaviour worth knowing

- **Uptime.** An uptime whose dates do not parse is 0 days, which is the Normal band, so an unreadable date looks like a fresh restart (`Timestamps.DaysDifference`).
- **Missing data.** It does not raise a warning. With no analysis text, or nothing the rules can read, the level stays Normal (`Analysis.CapacityNeverEscalates`, `AlertRules.RuntimeAlert`).
- **The STATUS rule** looks for a line holding both `Standby Database` and `STATUS`. The extracted blocks never produce such a line, because their headings and field lines fall on different lines. So the rule cannot fire on the monitor's own analysis text (`AlertRules.InfoBlocksRaiseNoStatusAlert`).
- **The capacity rule** reads `整体使用率` (overall usage) from the analysis text. That text is `html_analysis`, which never holds the tablespace statistics, so the rule only fires on text that carries the label (`AlertRules.CapacityNeedsLabel`).
- **Error patterns.** The interactive monitor keeps a blank piece of the pattern list as the empty pattern, which matches every line. The service mode drops blank pieces (`Scanner.BlankPieceGivesEmptyPattern`, `Scanner.EmptyPatternFlagsEveryLine`).

## Model

| member | source | states |
|---|---|---|
| Scanner.NormalizePatterns | opera_task_standalone/opera_monitor.py:258-259 | each pattern is lower case; with the blank filter none is empty; without it there is one pattern per piece, pattern k being piece k stripped and lower-cased |
| Scanner.DropBlankPieces | opera_task_standalone/opera_monitor.py:258-259 | filtering blank pieces is normalising exactly the pieces that are not blank after stripping, so pattern k is the k-th such piece stripped and lower-cased |
| Scanner.PatternList | opera_task_standalone/opera_monitor.py:257-259 | the patterns of the comma-separated setting: lower case, none empty with the blank filter, and one per comma-separated piece without it |
| Scanner.BlankPieceGivesEmptyPattern | opera_monitor.py:345-347 | without the blank filter a piece that is blank after stripping becomes the empty pattern |
| Scanner.FirstMatchFrom | opera_task_standalone/opera_monitor.py:314-318 | the first pattern, in list order, that occurs in the line; none of the earlier ones occurs |
| Scanner.HitLinesOrdered | opera_task_standalone/opera_monitor.py:310-319 | the reported lines are in increasing order and are lines of the output |
| Scanner.HitLinesMembers | opera_task_standalone/opera_monitor.py:310-319 | a line is reported exactly when some pattern occurs in its lower-cased text |
| Scanner.BasicErrorsLength | opera_task_standalone/opera_monitor.py:313-318 | one entry per reported line (the inner `break`) |
| Scanner.BasicErrorsShape | opera_task_standalone/opera_monitor.py:313-318 | entry k is the k-th reported line, stripped |
| Scanner.BasicErrorsStep | opera_task_standalone/opera_monitor.py:313-318 | one more line extends the report by that stripped line exactly when it is hit |
| Scanner.AnalyzeBasicErrors | opera_task_standalone/opera_monitor.py:310-319 | the scanning loop computes the report specified by the lemmas above |
| Scanner.ContextHoldsLine | opera_monitor.py:415-417 | the context of a line is one to three lines and contains the line itself |
| Scanner.IssuesShape | opera_monitor.py:407-421 | issues come one per matching line in line order; each names the first pattern that occurs and carries the lines from i-1 to i+1 that exist |
| Scanner.IssuesComplete | opera_monitor.py:407-421 | every line in which a pattern occurs is reported |
| Scanner.EmptyPatternFlagsEveryLine | opera_monitor.py:412-413 | with the empty pattern in the list every line is an issue |
| Scanner.FirstPatternIndex | opera_monitor.py:412-419 | the inner loop stops at the first pattern that occurs in the line, or runs off the list when none does |
| Scanner.CheckForIssues | opera_monitor.py:407-421 | the issue scan over the lower-cased text equals the specified issue list, rendered as `发现 'p': context` |
| LegacyMonitor.MatchAt | opera_monitor.py:361-362 | a match of `\s*(\d+)\s+(YES\|NO)\s*` at the start consumes at least one character and no more than the text |
| LegacyMonitor.MatchAtShape | opera_monitor.py:361-362 | a match is a non-empty run of digits and the flag YES or NO |
| LegacyMonitor.RecordsShape | opera_monitor.py:361-362 | every record `findall` returns is well formed |
| LegacyMonitor.RecordLine | opera_monitor.py:361-362 | a line `<digits> <flag>` yields exactly that record, whatever the rest of the text, and the search resumes after it |
| LegacyMonitor.RecordsStep | opera_monitor.py:361-362 | after a match, `findall` resumes where the match ended |
| LegacyMonitor.NoDigitNoRecords | opera_monitor.py:361-362 | text without a digit holds no record |
| LegacyMonitor.LastTen | opera_monitor.py:367 | the last ten records in their order, or all of them when there are fewer |
| LegacyMonitor.SequenceLines | opera_monitor.py:364-369 | the record block is empty exactly when there is no record; otherwise the heading, then line k is the record line of the k-th of the last ten records |
| LegacyMonitor.SequenceOfOneLine | opera_monitor.py:364-369 | an output holding one `<digits> <flag>` line and no other digit gives the heading and that one record line |
| LegacyMonitor.FirstDigitFrom | opera_monitor.py:431 | the first digit at or after a position, with only non-digits before it |
| LegacyMonitor.SearchZeroMeaning | opera_monitor.py:431 | `re.search(r'"GAPS"[^0-9]*0')` succeeds exactly when some occurrence of the quoted key is followed by a 0 with only non-digits between them |
| LegacyMonitor.RoleVerdict | opera_monitor.py:425-428 | the role check is always shown, as passed or failed |
| LegacyMonitor.ZeroVerdictMeaning | opera_monitor.py:431-442 | a GAPS or NOT APPLIED check passes exactly when the bare word appears and the quoted key is followed by a 0; it is not shown exactly when the bare word is missing |
| LegacyMonitor.GapsNeedZero | opera_monitor.py:431-435 | when every occurrence of `"GAPS"` has a first digit other than 0 after it, the gaps check fails |
| LegacyMonitor.UsagePrecedence | opera_monitor.py:445-450 | usage is danger exactly when DANGER appears, warning exactly when WARNING appears without DANGER, and fine otherwise |
| LegacyMonitor.VerdictLines | opera_monitor.py:431-442 | a check writes one line unless it is not shown |
| LegacyMonitor.CheckDatabaseStatus | opera_monitor.py:423-450 | the chain of checks writes the lines of the specified status, two to four of them |
| LegacyMonitor.SummaryMeaning | opera_monitor.py:376-405 | the verdict is abnormal exactly when the standby output has issues or a scanned report has some; it cannot be written (NameError) exactly when the standby output is clean and the existing report could not be read |
| Timestamps.DaysInMonth | opera_task_standalone/opera_monitor.py:1110-1111 | 28 to 31 days; February has 29 exactly in a Gregorian leap year |
| Timestamps.DayField | opera_task_standalone/opera_monitor.py:1110-1111 | `%d` accepts only a day from 1 to 31 |
| Timestamps.HourField | opera_task_standalone/opera_monitor.py:1110-1111 | `%H` accepts only an hour below 24 |
| Timestamps.MinuteField | opera_task_standalone/opera_monitor.py:1110-1111 | `%M` accepts only a minute below 60 |
| Timestamps.MonthField | opera_task_standalone/opera_monitor.py:1110-1111 | `%b` accepts a month abbreviation in any letter case and gives its number |
| Timestamps.ParseStamp | opera_task_standalone/opera_monitor.py:1110-1111 | `strptime(s, '%d-%b-%Y %H:%M')` gives only valid calendar dates and times; None where it raises |
| Timestamps.FormatStamp | opera_task_standalone/opera_monitor.py:768-769 | the report's date layout `DD-MON-YYYY HH:MM` is seventeen characters |
| Timestamps.MonthNamesMatch | opera_task_standalone/opera_monitor.py:1110-1111 | every abbreviation the report prints reads back as its month |
| Timestamps.ParseFormat | opera_task_standalone/opera_monitor.py:1110-1111 | every date the report can print parses back to itself |
| Timestamps.OrdinalNextDay | opera_task_standalone/opera_monitor.py:1114-1115 | the day count advances by one within a month |
| Timestamps.OrdinalNextMonth | opera_task_standalone/opera_monitor.py:1114-1115 | the first of a month follows the last day of the month before |
| Timestamps.OrdinalNextYear | opera_task_standalone/opera_monitor.py:1114-1115 | 1 January follows 31 December of the year before |
| Timestamps.LeapYearLength | opera_task_standalone/opera_monitor.py:1114-1115 | a year has 366 days exactly when it is a leap year, else 365 |
| Timestamps.DaysDifference | opera_task_standalone/opera_monitor.py:1106-1119 | `(system - start).days`: the largest whole number of days not exceeding the difference in minutes; 0 when either date does not parse |
| Timestamps.DaysBetween | opera_task_standalone/opera_monitor.py:1106-1119 | for two parsed dates the day count is non-negative exactly when the system date is not earlier, is 0 for the same instant, and swapping the dates negates it, less one unless the gap is a whole number of days |
| Timestamps.OneDayLater | opera_task_standalone/opera_monitor.py:1106-1119 | a system date one calendar day after the start, same time, is one day of uptime |
| Timestamps.BandMonotone | opera_task_standalone/opera_monitor.py:1121-1128 | a longer uptime never lands in a milder band; 31 days is normal, 32 needs attention, 62 still does and 63 is the restart band |
| Timestamps.UptimeExamples | opera_task_standalone/opera_monitor.py:1106-1128 | from 1 January 2025 to 1 March is 59 days (attention) and to 10 March is 68 days (restart) |
| Timestamps.TimeStatusWithColor | opera_task_standalone/opera_monitor.py:1121-1128 | green up to 31 days, orange from 32 to 62, red from 63, each exactly on its range |
| HtmlReport.AfterMarkers | opera_task_standalone/opera_monitor.py:1062-1066 | found exactly when the headings occur in order, each after the previous one; the end of the chain lies inside the text |
| HtmlReport.TerminatorFrom | opera_task_standalone/opera_monitor.py:1134 | the end of a lazy capture is the first position where the lookahead holds; with `$` one always exists |
| HtmlReport.Section | opera_task_standalone/opera_monitor.py:1134 | a captured section contains none of its terminators, in any letter case |
| HtmlReport.NextElement | opera_task_standalone/opera_monitor.py:1148 | a lazy `<td...>(.*?)</td>` capture does not contain the closing tag, and the search moves forward |
| HtmlReport.Elements | opera_task_standalone/opera_monitor.py:1148 | no element `findall` returns contains its closing tag |
| HtmlReport.Rows | opera_task_standalone/opera_monitor.py:1141 | no row `findall` returns contains `</tr>` |
| HtmlReport.Cells | opera_task_standalone/opera_monitor.py:1148 | no cell `findall` returns contains `</td>` |
| HtmlReport.FirstOccurrenceNotInside | opera_task_standalone/opera_monitor.py:1148 | text that ends at the first occurrence of the closing tag does not contain it |
| HtmlReport.StripTags | opera_task_standalone/opera_monitor.py:1084 | `re.sub(r'<[^>]+>', '', s)` keeps only characters of s, never grows, and leaves no tag |
| HtmlReport.StripTagsIdempotent | opera_task_standalone/opera_monitor.py:1084 | removing tags a second time changes nothing |
| HtmlReport.CleanCells | opera_task_standalone/opera_monitor.py:1084 | one cleaned cell per cell: tags removed, then whitespace stripped |
| HtmlReport.FirstInfoRow | opera_task_standalone/opera_monitor.py:1146-1149 | the first row without `<th` that has enough cells, with no such row before it |
| HtmlReport.FieldLines | opera_task_standalone/opera_monitor.py:1162-1167 | one `   KEY: value` line per key, in key order |
| HtmlReport.InfoLines | opera_task_standalone/opera_monitor.py:1151-1166 | the field lines pair each key with the cleaned cell of its column |
| HtmlReport.InfoFromRows | opera_task_standalone/opera_monitor.py:1141-1169 | information is found exactly when some row qualifies, and it is read from the first qualifying row |
| HtmlReport.DatabaseInfo | opera_task_standalone/opera_monitor.py:1134-1169 | a role's block is found exactly when its section is found and one of its rows qualifies |
| HtmlReport.ProductionOmitsProtectionMode | opera_task_standalone/opera_monitor.py:1209 | the production block has no PROTECTION MODE line |
| HtmlReport.StandbyHasProtectionMode | opera_task_standalone/opera_monitor.py:1164 | the standby block carries PROTECTION MODE as its fourth line |
| HtmlReport.TimesTable | opera_task_standalone/opera_monitor.py:1062-1066 | the table body after the role and general-information headings stops before the first `</table>` |
| HtmlReport.ClassifyRows | opera_task_standalone/opera_monitor.py:1074-1084 | a row is a header row exactly when it holds `<th`; data rows carry their cleaned cells |
| HtmlReport.FirstTimesRow | opera_task_standalone/opera_monitor.py:1076-1098 | the first data row with enough cells for the role and both times non-empty, with none before it |
| HtmlReport.TimesAsWrittenFound | opera_task_standalone/opera_monitor.py:1076-1098 | whenever the loop as written finds times, they are those of the first fitting row |
| HtmlReport.TimesAsWrittenAgrees | opera_task_standalone/opera_monitor.py:1076-1098 | without a short row of seven or more cells, the loop as written finds times exactly when the corrected loop does |
| HtmlReport.TimesAsWrittenNeverRaises | opera_task_standalone/opera_monitor.py:1082-1104 | without such a short row, the loop as written never raises |
| HtmlReport.ShortRowRaises | opera_task_standalone/opera_monitor.py:1082-1104 | a seven-cell row before a complete standby row makes the loop as written raise, where the corrected loop returns the complete row's times |
| HtmlReport.TimesFromSectionAsWritten | opera_task_standalone/opera_monitor.py:1057-1104 | the extractor as written: any times it returns are both non-empty |
| HtmlReport.TimesFromSection | opera_task_standalone/opera_monitor.py:1057-1104 | the corrected extractor returns two non-empty times, and agrees with the code as written whenever that finds any |
| HtmlReport.TimesAgreeWithoutShortRow | opera_task_standalone/opera_monitor.py:1057-1104 | on a report without a short row of seven or more cells, the extractor as written and the corrected one return the same |
| HtmlReport.RoleUptime | opera_task_standalone/opera_monitor.py:1036-1049 | a role gets one uptime line exactly when the extractor as written finds its times, and that line shows the day count between them |
| HtmlReport.TimeAnalysis | opera_task_standalone/opera_monitor.py:1026-1055 | missing exactly when the extractor as written finds neither role's times; otherwise its lines, split at newlines, are the standby uptime line then the production one, each present exactly when that role's times are found |
| HtmlReport.OperaVersion | opera_task_standalone/opera_monitor.py:1220-1242 | a found Opera version is written as `   Opera Version: ...` |
| HtmlReport.FirstLabelledHeader | opera_task_standalone/opera_monitor.py:1258 | the first header cell reading the name, with none before it |
| HtmlReport.HeaderValue | opera_task_standalone/opera_monitor.py:1258-1264 | the value is the first cell after the first header cell reading the name; there is none without such a header |
| HtmlReport.OracleVersion | opera_task_standalone/opera_monitor.py:1244-1276 | the Oracle version block exists exactly when its section exists and VERSION or PLATFORM_NAME has a value |
| HtmlReport.LastDataRow | opera_task_standalone/opera_monitor.py:1299-1304 | the last non-header row: every later row is a header row |
| HtmlReport.BackupSection | opera_task_standalone/opera_monitor.py:1282 | a found backup section contains none of its four terminators, in any letter case |
| HtmlReport.BackupFromRows | opera_task_standalone/opera_monitor.py:1278-1335 | with no rows, the no-backup notice exactly when the section says so; otherwise a block exactly when the last data row has at least nine cells |
| HtmlReport.LastBackup | opera_task_standalone/opera_monitor.py:1278-1335 | a backup block needs the section; a section without rows gives the no-backup notice exactly when it says so, and nothing otherwise |
| HtmlReport.Part | opera_task_standalone/opera_monitor.py:979-1024 | a heading and its block are written exactly when the block was found and is not empty |
| HtmlReport.KeywordIssues | opera_task_standalone/opera_monitor.py:956-966 | an issue is listed exactly when its marker occurs, case-sensitive; only issue names are listed, in marker order, at most five |
| HtmlReport.IssuesFromMembers | opera_task_standalone/opera_monitor.py:956-966 | from marker k on, a name is found exactly when its marker occurs |
| HtmlReport.IssuesFromOrdered | opera_task_standalone/opera_monitor.py:956-966 | from marker k on, the names found are in marker order |
| HtmlReport.IssueNamesDistinct | opera_task_standalone/opera_monitor.py:956-966 | the five issue names are pairwise different |
| HtmlReport.AnalysisText | opera_task_standalone/opera_monitor.py:968-973 | without issues, the details, or nothing when they are blank; with issues, the details followed by the joined issues |
| HtmlReport.HtmlAnalysis | opera_task_standalone/opera_monitor.py:933-977 | a missing report gives the missing-file message with its path; a present one gives nothing exactly when no marker occurs and the details are blank; with no issue it gives the details, and with a marker the details followed by the joined issues |
| Tablespace.GroupedNumChars | opera_task_standalone/opera_monitor.py:481-482 | a comma-grouped decimal with its commas removed holds only digits and dots |
| Tablespace.Token | opera_task_standalone/opera_monitor.py:480-484 | a cell line adds at most one numeric token, made only of digits and dots |
| Tablespace.CollectFrom | opera_task_standalone/opera_monitor.py:467-486 | the inner scan only appends tokens and stops at three |
| Tablespace.CollectBeforeRowEnd | opera_task_standalone/opera_monitor.py:474-476 | a row's values come only from the lines before its first `</tr>` line |
| Tablespace.AddRow | opera_task_standalone/opera_monitor.py:489-503 | adding a row keeps the sums non-negative and the high count within the count |
| Tablespace.AddRowMeaning | opera_task_standalone/opera_monitor.py:489-503 | a row is counted exactly when it has three values that all convert, and counted as high exactly when its used percentage is also above 80; only then do the sums grow, by its first two values |
| Tablespace.ScanFrom | opera_task_standalone/opera_monitor.py:440-505 | the outer scan keeps the figures consistent and never lowers the count |
| Tablespace.TablespaceTotals | opera_task_standalone/opera_monitor.py:422-505 | the figures of a whole report are consistent |
| Tablespace.UsageLine | opera_task_standalone/opera_monitor.py:519 | the overall usage line starts with `整体使用率:` |
| Tablespace.HighLine | opera_task_standalone/opera_monitor.py:528-531 | the last line says that all are normal exactly when no tablespace is above 80 percent |
| Tablespace.OverallUsage | opera_task_standalone/opera_monitor.py:517-518 | the overall usage is summed SIZE over summed MAX SIZE in percent, never negative |
| Tablespace.UsageLines | opera_task_standalone/opera_monitor.py:517-526 | two lines (usage and verdict) exactly when the summed max size is positive |
| Tablespace.StatsShape | opera_task_standalone/opera_monitor.py:508-531 | no statistics exactly when nothing was counted; otherwise the count, two sums, the usage pair when the max size is positive, and the high line last |
| Tablespace.UsageReportedIff | opera_task_standalone/opera_monitor.py:508-531 | some line carries the overall-usage label exactly when a tablespace was counted and the summed max size is positive |
| Tablespace.TablespaceStats | opera_task_standalone/opera_monitor.py:422-536 | nothing is written when the report lacks the tablespace marker |
| Tablespace.CollectValues | opera_task_standalone/opera_monitor.py:467-486 | the inner loop gathers the values of the inner scan |
| Tablespace.AnalyzeTablespaceUsage | opera_task_standalone/opera_monitor.py:422-536 | the two nested loops compute the specified statistics of the report |
| AlertRules.AnalysisLines | opera_task_standalone/opera_monitor.py:662-667 | the analysis text is split into lines without newlines |
| AlertRules.FirstContaining | opera_task_standalone/opera_monitor.py:695-702 | the first alert holding the tag, with none before it; none exactly when no alert holds it |
| AlertRules.DaysMatchStart | opera_task_standalone/opera_monitor.py:674 | the leftmost position where `(\d+)天` matches, with no match before it |
| AlertRules.DayCount | opera_task_standalone/opera_monitor.py:674-675 | there is no day count exactly when `(\d+)天` matches nowhere |
| AlertRules.RuntimeAlerts | opera_task_standalone/opera_monitor.py:670-691 | at most one alert per line, each a runtime message for some role and day count |
| AlertRules.LineAlerts | opera_task_standalone/opera_monitor.py:670-691 | a line yields at most one alert, a runtime message for some role and day count |
| AlertRules.RuntimeAlertsAppend | opera_task_standalone/opera_monitor.py:670-691 | the alerts of two stretches of lines are those of the first followed by those of the second |
| AlertRules.RuntimeAlertsOfLine | opera_task_standalone/opera_monitor.py:670-691 | a single line yields its own alert, or nothing |
| AlertRules.RuntimeAlert | opera_task_standalone/opera_monitor.py:660-707 | no alert without analysis text or without a runtime alert in it; otherwise one of the alerts: the first critical one, or when none is critical the first warning one |
| AlertRules.EveryRuntimeAlertTagged | opera_task_standalone/opera_monitor.py:677-690 | every runtime alert is tagged critical or warning |
| AlertRules.RuntimeMessageTag | opera_task_standalone/opera_monitor.py:677-690 | 63 days or more is tagged critical; 32 to 62 is tagged warning and not critical |
| AlertRules.RuntimeRuleAgreesWithBand | opera_task_standalone/opera_monitor.py:677-690 | on the monitor's own uptime line the rule is silent exactly in the normal band and critical exactly in the restart band |
| AlertRules.LineReadsBack | opera_task_standalone/opera_monitor.py:674-675 | the rule reads the day count of an uptime line back as the magnitude of the days |
| AlertRules.RoleMarker | opera_task_standalone/opera_monitor.py:672-683 | a standby uptime line carries the standby marker; a production one carries only the production marker |
| AlertRules.StatusLineAlertMeaning | opera_task_standalone/opera_monitor.py:721-728 | a standby alert needs `Standby Database` without MOUNTED, a production alert needs `Production Database` without OPEN, and both need STATUS |
| AlertRules.FirstStatusAlert | opera_task_standalone/opera_monitor.py:716-734 | no alert exactly when no line raises one; otherwise the alert of the first line that does |
| AlertRules.StatusAlert | opera_task_standalone/opera_monitor.py:709-737 | no analysis text means no alert; otherwise the first line alert |
| AlertRules.InfoBlocksRaiseNoStatusAlert | opera_task_standalone/opera_monitor.py:709-737 | the standby and production blocks that the extractors write never raise a status alert |
| AlertRules.MarkerValue | opera_task_standalone/opera_monitor.py:751-761 | a value is read only from a line that holds its marker |
| AlertRules.BackupStepMeaning | opera_task_standalone/opera_monitor.py:751-761 | a line changes the end time or system date exactly when it sets it, and then to what follows its marker |
| AlertRules.LastSetting | opera_task_standalone/opera_monitor.py:751-761 | the last line that sets a value, with no later line setting it |
| AlertRules.BackupTimesLast | opera_task_standalone/opera_monitor.py:751-761 | each time read is the one after the marker on the last line that sets it |
| AlertRules.BackupDecision | opera_task_standalone/opera_monitor.py:763-776 | the only alert is the RMAN backup alert |
| AlertRules.BackupAlert | opera_task_standalone/opera_monitor.py:739-783 | no alert without analysis text; the only alert is the RMAN backup alert |
| AlertRules.BackupThreshold | opera_task_standalone/opera_monitor.py:763-776 | for dates in the report's layout, the alert fires exactly when the backup is more than 48 hours old |
| AlertRules.BackupNeedsParse | opera_task_standalone/opera_monitor.py:774-776 | a date that does not parse raises no alert |
| AlertRules.BackupExamples | opera_task_standalone/opera_monitor.py:763-776 | a backup at 20-JUL-2025 16:36 is not late at 22-JUL 15:36 or 16:36, and is late at 17:36 |
| AlertRules.BackupReadsFieldLines | opera_task_standalone/opera_monitor.py:739-783 | on `END_TIME` and `SYSTEM DATE` field lines the alert fires exactly when the gap is over 48 hours |
| AlertRules.FieldLinesTimes | opera_task_standalone/opera_monitor.py:751-761 | the backup rule reads both times back from the field lines the extractor writes |
| AlertRules.UsageMatchFrom | opera_task_standalone/opera_monitor.py:797 | the leftmost match of `整体使用率:\s*([\d.]+)%`, with none before it |
| AlertRules.UsageText | opera_task_standalone/opera_monitor.py:797 | a captured usage is non-empty digits and dots, taken from a line holding the label |
| AlertRules.CapacityAlert | opera_task_standalone/opera_monitor.py:785-808 | no analysis text means no capacity alert |
| AlertRules.CapacityScanStops | opera_task_standalone/opera_monitor.py:792-808 | the scan answers from the first line that ends it: one whose usage is above 70, or one whose captured usage `float()` rejects (the handler then returns None) |
| AlertRules.CapacityMessageTag | opera_task_standalone/opera_monitor.py:800-803 | above 80 percent the alert is critical; otherwise it is a warning and not critical |
| AlertRules.UsageLineReads | opera_task_standalone/opera_monitor.py:797-799 | the usage line the tablespace statistics write (line 519) reads back as the same two-decimal text |
| AlertRules.UsageLineAlert | opera_task_standalone/opera_monitor.py:797-806 | on an overall-usage line, above 80 is critical, above 70 is a warning, and otherwise the scan goes on |
| AlertRules.CapacityBoundaries | opera_task_standalone/opera_monitor.py:800-803 | 80.00 is a warning, 70.00 raises nothing and 80.01 is critical |
| AlertRules.CapacityNeedsLabel | opera_task_standalone/opera_monitor.py:785-808 | without an overall-usage label in the analysis text, there is no capacity alert |
| Analysis.TaggedStep | opera_task_standalone/opera_monitor.py:591-599 | a tagged alert never lowers the level and keeps the escalation coherent: the level is critical exactly when a critical message is listed, a warning level lists a warning, a normal one none |
| Analysis.CriticalStep | opera_task_standalone/opera_monitor.py:602-611 | a critical alert never lowers the level and keeps the escalation coherent |
| Analysis.KeywordStep | opera_task_standalone/opera_monitor.py:626-630 | the keyword check can only raise Normal to Warning, and leaves the critical list alone |
| Analysis.Escalate | opera_task_standalone/opera_monitor.py:583-630 | the escalation over the four rules and the keywords is coherent |
| Analysis.EscalateOver | opera_task_standalone/opera_monitor.py:583-630 | the five escalation steps leave the escalation coherent: critical exactly when a critical message is listed, a warning level with a warning listed, and no warning at the normal level |
| Analysis.EscalationMonotone | opera_task_standalone/opera_monitor.py:590-630 | each rule in turn leaves the level where it was or raises it |
| Analysis.CriticalUptimeIsCritical | opera_task_standalone/opera_monitor.py:591-599 | a critical uptime alert makes the level critical and is the first critical message |
| Analysis.CriticalRuntimeFirst | opera_task_standalone/opera_monitor.py:591-630 | a critical first alert gives the critical level whatever the later rules find, and it stays first |
| Analysis.EscalateLevels | opera_task_standalone/opera_monitor.py:590-630 | the escalation steps compute the specified escalation |
| Analysis.ApplyTagged | opera_task_standalone/opera_monitor.py:591-599 | one tagged step on the level and the lists |
| Analysis.ApplyCritical | opera_task_standalone/opera_monitor.py:602-611 | one critical step on the level and the lists |
| Analysis.RootCause | opera_task_standalone/opera_monitor.py:651-656 | at most one root-cause line: the client set-up exactly when sqlplus and "not recognized" occur in the errors; else the connection exactly when ora- does; else archive gaps exactly when the analysis text has 间隙; else none |
| Analysis.AnalyzeAlertLevels | opera_task_standalone/opera_monitor.py:583-658 | the alert lines are those of the specified escalation, error total and root cause |
| Analysis.CriticalListsOnlyCritical | opera_task_standalone/opera_monitor.py:633-644 | at the critical level the critical messages follow the header and no warning is listed |
| Analysis.AlertLinesHeader | opera_task_standalone/opera_monitor.py:633-644 | the first line names the level |
| Analysis.Performance | opera_task_standalone/opera_monitor.py:321-348 | the performance analysis has three items |
| Analysis.PerformanceNormalIff | opera_task_standalone/opera_monitor.py:321-348 | some item says normal exactly when `rfs` appears, or `mrp` together with `wait_for_log` |
| Analysis.ProcessCount | opera_task_standalone/opera_monitor.py:551-564 | at most three processes; none exactly when mrp, rfs and lgwr are all absent |
| Analysis.Risks | opera_task_standalone/opera_monitor.py:538-581 | the risk analysis has four items |
| Analysis.RiskIff | opera_task_standalone/opera_monitor.py:538-581 | some item names a risk exactly when there is an ORA- or TNS- error, the client is missing, or no key process runs |
| Analysis.WarningCount | opera_task_standalone/opera_monitor.py:818-825 | no more warnings than lines |
| Analysis.CriticalCount | opera_task_standalone/opera_monitor.py:818-825 | no more critical counts than lines |
| Analysis.CountsPositive | opera_task_standalone/opera_monitor.py:818-825 | the counts are positive exactly when some line counts as a warning or as critical |
| Analysis.CountAlerts | opera_task_standalone/opera_monitor.py:818-825 | the counting loop counts the specified warning and critical lines |
| Analysis.CountedIffRaised | opera_task_standalone/opera_monitor.py:818-825 | the alert lines count positive exactly when the level is not normal |
| Analysis.SummaryLinesAdvice | opera_task_standalone/opera_monitor.py:851-859 | the summary advises rechecking within the hour exactly when the total is positive, and contacting the administrator exactly when it is above 3 |
| Analysis.SummaryAdvice | opera_task_standalone/opera_monitor.py:810-861 | the total counts the alert lines and both error lists, and drives the advice |
| Analysis.GenerateSummary | opera_task_standalone/opera_monitor.py:810-861 | the summary method writes the specified summary for the computed total |
| Analysis.WriteSummary | opera_task_standalone/opera_monitor.py:834-859 | the staged appends write the specified summary lines |
| Analysis.PerformanceSummary | opera_task_standalone/opera_monitor.py:834-837 | the summary calls performance fine exactly when the performance analysis has a normal item |
| Analysis.RiskSummary | opera_task_standalone/opera_monitor.py:846-849 | the summary reports a potential risk exactly under the conditions of RiskIff |
| Analysis.CapacityNeverEscalates | opera_task_standalone/opera_monitor.py:614-622 | on an analysis text without the usage label the capacity rule takes no part in the escalation |
| Schedule.Target | opera_task_standalone/opera_monitor.py:171 | the target time lies on the day of now |
| Schedule.Due | opera_task_standalone/opera_monitor.py:157-189 | outside service mode never run; an invalid run time raises |
| Schedule.Monitor.ShouldRunNow | opera_task_standalone/opera_monitor.py:157-189 | the method answers as the daily-run rule does |
| Schedule.Monitor.MarkRun | opera_task_standalone/opera_monitor.py:198 | the run records its start instant and changes nothing else |
| Schedule.Monitor.constructor | opera_task_standalone/opera_monitor.py:127-155 | a new monitor has never run |
| Schedule.FirstRunAtTarget | opera_task_standalone/opera_monitor.py:174-179 | a monitor that never ran runs exactly once the run time of the day has come |
| Schedule.OncePerDay | opera_task_standalone/opera_monitor.py:181-189 | after a run the rule stays quiet for the rest of that day |
| Schedule.NextDayAtTarget | opera_task_standalone/opera_monitor.py:181-189 | on a later day it runs again exactly once the run time has come |
| Schedule.DueStaysDue | opera_task_standalone/opera_monitor.py:157-189 | within a day, once due it stays due until a run is recorded |
| Schedule.NotBeforeTarget | opera_task_standalone/opera_monitor.py:157-189 | before the run time of a day the rule never says run |
| Reconciliation.AutoDetectEncryption | email_service.py:118-139 | SSL exactly on port 465, none exactly on 25, STARTTLS on every other port |
| Reconciliation.VendorName | email_service.py:278-297 | a name exists exactly for a confirmation file with at least three `-` fields, and holds neither `%` nor `-` |
| Reconciliation.VendorNameMeaning | email_service.py:287-297 | the vendor is the third field, stripped, cut before its first `%` and stripped again |
| Reconciliation.FirstMonthDir | email_service.py:392-395 | the first path component that looks like `YYYY-MM`, with none before it |
| Reconciliation.YearMonth | email_service.py:378-409 | a found year-month has seven characters with `-` at index 4 |
| Reconciliation.YearMonthFromName | email_service.py:398-407 | with no year-month directory, a confirmation name of three or more `-` fields whose stripped first two are a year and a month gives those two joined by `-`, and anything else gives none; the result is four digits, `-`, two digits |
| Reconciliation.YearMonthPrefersPath | email_service.py:392-395 | the first path component that looks like a year-month wins over the name |
| Reconciliation.KeyIndex | email_service.py:104 | the position of a key among the entries, with no earlier entry for it |
| Reconciliation.PutMeaning | email_service.py:104 | after `config[key] = value` the key reads the value and the other keys read as before; keys stay unique and in order, and only a new key adds an entry |
| Reconciliation.GetAbsent | email_service.py:107 | a key reads a value exactly when some entry has it |
| Reconciliation.ParseLine | email_service.py:91-104 | a parsed line gives a non-empty key without `:` and a non-empty value |
| Reconciliation.ParseLineFirstColon | email_service.py:95-99 | only the first `:` separates, so a value may hold `:` |
| Reconciliation.Store | email_service.py:104 | the stored configuration has unique keys |
| Reconciliation.ParseLines | email_service.py:90-104 | one parse per line |
| Reconciliation.ConfigOf | email_service.py:89-104 | the configuration read from the lines has unique keys |
| Reconciliation.LastLineWins | email_service.py:104 | a key ends with the value of the last line that sets it |
| Reconciliation.KeyPresentIff | email_service.py:89-104 | a key is present exactly when some line sets it |
| Reconciliation.MissingFrom | email_service.py:107 | the missing required keys are exactly the required keys the configuration lacks |
| Reconciliation.LoadedHasKeys | email_service.py:107-111 | a loaded configuration has unique keys, the user name and the password |
| Reconciliation.LoadRefusedIff | email_service.py:107-109 | the file is refused exactly when no line sets the user name or no line sets the password |
| Reconciliation.LoadConfig | email_service.py:73-116 | the reading loop gives the specified configuration or refusal |
| Reconciliation.StoreLines | email_service.py:89-104 | the loop stores the configuration of the lines |
| Reconciliation.Normalize | email_service.py:171-175 | a normalised name holds no `_` |
| Reconciliation.NormalizedKeys | email_service.py:174-175 | the normalised keys in the configuration's order |
| Reconciliation.FirstVendorKey | email_service.py:174-177 | the first matching normalised key, with none before it |
| Reconciliation.GetVendorEmail | email_service.py:158-181 | the first entry whose normalised key is the normalised vendor gives the address; no address exactly when no key matches |
| Reconciliation.UnderscoresIgnored | email_service.py:171 | underscores in the vendor name do not change the lookup |
| Reconciliation.GroupIndex | email_service.py:341 | the position of a vendor's group, with none before it |
| Reconciliation.AddFileMeaning | email_service.py:341-344 | adding a file keeps vendors unique and in order, keeps every file already grouped, and adds only the new file, under its vendor |
| Reconciliation.ConfirmationFiles | email_service.py:332 | the confirmation files are exactly the names holding `确认函` |
| Reconciliation.GroupFiles | email_service.py:337-345 | the groups have unique vendors |
| Reconciliation.GroupFilesMeaning | email_service.py:337-345 | each grouped file is under the vendor its name gives, and each file with a vendor is in that vendor's group |
| Reconciliation.GroupByVendor | email_service.py:337-345 | the grouping loop builds the specified groups |
| Reconciliation.SkippedOf | email_service.py:351-369 | no more skipped vendors than groups |
| Reconciliation.SkippedMeaning | email_service.py:355-360 | the skipped vendors are exactly those whose send raised a ValueError naming the missing vendor |
| Reconciliation.SkippedStep | email_service.py:351-360 | processing one more vendor appends it exactly when it was skipped |
| Reconciliation.Mailer.constructor | email_service.py:54 | a new mailer has skipped nobody |
| Reconciliation.Mailer.SendAll | email_service.py:351-369 | the sending loop appends the specified skipped vendors |
| Reconciliation.Mailer.ProcessFolder | email_service.py:315-376 | the folder's confirmation files are grouped, the skipped vendors appended, and the summary counts written; the success count is the vendors less all skipped vendors, and on a fresh mailer it lies between 0 and the vendor count |
| Reconciliation.SubjectPrefix | email_service.py:450-453 | the subject has a `YYYY-MM月` prefix exactly when a year-month is found; otherwise it is the configured subject |
| Reconciliation.Sender | email_service.py:444-445 | the stripped `sender_email` whenever it is not empty, and otherwise the SMTP user name |
| Reconciliation.SenderFallback | email_service.py:445 | the user name is used when `sender_email` is missing or blank |
| Text.Strip | email_service.py:91 | `str.strip()` leaves no whitespace at either end |
| Text.StripSlice | email_service.py:91 | strip removes only whitespace, from both ends of a slice |
| Text.StripEmptyIff | email_service.py:92-93 | a line strips to nothing exactly when it is all whitespace |
| Text.Lower | opera_monitor.py:409 | lower-casing changes each character on its own (ASCII letters only) |
| Text.LowerTwice | opera_task_standalone/opera_monitor.py:259 | lower-casing twice changes nothing more |
| Text.Find | opera_task_standalone/opera_monitor.py:1258 | the first occurrence of a text at or after a position, with none before it |
| Text.FindIffContains | opera_monitor.py:413 | a search succeeds exactly when `p in s` holds |
| Text.Split | opera_monitor.py:409 | `s.split(c)` gives at least one piece, none holding the separator |
| Text.JoinSplit | opera_monitor.py:417 | joining the pieces of a split with the separator gives the text back |
| Text.SplitJoin | opera_monitor.py:417 | splitting a join at a separator that no part holds gives the parts back |
| Text.NatToString | opera_task_standalone/opera_monitor.py:1041 | `str(n)`: digits whose value is n, one digit exactly below 10, and no leading zero |
| Text.DecimalValue | opera_task_standalone/opera_monitor.py:489-491 | `float()` of digits and dots is never negative, and a dotless number reads as its integer; nothing for the empty text or a lone dot |
| Text.DecimalDomain | opera_task_standalone/opera_monitor.py:489-491 | `float()` of digits and dots succeeds exactly when the text has at most one dot and at least one digit, so `1.2.3` raises and `.5` does not |
| Text.Hundredths | opera_task_standalone/opera_monitor.py:519 | a number of hundredths written with two decimals is digits and a dot |
| Text.HundredthsRoundTrip | opera_task_standalone/opera_monitor.py:519 | two-decimal text, read back by `float()` as at line 799, gives the number written |
| Text.RoundHundredths | opera_task_standalone/opera_monitor.py:519 | `:.2f` rounds to the nearest hundredth |

## Left out

- The Tkinter interface, logging, progress callbacks and threads are left out. So are the subprocesses that run `check_standby` and `daily_report`, file reading and the SMTP connection. Their text, the report's content and the outcome of each send are parameters.
- The clock is left out: "now" is a parameter of `Schedule.Monitor.ShouldRunNow`, and instants are whole seconds of local time.
- Schedule.Monitor.MarkRun does not model the guard against a monitoring run that is already in progress, or the work a run does after recording its start.
- Schedule.Due: a `run_hour` or `run_minute` that `getint` cannot read is not modelled. The values are taken as integers.
- The uptime part of `check_database_status` (`opera_monitor.py:452-468`) is left out. It reads the wall clock, and the service mode's uptime analysis is modelled instead.
- Letter case and digits are ASCII only. `lower()`, `upper()`, `IGNORECASE`, `\d` and `isdigit()` on non-ASCII letters and digits are not modelled. Whitespace is Python's full `isspace()` set.
- Floating point is modelled as exact reals. `float()` on digits and dots is exact, and `:.2f` rounds halves up. Python's binary rounding of values that are not exact hundredths is not modelled.
- Tablespace.SumLine: the `:,.2f` sums are written without the thousands separator. No other part of the model reads them.
- AlertRules.RuntimeAlerts: the runtime rule is proved on the non-negative uptimes the extractor writes. A negative uptime (a start time after the system date) is read back with its magnitude, as the code does, and no further property is stated for it.
- The root-cause analysis tests `str(list).lower()` for a keyword. It is modelled as "some element, lower-cased, contains the keyword". None of the keywords holds a quote, a comma or a bracket, so no match can straddle two elements.
- The outer exception handler of `_analyze_tablespace_usage` (533-534) is not modelled: nothing in the modelled scan raises.
- The configuration file's existence, encoding errors, `int()` of `smtp_port`, and the explicit `smtp_encryption` override are left out. The port is an integer parameter of `AutoDetectEncryption`.
- Path handling is left out. `os.sep` is a parameter of `YearMonth`. `Path.glob("*.xlsx")` is replaced by the list of file names in the folder.
- Reconciliation.Mailer.ProcessFolder writes the success count as the code does. The count subtracts every vendor skipped since the mailer was created, so after an earlier folder it can be negative. Sends that fail for other reasons still count as successes. ProcessFolder states the fresh-mailer bounds.
- A general regular-expression engine is left out. Each pattern the core uses has its own matcher.
- The text of `analyze_results` and the mail body are left out. So is the summary of `_print_summary` beyond its counts.

## Findings

| source | as written | input that shows it | evidently intended | confidence | as-written member | corrected member |
|---|---|---|---|---|---|---|
| opera_task_standalone/opera_monitor.py:1082-1098 | A row with at least 7 cells passes the `len(cells) >= 7` test. The role's column test then finds too few cells for the role, so `start_time` and `system_date` are never assigned, and the `if start_time and system_date` test raises UnboundLocalError. The handler turns the error into None, so the complete rows after it are never read. | A standby table whose first data row has 7 cells and whose second row has 9 cells with both times | skip a row that is too short for the role and read the first complete row | not executed | HtmlReport.ShortRowRaises | HtmlReport.TimesFromSection |

The uptime lines of the time analysis follow the code as written (`HtmlReport.TimesFromSectionAsWritten`). The corrected `HtmlReport.TimesFromSection` is proved to return the same on every report without such a short row (`HtmlReport.TimesAgreeWithoutShortRow`).
