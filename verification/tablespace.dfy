/** The tablespace statistics of the standalone monitor: the rows of the
    "Tablespace usage:" table are read line by line, sizes and percentages
    are summed, and a few summary lines are written. */
module Tablespace {
  import opened Text

  const SectionMarker: string := "Tablespace usage:"
  const TableEnd: string := "</table>"
  const RowEnd: string := "</tr>"
  const CellStart: string := "<td>"
  const OverallUsageLabel: string := "整体使用率:"

  /** The header words that a line after `<td>` may not be. */
  const HeaderWords: seq<string> := ["TABLESPACE", "SIZE (M)", "MAX SIZE (M)", "USED %", "TYPE", "STATUS"]

  /** A stripped line that names a tablespace: non-empty, not markup, not a
      header word. */
  predicate IsName(line: string) {
    line != [] && line[0] != '<' && line !in HeaderWords
  }

  predicate IsDigitOrComma(c: char) { IsDigit(c) || c == ',' }

  /** `^[\d,]+\.\d+$`: digits and commas, the one dot, then digits (the
      leading run cannot hold a dot, so the dot is the first one). */
  predicate GroupedDecimal(s: string) {
    match FindChar(s, '.', 0)
    case None => false
    case Some(p) => p >= 1 && p + 1 < |s| && (forall k :: 0 <= k < p ==> IsDigitOrComma(s[k])) && AllDigits(s[p + 1..])
  }

  /** `^[\d.]+$` with a '.' in it. */
  predicate PlainDecimal(s: string) {
    s != [] && AllNumChars(s) && '.' in s
  }

  /** Once the commas are gone, a grouped decimal holds only digits and
      dots. */
  lemma GroupedNumChars(line: string)
    requires GroupedDecimal(line)
    ensures AllNumChars(RemoveChar(line, ','))
  {
    var p := FindChar(line, '.', 0).value;
    forall k | 0 <= k < |line|
      ensures IsNumChar(line[k]) || line[k] == ','
    {
      if k > p {
        assert line[k] == line[p + 1..][k - p - 1];
      }
    }
    var t := RemoveChar(line, ',');
    forall k | 0 <= k < |t|
      ensures IsNumChar(t[k])
    {
      assert t[k] in line;
      var m :| 0 <= m < |line| && line[m] == t[k];
    }
  }

  /** What one cell line adds to the numeric values: the first pattern with
      the commas removed, else the second pattern as it is, else nothing. */
  function Token(line: string): (r: seq<string>)
    ensures |r| <= 1
    ensures forall k :: 0 <= k < |r| ==> AllNumChars(r[k])
  {
    if GroupedDecimal(line) then
      GroupedNumChars(line);
      var t := RemoveChar(line, ',');
      [t]
    else if PlainDecimal(line) then [line]
    else []
  }

  /** The inner scan from line j: cell lines give their tokens until three
      are found; a `<td>` line or one holding `</table>` is passed over, and
      one holding `</tr>` ends the row. */
  function CollectFrom(lines: seq<string>, j: nat, values: seq<string>): (r: seq<string>)
    requires forall k :: 0 <= k < |values| ==> AllNumChars(values[k])
    decreases |lines| - j
    ensures forall k :: 0 <= k < |r| ==> AllNumChars(r[k])
    ensures |values| <= |r| && r[..|values|] == values
    ensures |values| <= 3 ==> |r| <= 3
  {
    if j >= |lines| || |values| >= 3 then values
    else
      var cur := Strip(lines[j]);
      if cur == CellStart || Contains(cur, TableEnd) || Contains(cur, RowEnd) then
        if Contains(cur, RowEnd) then values else CollectFrom(lines, j + 1, values)
      else
        var r := CollectFrom(lines, j + 1, values + Token(cur));
        assert (values + Token(cur))[..|values|] == values;
        r
  }

  /** The values of a row come only from the lines before its first `</tr>`
      line: cutting the lines there changes nothing. */
  lemma {:induction false} CollectBeforeRowEnd(lines: seq<string>, j: nat, values: seq<string>, e: nat)
    requires forall k :: 0 <= k < |values| ==> AllNumChars(values[k])
    requires j <= e < |lines| && Contains(Strip(lines[e]), RowEnd)
    ensures CollectFrom(lines, j, values) == CollectFrom(lines[..e], j, values)
    decreases e - j
  {
    if |values| >= 3 {
    } else if j == e {
    } else {
      assert lines[..e][j] == lines[j];
      var cur := Strip(lines[j]);
      if cur == CellStart || Contains(cur, TableEnd) || Contains(cur, RowEnd) {
        if !Contains(cur, RowEnd) {
          CollectBeforeRowEnd(lines, j + 1, values, e);
        }
      } else {
        CollectBeforeRowEnd(lines, j + 1, values + Token(cur), e);
      }
    }
  }

  /** The running figures: tablespaces counted, summed SIZE and MAX SIZE
      (in MB), and tablespaces used above 80 percent. */
  datatype Totals = Totals(count: nat, size: real, maxSize: real, high: nat)

  const NoTotals: Totals := Totals(0, 0.0, 0.0, 0)

  predicate ValidTotals(t: Totals) {
    t.size >= 0.0 && t.maxSize >= 0.0 && t.high <= t.count
  }

  /** A row with at least three values all of which float() reads: its
      size and max size are added, it is counted, and it counts as high
      when its used percentage is above 80. */
  function AddRow(t: Totals, values: seq<string>): (r: Totals)
    requires forall k :: 0 <= k < |values| ==> AllNumChars(values[k])
    ensures ValidTotals(t) ==> ValidTotals(r)
  {
    if |values| < 3 then t
    else
      match (DecimalValue(values[0]), DecimalValue(values[1]), DecimalValue(values[2]))
      case (Some(size), Some(maxSize), Some(used)) =>
        Totals(t.count + 1, t.size + size, t.maxSize + maxSize, t.high + (if used > 80.0 then 1 else 0))
      case _ => t
  }

  /** A row is counted exactly when it has three values that all convert,
      and counted as high exactly when, besides, its used percentage is above
      80; the sums grow by its first two values. */
  lemma AddRowMeaning(t: Totals, values: seq<string>)
    requires forall k :: 0 <= k < |values| ==> AllNumChars(values[k])
    ensures var r := AddRow(t, values);
      var ok := |values| >= 3 && DecimalValue(values[0]).Some? && DecimalValue(values[1]).Some? && DecimalValue(values[2]).Some?;
      (r.count == t.count + 1 <==> ok) && (r.count == t.count <==> !ok)
      && (r.high == t.high + 1 <==> ok && DecimalValue(values[2]).value > 80.0)
      && (r.high == t.high <==> !(ok && DecimalValue(values[2]).value > 80.0))
      && (ok ==> r.size == t.size + DecimalValue(values[0]).value && r.maxSize == t.maxSize + DecimalValue(values[1]).value)
      && (!ok ==> r == t)
  {
  }

  /** The outer scan from line i: a line holding the marker opens the
      section; inside it a line holding `</table>` stops the scan, and a
      `<td>` line followed by a name line starts a row whose values are
      collected from the line after the name. The scan moves on by one line
      in every case. */
  function ScanFrom(lines: seq<string>, i: nat, inSection: bool, t: Totals): (r: Totals)
    decreases |lines| - i
    ensures ValidTotals(t) ==> ValidTotals(r)
    ensures r.count >= t.count
  {
    if i >= |lines| then t
    else
      var line := Strip(lines[i]);
      if Contains(line, SectionMarker) then ScanFrom(lines, i + 1, true, t)
      else if inSection && Contains(line, TableEnd) then t
      else if inSection && line == CellStart && i + 1 < |lines| && IsName(Strip(lines[i + 1])) then
        ScanFrom(lines, i + 1, true, AddRow(t, CollectFrom(lines, i + 2, [])))
      else ScanFrom(lines, i + 1, inSection, t)
  }

  /** The figures for a whole report text. */
  function TablespaceTotals(content: string): (r: Totals)
    ensures ValidTotals(r)
  {
    ScanFrom(Split(content, '\n'), 0, false, NoTotals)
  }

  /** The overall-usage line, `整体使用率: {usage:.2f}%`, for a usage of n
      hundredths of a percent. */
  function UsageLine(n: nat): (r: string)
    ensures StartsWith(r, OverallUsageLabel)
  {
    OverallUsageLabel + " " + Hundredths(n) + "%"
  }

  function TwoDecimals(x: real): string
    requires x >= 0.0
  {
    Hundredths(RoundHundredths(x))
  }

  const UsageHigh: string := "⚠️ 整体使用率较高，建议关注"
  const UsageWatch: string := "📊 整体使用率正常，需要监控"
  const UsageGood: string := "✅ 整体使用率良好"
  const AllNormal: string := "✅ 所有表空间使用率正常"

  /** `表空间统计: 共 {count} 个表空间` */
  function CountLine(n: nat): (r: string)
    ensures r != [] && r[0] == '表'
  {
    "表空间统计: 共 " + NatToString(n) + " 个表空间"
  }

  /** `总SIZE (G): {x:.2f} GB` and `总MAX SIZE (G): {x:.2f} GB` */
  function SumLine(max: bool, x: real): (r: string)
    requires x >= 0.0
    ensures r != [] && r[0] == '总'
  {
    (if max then "总MAX SIZE (G): " else "总SIZE (G): ") + TwoDecimals(x) + " GB"
  }

  /** The last line: how many tablespaces are used above 80 percent, or that
      none is. */
  function HighLine(high: nat): (r: string)
    ensures r == AllNormal <==> high == 0
    ensures r != [] && r[0] in "🔴✅"
  {
    if high > 0 then
      var r := "🔴 高使用率表空间数量: " + NatToString(high) + " 个 (>80%)";
      assert r[0] != AllNormal[0];
      r
    else AllNormal
  }

  /** The statistics lines: nothing when no tablespace was counted;
      otherwise the count and the two sums in GB, the overall usage and its
      verdict when the summed max size is positive, and the number of
      tablespaces used above 80 percent. */
  function StatsLines(t: Totals): (r: seq<string>)
    requires ValidTotals(t)
  {
    if t.count == 0 then []
    else
      [CountLine(t.count), SumLine(false, t.size / 1024.0), SumLine(true, t.maxSize / 1024.0)]
      + UsageLines(t) + [HighLine(t.high)]
  }

  /** The overall usage in percent: summed SIZE over summed MAX SIZE. */
  function OverallUsage(t: Totals): (r: real)
    requires ValidTotals(t) && t.maxSize > 0.0
    ensures r >= 0.0
  {
    t.size / t.maxSize * 100.0
  }

  /** The overall usage and its verdict, when the summed max size is
      positive. */
  function UsageLines(t: Totals): (r: seq<string>)
    requires ValidTotals(t)
    ensures |r| == (if t.maxSize > 0.0 then 2 else 0)
    ensures |r| == 2 ==> r[1] != [] && r[1][0] in "⚠📊✅"
  {
    if t.maxSize > 0.0 then
      var usage := OverallUsage(t);
      [UsageLine(RoundHundredths(usage)), if usage > 80.0 then UsageHigh else if usage > 60.0 then UsageWatch else UsageGood]
    else []
  }

  /** The shape of the statistics: nothing exactly when no tablespace was
      counted; otherwise the count line, the two sums, the overall usage with
      its verdict only when the summed max size is positive, and the
      high-usage line last, which names a count exactly when some tablespace
      is above 80 percent. */
  lemma StatsShape(t: Totals)
    requires ValidTotals(t)
    ensures var r := StatsLines(t);
      (r == [] <==> t.count == 0)
      && (t.count > 0 ==>
            |r| == 4 + (if t.maxSize > 0.0 then 2 else 0) && (r[|r| - 1] == AllNormal <==> t.high == 0))
      && (t.count > 0 && t.maxSize > 0.0 ==> r[3] == UsageLine(RoundHundredths(OverallUsage(t))))
  {
    if t.count > 0 {
      var head := [CountLine(t.count), SumLine(false, t.size / 1024.0), SumLine(true, t.maxSize / 1024.0)];
      var u := UsageLines(t);
      LinesAround(head, u, HighLine(t.high));
    }
  }

  /** Three lines, some middle lines and a last one. */
  lemma LinesAround(head: seq<string>, u: seq<string>, last: string)
    requires |head| == 3
    ensures var r := head + u + [last];
      |r| == 4 + |u| && r[|r| - 1] == last && (u != [] ==> r[3] == u[0])
  {
  }

  /** The overall usage line is written exactly when a tablespace was
      counted and the summed max size is positive: no other statistics line
      starts with its label. */
  lemma UsageReportedIff(t: Totals)
    requires ValidTotals(t)
    ensures (exists k :: 0 <= k < |StatsLines(t)| && StartsWith(StatsLines(t)[k], OverallUsageLabel))
      <==> t.count > 0 && t.maxSize > 0.0
  {
    var r := StatsLines(t);
    if t.count > 0 {
      StatsShape(t);
      assert OverallUsageLabel[0] == '整';
      forall k | 0 <= k < |r| && StartsWith(r[k], OverallUsageLabel)
        ensures t.maxSize > 0.0 && k == 3
      {
        assert r[k] != [] && r[k][0] == '整';
        if k >= 3 && k < |r| - 1 {
          assert r[k] == UsageLines(t)[k - 3];
        }
      }
    }
  }

  /** What the monitor writes for a report text: nothing when the marker is
      missing, else the statistics lines. */
  function TablespaceStats(content: string): (r: seq<string>)
    ensures !Contains(content, SectionMarker) ==> r == []
  {
    if !Contains(content, SectionMarker) then [] else StatsLines(TablespaceTotals(content))
  }

  /** The inner loop: the numeric values of the row whose cells start at
      line `start`. */
  method CollectValues(lines: seq<string>, start: nat) returns (values: seq<string>)
    ensures values == CollectFrom(lines, start, [])
  {
    var j := start;
    values := [];
    while j < |lines| && |values| < 3
      invariant forall k :: 0 <= k < |values| ==> AllNumChars(values[k])
      invariant CollectFrom(lines, j, values) == CollectFrom(lines, start, [])
      decreases |lines| - j
    {
      var cur := Strip(lines[j]);
      if cur == CellStart || Contains(cur, TableEnd) || Contains(cur, RowEnd) {
        if Contains(cur, RowEnd) {
          break;
        }
        j := j + 1;
        continue;
      }
      values := values + Token(cur);
      j := j + 1;
    }
  }

  /** The monitor's scan: the outer loop walks the lines with the section
      flag and the running figures, and for each row an inner loop gathers
      the numeric values. */
  method AnalyzeTablespaceUsage(content: string) returns (stats: seq<string>)
    ensures stats == TablespaceStats(content)
  {
    stats := [];
    if !Contains(content, SectionMarker) {
      return;
    }
    var lines := Split(content, '\n');
    var inSection := false;
    var t := NoTotals;
    var i := 0;
    while i < |lines|
      invariant 0 <= i <= |lines|
      invariant ValidTotals(t)
      invariant ScanFrom(lines, i, inSection, t) == TablespaceTotals(content)
      decreases |lines| - i
    {
      var line := Strip(lines[i]);
      if Contains(line, SectionMarker) {
        inSection := true;
        i := i + 1;
        continue;
      }
      if inSection {
        if Contains(line, TableEnd) {
          break;
        }
        if line == CellStart && i + 1 < |lines| {
          var next := Strip(lines[i + 1]);
          if IsName(next) {
            var values := CollectValues(lines, i + 2);
            t := AddRow(t, values);
          }
        }
      }
      i := i + 1;
    }
    stats := StatsLines(t);
  }
}
