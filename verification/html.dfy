/** The fixed-layout HTML report: locating a section by its heading, the
    `<tr>`/`<td>` row and cell lists, tag stripping, and the extractors that
    map table positions to named fields (standby and production database
    information, start/system times, Opera and Oracle versions, the last
    backup), composed into the text that the alert rules read.

    Every regular expression of the report code is modelled by a matcher for
    that one pattern.  Case-insensitive searches lower-case the text (ASCII)
    and look for a lower-case marker. */
module HtmlReport {
  import opened Text
  import opened Timestamps

  // ---------------------------------------------------------------------------
  // Sections: `A.*?B(.*?)(?=T1|T2|...|$)` under DOTALL | IGNORECASE

  /** The markers occur in this order from `from` on, each starting at or
      after the end of the previous one: what `A.*?B.*?C` needs to match. */
  ghost predicate ChainFrom(low: string, markers: seq<string>, from: nat)
    decreases |markers|
  {
    markers == [] ||
    exists p: nat :: from <= p && OccursAt(low, markers[0], p) && ChainFrom(low, markers[1..], p + |markers[0]|)
  }

  /** The end of a chain of markers, each the first occurrence after the end
      of the previous one (`A.*?B.*?C`); None when one of them is missing.
      Taking first occurrences loses nothing: the chain is found exactly when
      some chain of occurrences exists. */
  function AfterMarkers(low: string, markers: seq<string>, from: nat): (r: Option<nat>)
    requires from <= |low|
    decreases |markers|
    ensures r.Some? ==> from <= r.value <= |low|
    ensures r.Some? <==> ChainFrom(low, markers, from)
  {
    if markers == [] then Some(from)
    else
      match Find(low, markers[0], from)
      case None => None
      case Some(i) =>
        var r := AfterMarkers(low, markers[1..], i + |markers[0]|);
        ChainEarlier(low, markers, from, i);
        r
  }

  /** A chain from a later occurrence of the first marker gives one from its
      first occurrence. */
  lemma ChainEarlier(low: string, markers: seq<string>, from: nat, i: nat)
    requires markers != [] && Find(low, markers[0], from) == Some(i)
    ensures ChainFrom(low, markers, from) <==> ChainFrom(low, markers[1..], i + |markers[0]|)
  {
    if ChainFrom(low, markers, from) {
      var p: nat :| from <= p && OccursAt(low, markers[0], p) && ChainFrom(low, markers[1..], p + |markers[0]|);
      assert i <= p;
      ChainLater(low, markers[1..], i + |markers[0]|, p + |markers[0]|);
    }
  }

  /** A chain that can start at b can start at any a <= b. */
  lemma ChainLater(low: string, markers: seq<string>, a: nat, b: nat)
    requires a <= b && ChainFrom(low, markers, b)
    ensures ChainFrom(low, markers, a)
  {
    if markers != [] {
      var p: nat :| b <= p && OccursAt(low, markers[0], p) && ChainFrom(low, markers[1..], p + |markers[0]|);
      assert a <= p;
    }
  }

  /** The lookahead `(?=T1|...|$)` holds at q: a terminator starts there, or
      (with `$`) q is the end of the text or the position of a final newline. */
  predicate AtTerminator(low: string, q: nat, terms: seq<string>, dollar: bool) {
    && q <= |low|
    && ((exists k | 0 <= k < |terms| :: OccursAt(low, terms[k], q))
        || (dollar && (q == |low| || (q + 1 == |low| && low[q] == '\n'))))
  }

  /** The first position at or after q where the lookahead holds: the end of
      the lazy capture. */
  function TerminatorFrom(low: string, q: nat, terms: seq<string>, dollar: bool): (r: Option<nat>)
    requires q <= |low|
    decreases |low| - q
    ensures r.Some? ==> q <= r.value <= |low| && AtTerminator(low, r.value, terms, dollar)
    ensures forall k :: q <= k <= |low| && (r.None? || k < r.value) ==> !AtTerminator(low, k, terms, dollar)
    ensures dollar ==> r.Some?
  {
    if AtTerminator(low, q, terms, dollar) then Some(q)
    else if q == |low| then None
    else TerminatorFrom(low, q + 1, terms, dollar)
  }

  /** The captured text of a section pattern: from the end of the heading
      markers to the nearest terminator. */
  function Section(content: string, markers: seq<string>, terms: seq<string>, dollar: bool): (r: Option<string>)
    ensures r.Some? ==> forall k :: 0 <= k < |terms| && terms[k] != "" ==> !Contains(Lower(r.value), terms[k])
  {
    var low := Lower(content);
    match AfterMarkers(low, markers, 0)
    case None => None
    case Some(c) =>
      match TerminatorFrom(low, c, terms, dollar)
      case None => None
      case Some(q) =>
        var sec := content[c..q];
        assert Lower(sec) == low[c..q];
        forall k | 0 <= k < |terms| && terms[k] != ""
          ensures !Contains(Lower(sec), terms[k])
        {
          if Contains(Lower(sec), terms[k]) {
            var j :| 0 <= j <= |Lower(sec)| - |terms[k]| && OccursAt(Lower(sec), terms[k], j);
            OccursInSlice(low, c, q, terms[k], j);
            assert AtTerminator(low, c + j, terms, dollar);
            assert false;
          }
        }
        Some(sec)
  }

  // ---------------------------------------------------------------------------
  // findall(r'<tag[^>]*>(.*?)</tag>', s, re.DOTALL)

  /** The next element at or after `from`: the text between the first '>'
      after the first `open` and the first `close` after that, with the
      position where the search resumes. */
  function NextElement(s: string, open: string, close: string, from: nat): (r: Option<(string, nat)>)
    requires close != ""
    ensures r.Some? ==> from < r.value.1 <= |s| && !Contains(r.value.0, close)
  {
    match Find(s, open, from)
    case None => None
    case Some(t) =>
      match FindChar(s, '>', t + |open|)
      case None => None
      case Some(g) =>
        match Find(s, close, g + 1)
        case None => None
        case Some(e) =>
          FirstOccurrenceNotInside(s, close, g + 1, e);
          Some((s[g + 1..e], e + |close|))
  }

  /** Text that ends at the first occurrence of p does not contain p. */
  lemma FirstOccurrenceNotInside(s: string, p: string, a: nat, e: nat)
    requires p != "" && a <= e <= |s|
    requires forall k :: a <= k < e ==> !OccursAt(s, p, k)
    ensures !Contains(s[a..e], p)
  {
    if Contains(s[a..e], p) {
      var j :| 0 <= j <= |s[a..e]| - |p| && OccursAt(s[a..e], p, j);
      OccursInSlice(s, a, e, p, j);
      assert false;
    }
  }

  /** Every non-overlapping element, left to right. */
  function Elements(s: string, open: string, close: string, from: nat): (r: seq<string>)
    requires close != ""
    decreases |s| - from
    ensures forall k :: 0 <= k < |r| ==> !Contains(r[k], close)
  {
    match NextElement(s, open, close, from)
    case None => []
    case Some((x, e)) => [x] + Elements(s, open, close, e)
  }

  /** The table rows of a piece of report (`<tr[^>]*>(.*?)</tr>`). */
  function Rows(s: string): (r: seq<string>)
    ensures forall k :: 0 <= k < |r| ==> !Contains(r[k], "</tr>")
  {
    Elements(s, "<tr", "</tr>", 0)
  }

  /** The cells of a row (`<td[^>]*>(.*?)</td>`). */
  function Cells(row: string): (r: seq<string>)
    ensures forall k :: 0 <= k < |r| ==> !Contains(r[k], "</td>")
  {
    Elements(row, "<td", "</td>", 0)
  }

  // ---------------------------------------------------------------------------
  // re.sub(r'<[^>]+>', '', s)

  /** Remove every tag: a '<' together with everything up to the first '>'
      after it, when at least one character lies between them. */
  function StripTags(s: string): (r: string)
    ensures |r| <= |s|
    ensures forall k :: 0 <= k < |r| ==> r[k] in s
    ensures s != [] && s[0] != '<' ==> r != [] && r[0] == s[0]
    ensures NoTag(r)
  {
    if s == [] then []
    else if s[0] == '<' && FindChar(s, '>', 1).Some? && FindChar(s, '>', 1).value >= 2 then
      var r := StripTags(s[FindChar(s, '>', 1).value + 1..]);
      r
    else
      var rest := StripTags(s[1..]);
      KeptCharNoTag(s, rest);
      [s[0]] + rest
  }

  /** Keeping the first character of s in front of the stripped rest leaves
      no tag behind it. */
  lemma KeptCharNoTag(s: string, rest: string)
    requires s != [] && !(s[0] == '<' && FindChar(s, '>', 1).Some? && FindChar(s, '>', 1).value >= 2)
    requires NoTag(rest) && (forall k :: 0 <= k < |rest| ==> rest[k] in s[1..])
    requires |s| > 1 && s[1] != '<' ==> rest != [] && rest[0] == s[1]
    ensures NoTag([s[0]] + rest)
  {
    var r := [s[0]] + rest;
    if s[0] == '<' {
      match FindChar(s, '>', 1)
      case None =>
        assert forall k :: 0 <= k < |rest| ==> rest[k] != '>';
        assert FindChar(r, '>', 1).None?;
      case Some(g) =>
        assert g == 1 && rest[0] == '>';
        assert FindChar(r, '>', 1) == Some(1);
    }
    NoTagCons(s[0], rest);
  }

  /** No tag is left: each '<' is followed by no '>' at all, or by '>' at once. */
  predicate NoTag(r: string) {
    forall i :: 0 <= i < |r| && r[i] == '<' ==> FindChar(r, '>', i + 1).None? || FindChar(r, '>', i + 1) == Some(i + 1)
  }

  lemma NoTagCons(c: char, rest: string)
    requires NoTag(rest)
    requires c == '<' ==> FindChar([c] + rest, '>', 1).None? || FindChar([c] + rest, '>', 1) == Some(1)
    ensures NoTag([c] + rest)
  {
    var r := [c] + rest;
    forall i | 1 <= i < |r| && r[i] == '<'
      ensures FindChar(r, '>', i + 1).None? || FindChar(r, '>', i + 1) == Some(i + 1)
    {
      FindCharShift(c, rest, i);
    }
  }

  lemma FindCharShift(c: char, rest: string, i: nat)
    requires 1 <= i <= |rest|
    ensures match FindChar(rest, '>', i)
      case None => FindChar([c] + rest, '>', i + 1).None?
      case Some(g) => FindChar([c] + rest, '>', i + 1) == Some(g + 1)
    decreases |rest| - i
  {
    if i < |rest| && rest[i] != '>' {
      FindCharShift(c, rest, i + 1);
    }
  }

  /** Stripping tags a second time changes nothing. */
  lemma {:induction false} StripTagsIdempotent(s: string)
    ensures StripTags(StripTags(s)) == StripTags(s)
  {
    NoTagFixed(StripTags(s));
  }

  lemma {:induction false} NoTagFixed(r: string)
    requires NoTag(r)
    ensures StripTags(r) == r
    decreases |r|
  {
    if r != [] {
      var rest := r[1..];
      assert NoTag(rest) by {
        forall i | 0 <= i < |rest| && rest[i] == '<'
          ensures FindChar(rest, '>', i + 1).None? || FindChar(rest, '>', i + 1) == Some(i + 1)
        {
          assert r == [r[0]] + rest;
          FindCharShift(r[0], rest, i + 1);
        }
      }
      NoTagFixed(rest);
    }
  }

  /** A cell's text: tags removed, then surrounding whitespace. */
  function CleanCell(cell: string): string {
    Strip(StripTags(cell))
  }

  function CleanCells(cells: seq<string>): (r: seq<string>)
    ensures |r| == |cells| && forall k :: 0 <= k < |r| ==> r[k] == CleanCell(cells[k])
  {
    seq(|cells|, k requires 0 <= k < |cells| => CleanCell(cells[k]))
  }

  // ---------------------------------------------------------------------------
  // Header rows

  /** re.search(r'<th[^>]*>', row, re.IGNORECASE): some "<th", in any letter
      case, has a '>' somewhere after it. */
  predicate HeaderTag(row: string) {
    match Find(Lower(row), "<th", 0)
    case None => false
    case Some(p) => FindChar(row, '>', p + 3).Some?
  }

  // ---------------------------------------------------------------------------
  // Standby / Production database information

  const GeneralInfoHeading: string := "<h3>general database information:</h3>"
  const InfoTerminators: seq<string> := ["<h3>", "<h2>", "</body>"]

  const StandbyKeys: seq<string> :=
    ["STATUS", "HOST NAME", "DATABASE ROLE", "PROTECTION MODE", "START TIME", "SYSTEM DATE"]
  const StandbyColumns: seq<nat> := [3, 4, 5, 6, 7, 8]
  const ProductionKeys: seq<string> := ["STATUS", "HOST NAME", "DATABASE ROLE", "START TIME", "SYSTEM DATE"]
  const ProductionColumns: seq<nat> := [3, 4, 5, 6, 7]

  /** A data row of the information table: no "<th" in it (plain substring
      test) and at least `minCells` cells. */
  predicate InfoRow(row: string, minCells: nat) {
    !Contains(row, "<th") && |Cells(row)| >= minCells
  }

  /** The first information row at or after j. */
  function FirstInfoRow(rows: seq<string>, minCells: nat, j: nat): (r: Option<nat>)
    requires j <= |rows|
    decreases |rows| - j
    ensures r.Some? ==> j <= r.value < |rows| && InfoRow(rows[r.value], minCells)
    ensures forall k :: j <= k < |rows| && (r.None? || k < r.value) ==> !InfoRow(rows[k], minCells)
  {
    if j == |rows| then None
    else if InfoRow(rows[j], minCells) then Some(j)
    else FirstInfoRow(rows, minCells, j + 1)
  }

  /** f"   {key}: {value}" for each key and its value. */
  function FieldLines(keys: seq<string>, values: seq<string>): (r: seq<string>)
    requires |keys| == |values|
    ensures |r| == |keys|
    ensures forall k :: 0 <= k < |r| ==> r[k] == "   " + keys[k] + ": " + values[k]
  {
    seq(|keys|, k requires 0 <= k < |keys| => "   " + keys[k] + ": " + values[k])
  }

  /** The cleaned cells at the given columns. */
  function ColumnValues(cols: seq<nat>, cells: seq<string>): (r: seq<string>)
    requires forall k :: 0 <= k < |cols| ==> cols[k] < |cells|
    ensures |r| == |cols|
    ensures forall k :: 0 <= k < |r| ==> r[k] == CleanCell(cells[cols[k]])
  {
    seq(|cols|, k requires 0 <= k < |cols| => CleanCell(cells[cols[k]]))
  }

  /** The field lines of a row: each key with the cleaned cell of its column. */
  function InfoLines(keys: seq<string>, cols: seq<nat>, cells: seq<string>): (r: seq<string>)
    requires |keys| == |cols| && forall k :: 0 <= k < |cols| ==> cols[k] < |cells|
    ensures |r| == |keys|
    ensures forall k :: 0 <= k < |r| ==> r[k] == "   " + keys[k] + ": " + CleanCell(cells[cols[k]])
  {
    FieldLines(keys, ColumnValues(cols, cells))
  }

  /** The field lines of the first non-header row with enough cells, by
      position; `None` when no row has enough cells. */
  function InfoFromRows(rows: seq<string>, minCells: nat, keys: seq<string>, cols: seq<nat>): (r: Option<string>)
    requires |keys| == |cols| && forall k :: 0 <= k < |cols| ==> cols[k] < minCells
    ensures r.Some? <==> exists i :: 0 <= i < |rows| && InfoRow(rows[i], minCells)
    ensures r.Some? ==> exists i :: (0 <= i < |rows| && InfoRow(rows[i], minCells)
        && (forall j :: 0 <= j < i ==> !InfoRow(rows[j], minCells))
        && r.value == Join(InfoLines(keys, cols, Cells(rows[i])), "\n"))
  {
    match FirstInfoRow(rows, minCells, 0)
    case None => None
    case Some(i) => Some(Join(InfoLines(keys, cols, Cells(rows[i])), "\n"))
  }

  /** The information block of one role: the "General Database Information"
      section after the role's heading, then its first fitting row. */
  function DatabaseInfo(content: string, heading: string, minCells: nat, keys: seq<string>, cols: seq<nat>): (r: Option<string>)
    requires |keys| == |cols| && forall k :: 0 <= k < |cols| ==> cols[k] < minCells
    ensures var sec := Section(content, [heading, GeneralInfoHeading], InfoTerminators, true);
      r.Some? <==> sec.Some? && exists i :: 0 <= i < |Rows(sec.value)| && InfoRow(Rows(sec.value)[i], minCells)
  {
    match Section(content, [heading, GeneralInfoHeading], InfoTerminators, true)
    case None => None
    case Some(sec) => InfoFromRows(Rows(sec), minCells, keys, cols)
  }

  function StandbyInfo(content: string): Option<string> {
    DatabaseInfo(content, "<h2>standby database</h2>", 9, StandbyKeys, StandbyColumns)
  }

  function ProductionInfo(content: string): Option<string> {
    DatabaseInfo(content, "<h2>production database</h2>", 8, ProductionKeys, ProductionColumns)
  }

  /** A field line whose key does not start with 'P' is not a PROTECTION MODE
      line. */
  lemma KeyLineNotProtection(key: string, value: string)
    requires key != [] && key[0] != 'P'
    ensures !StartsWith("   " + key + ": " + value, "   PROTECTION MODE")
  {
    var line := "   " + key + ": " + value;
    assert line[3] == key[0];
  }

  /** The production block has no PROTECTION MODE line. */
  lemma ProductionOmitsProtectionMode(cells: seq<string>)
    requires |cells| >= 8
    ensures forall k :: 0 <= k < |ProductionKeys| ==>
      !StartsWith(InfoLines(ProductionKeys, ProductionColumns, cells)[k], "   PROTECTION MODE")
  {
    var lines := InfoLines(ProductionKeys, ProductionColumns, cells);
    ProductionInitials();
    forall k | 0 <= k < |ProductionKeys|
      ensures !StartsWith(lines[k], "   PROTECTION MODE")
    {
      KeyLineNotProtection(ProductionKeys[k], CleanCell(cells[ProductionColumns[k]]));
    }
  }

  /** The production keys start with S, H, D, S, S. */
  lemma ProductionInitials()
    ensures forall k :: 0 <= k < |ProductionKeys| ==> ProductionKeys[k] != [] && ProductionKeys[k][0] != 'P'
  {
    var initials := seq(5, k requires 0 <= k < 5 => ProductionKeys[k][0]);
    assert initials == ['S', 'H', 'D', 'S', 'S'];
    assert forall k :: 0 <= k < 5 ==> ProductionKeys[k][0] == initials[k];
  }

  /** The standby block carries PROTECTION MODE as its fourth line. */
  lemma StandbyHasProtectionMode(cells: seq<string>)
    requires |cells| >= 9
    ensures StartsWith(InfoLines(StandbyKeys, StandbyColumns, cells)[3], "   PROTECTION MODE")
  {
    var key := StandbyKeys[3];
    KeyLineStarts(key, CleanCell(cells[StandbyColumns[3]]));
    ProtectionKey();
  }

  lemma ProtectionKey()
    ensures "   " + StandbyKeys[3] == "   PROTECTION MODE"
  {
  }

  lemma KeyLineStarts(key: string, value: string)
    ensures StartsWith("   " + key + ": " + value, "   " + key)
  {
    var p := "   " + key;
    assert ("   " + key + ": " + value)[..|p|] == p;
  }

  // ---------------------------------------------------------------------------
  // _extract_times_from_section

  datatype Role = Standby | Production

  function RoleHeading(role: Role): string {
    match role
    case Standby => "<h2>standby database</h2>"
    case Production => "<h2>production database</h2>"
  }

  function RoleName(role: Role): string {
    match role
    case Standby => "Standby"
    case Production => "Production"
  }

  /** Cells a row needs for the role; START TIME and SYSTEM DATE are its last
      two columns. */
  function RoleColumns(role: Role): nat {
    match role
    case Standby => 9
    case Production => 8
  }

  /** `<h2>Role</h2>.*?<h3>General Database Information:</h3>.*?<table[^>]*>(.*?)</table>`
      under DOTALL | IGNORECASE: the body of the first table after the headings. */
  function TimesTable(content: string, heading: string): (r: Option<string>)
    ensures r.Some? ==> !Contains(Lower(r.value), "</table>")
  {
    var low := Lower(content);
    match AfterMarkers(low, [heading, GeneralInfoHeading, "<table"], 0)
    case None => None
    case Some(t) =>
      match FindChar(low, '>', t)
      case None => None
      case Some(g) =>
        match Find(low, "</table>", g + 1)
        case None => None
        case Some(e) =>
          FirstOccurrenceNotInside(low, "</table>", g + 1, e);
          assert Lower(content[g + 1..e]) == low[g + 1..e];
          Some(content[g + 1..e])
  }

  /** A table row as the times extractor sees it: a header row, or its cleaned
      cells. */
  datatype TimesRow = HeaderRow | DataRow(cells: seq<string>)

  function ClassifyRows(rows: seq<string>): (r: seq<TimesRow>)
    ensures |r| == |rows|
    ensures forall k :: 0 <= k < |r| ==> (r[k].HeaderRow? <==> HeaderTag(rows[k]))
    ensures forall k :: 0 <= k < |r| && r[k].DataRow? ==> r[k].cells == CleanCells(Cells(rows[k]))
  {
    seq(|rows|, k requires 0 <= k < |rows| =>
      if HeaderTag(rows[k]) then HeaderRow else DataRow(CleanCells(Cells(rows[k]))))
  }

  /** How the row loop of the extractor ends: with a pair of times, by running
      out of rows, or by reading the time variables before anything was
      assigned to them (an UnboundLocalError that the extractor catches). */
  datatype TimesScan = Found(start: string, system: string) | Exhausted | Raised

  /** The row loop as written, from row j on.  `held` is the pair last
      assigned to the time variables: a row with at least 7 cells but fewer
      than the role needs assigns nothing and re-tests whatever is held. */
  function ScanTimesAsWritten(rs: seq<TimesRow>, role: Role, j: nat, held: Option<(string, string)>): TimesScan
    requires j <= |rs|
    decreases |rs| - j
  {
    if j == |rs| then Exhausted
    else
      match rs[j]
      case HeaderRow => ScanTimesAsWritten(rs, role, j + 1, held)
      case DataRow(c) =>
        if |c| < 7 then ScanTimesAsWritten(rs, role, j + 1, held)
        else
          var now: Option<(string, string)> :=
            if |c| >= RoleColumns(role) then Some((c[RoleColumns(role) - 2], c[RoleColumns(role) - 1])) else held;
          match now
          case None => Raised
          case Some((a, b)) =>
            if Strip(a) != "" && Strip(b) != "" then Found(Strip(a), Strip(b))
            else ScanTimesAsWritten(rs, role, j + 1, now)
  }

  /** A row the corrected loop accepts: enough cells for the role and both
      times non-blank. */
  predicate TimesRowFits(x: TimesRow, role: Role) {
    && x.DataRow?
    && |x.cells| >= RoleColumns(role)
    && Strip(x.cells[RoleColumns(role) - 2]) != ""
    && Strip(x.cells[RoleColumns(role) - 1]) != ""
  }

  function RowTimes(x: TimesRow, role: Role): (string, string)
    requires TimesRowFits(x, role)
  {
    (Strip(x.cells[RoleColumns(role) - 2]), Strip(x.cells[RoleColumns(role) - 1]))
  }

  /** The corrected loop: rows with too few cells for the role are skipped;
      the first fitting row at or after j. */
  function FirstTimesRow(rs: seq<TimesRow>, role: Role, j: nat): (r: Option<nat>)
    requires j <= |rs|
    decreases |rs| - j
    ensures r.Some? ==> j <= r.value < |rs| && TimesRowFits(rs[r.value], role)
    ensures forall k :: j <= k < |rs| && (r.None? || k < r.value) ==> !TimesRowFits(rs[k], role)
  {
    if j == |rs| then None
    else if TimesRowFits(rs[j], role) then Some(j)
    else FirstTimesRow(rs, role, j + 1)
  }

  function ScanTimes(rs: seq<TimesRow>, role: Role): Option<(string, string)>
  {
    match FirstTimesRow(rs, role, 0)
    case None => None
    case Some(i) => Some(RowTimes(rs[i], role))
  }

  /** Whenever the loop as written finds times, they are those of the first
      fitting row. */
  lemma {:induction false} TimesAsWrittenFound(rs: seq<TimesRow>, role: Role, j: nat, held: Option<(string, string)>)
    requires j <= |rs|
    requires held.Some? ==> Strip(held.value.0) == "" || Strip(held.value.1) == ""
    ensures var w := ScanTimesAsWritten(rs, role, j, held);
      w.Found? ==> FirstTimesRow(rs, role, j).Some? && (w.start, w.system) == RowTimes(rs[FirstTimesRow(rs, role, j).value], role)
    decreases |rs| - j
  {
    if j < |rs| {
      var w := ScanTimesAsWritten(rs, role, j, held);
      match rs[j]
      case HeaderRow =>
        assert w == ScanTimesAsWritten(rs, role, j + 1, held);
        TimesAsWrittenFound(rs, role, j + 1, held);
      case DataRow(c) =>
        var n := RoleColumns(role);
        if |c| < 7 {
          assert w == ScanTimesAsWritten(rs, role, j + 1, held);
          assert !TimesRowFits(rs[j], role);
          TimesAsWrittenFound(rs, role, j + 1, held);
        } else if |c| >= n {
          var now := Some((c[n - 2], c[n - 1]));
          if Strip(c[n - 2]) != "" && Strip(c[n - 1]) != "" {
            assert TimesRowFits(rs[j], role);
            assert w == Found(Strip(c[n - 2]), Strip(c[n - 1]));
          } else {
            assert w == ScanTimesAsWritten(rs, role, j + 1, now);
            assert !TimesRowFits(rs[j], role);
            TimesAsWrittenFound(rs, role, j + 1, now);
          }
        } else if held.Some? {
          assert w == ScanTimesAsWritten(rs, role, j + 1, held);
          assert !TimesRowFits(rs[j], role);
          TimesAsWrittenFound(rs, role, j + 1, held);
        }
    }
  }

  /** With no row of 7 cells or more that is short for the role, the loop as
      written finds times exactly when the corrected loop does. */
  lemma {:induction false} TimesAsWrittenAgrees(rs: seq<TimesRow>, role: Role, j: nat, held: Option<(string, string)>)
    requires j <= |rs|
    requires forall k :: j <= k < |rs| && rs[k].DataRow? ==> |rs[k].cells| < 7 || |rs[k].cells| >= RoleColumns(role)
    ensures ScanTimesAsWritten(rs, role, j, held).Found? <==> FirstTimesRow(rs, role, j).Some?
    decreases |rs| - j
  {
    if j < |rs| {
      var n := RoleColumns(role);
      if TimesRowFits(rs[j], role) {
        assert ScanTimesAsWritten(rs, role, j, held).Found?;
      } else {
        var next := if rs[j].DataRow? && |rs[j].cells| >= 7 then Some((rs[j].cells[n - 2], rs[j].cells[n - 1])) else held;
        assert ScanTimesAsWritten(rs, role, j, held) == ScanTimesAsWritten(rs, role, j + 1, next);
        TimesAsWrittenAgrees(rs, role, j + 1, next);
      }
    }
  }

  /** With no such short row, the loop as written never raises. */
  lemma {:induction false} TimesAsWrittenNeverRaises(rs: seq<TimesRow>, role: Role, j: nat, held: Option<(string, string)>)
    requires j <= |rs|
    requires forall k :: j <= k < |rs| && rs[k].DataRow? ==> |rs[k].cells| < 7 || |rs[k].cells| >= RoleColumns(role)
    ensures ScanTimesAsWritten(rs, role, j, held) != Raised
    decreases |rs| - j
  {
    if j < |rs| {
      var n := RoleColumns(role);
      var next := if rs[j].DataRow? && |rs[j].cells| >= 7 then Some((rs[j].cells[n - 2], rs[j].cells[n - 1])) else held;
      TimesAsWrittenNeverRaises(rs, role, j + 1, next);
    }
  }

  /** The extractor as written: None when the section or table is missing,
      when no row fits, and when the loop raises; found times are those of
      the first fitting row, and non-empty. */
  function TimesFromSectionAsWritten(content: string, role: Role): (r: Option<(string, string)>)
    ensures r.Some? ==> r.value.0 != "" && r.value.1 != ""
  {
    match TimesTable(content, RoleHeading(role))
    case None => None
    case Some(t) =>
      var rs := ClassifyRows(Rows(t));
      TimesAsWrittenFound(rs, role, 0, None);
      match ScanTimesAsWritten(rs, role, 0, None)
      case Found(a, b) => Some((a, b))
      case _ => None
  }

  /** No data row of the role's table has 7 cells or more but fewer than the
      role needs. */
  predicate NoShortRow(content: string, role: Role) {
    match TimesTable(content, RoleHeading(role))
    case None => true
    case Some(t) =>
      var rs := ClassifyRows(Rows(t));
      forall k :: 0 <= k < |rs| && rs[k].DataRow? ==> |rs[k].cells| < 7 || |rs[k].cells| >= RoleColumns(role)
  }

  /** Without such a short row the extractor as written and the corrected one
      give the same times. */
  lemma TimesAgreeWithoutShortRow(content: string, role: Role)
    requires NoShortRow(content, role)
    ensures TimesFromSectionAsWritten(content, role) == TimesFromSection(content, role)
  {
    match TimesTable(content, RoleHeading(role))
    case None =>
    case Some(t) =>
      var rs := ClassifyRows(Rows(t));
      TimesAsWrittenAgrees(rs, role, 0, None);
      TimesAsWrittenFound(rs, role, 0, None);
  }

  /** The extractor with short rows skipped, as the rest of the report uses it. */
  function TimesFromSection(content: string, role: Role): (r: Option<(string, string)>)
    ensures r.Some? ==> r.value.0 != "" && r.value.1 != ""
    ensures TimesFromSectionAsWritten(content, role).Some? ==> r == TimesFromSectionAsWritten(content, role)
  {
    match TimesTable(content, RoleHeading(role))
    case None => None
    case Some(t) =>
      TimesAsWrittenFound(ClassifyRows(Rows(t)), role, 0, None);
      ScanTimes(ClassifyRows(Rows(t)), role)
  }

  /** A row of seven cells ahead of a complete standby row makes the loop as
      written raise, where the corrected loop returns the complete row's
      times. */
  lemma ShortRowRaises(short: seq<string>, full: seq<string>)
    requires |short| == 7 && |full| == 9
    requires Strip(full[7]) != "" && Strip(full[8]) != ""
    ensures ScanTimesAsWritten([DataRow(short), DataRow(full)], Standby, 0, None) == Raised
    ensures ScanTimes([DataRow(short), DataRow(full)], Standby) == Some((Strip(full[7]), Strip(full[8])))
  {
    var rs := [DataRow(short), DataRow(full)];
    assert TimesRowFits(rs[1], Standby) && !TimesRowFits(rs[0], Standby);
    assert FirstTimesRow(rs, Standby, 0) == Some(1);
  }

  // ---------------------------------------------------------------------------
  // _analyze_time_difference

  /** f"   {Role}数据库运行时间: {days}天 {status}" for a role whose times were
      found. */
  function UptimeLine(role: Role, days: int): string {
    "   " + RuntimeLabel(role) + " " + IntToString(days) + "天 " + TimeStatusWithColor(days)
  }

  function RuntimeLabel(role: Role): string {
    RoleName(role) + "数据库运行时间:"
  }

  /** The uptime line of one role: present exactly when the extractor as
      written finds its times, and then the day count between them. */
  function RoleUptime(content: string, role: Role): (r: seq<string>)
    ensures |r| <= 1
    ensures r != [] <==> TimesFromSectionAsWritten(content, role).Some?
    ensures r != [] ==> var (a, b) := TimesFromSectionAsWritten(content, role).value;
      r[0] == UptimeLine(role, DaysDifference(a, b))
  {
    match TimesFromSectionAsWritten(content, role)
    case None => []
    case Some((a, b)) => if a != "" && b != "" then [UptimeLine(role, DaysDifference(a, b))] else []
  }

  /** The uptime of each role whose start and system times were found, the
      standby first; None when neither was found. */
  function TimeAnalysis(content: string): (r: Option<string>)
    ensures r.None? <==> TimesFromSectionAsWritten(content, Standby).None? && TimesFromSectionAsWritten(content, Production).None?
    ensures TimesFromSectionAsWritten(content, Standby).Some? ==>
      r.Some? && StartsWith(r.value, RoleUptime(content, Standby)[0])
    ensures r.Some? ==> Split(r.value, '\n') == RoleUptime(content, Standby) + RoleUptime(content, Production)
  {
    var sb := RoleUptime(content, Standby);
    var pr := RoleUptime(content, Production);
    var lines := sb + pr;
    if lines == [] then None
    else
      JoinStartsWithFirst(lines, "\n");
      assert sb != [] ==> lines[0] == sb[0];
      UptimeLinesSplit(content, sb, pr);
      Some(Join(lines, "\n"))
  }

  /** Lines without a newline, joined by newlines, split back into themselves. */
  lemma NewlineJoinSplits(lines: seq<string>)
    requires lines != [] && forall k :: 0 <= k < |lines| ==> '\n' !in lines[k]
    ensures Split(Join(lines, "\n"), '\n') == lines
  {
    assert "\n" == ['\n'];
    SplitJoin(lines, '\n');
  }

  /** The uptime lines hold no newline, so the joined analysis splits back
      into them. */
  lemma UptimeLinesSplit(content: string, sb: seq<string>, pr: seq<string>)
    requires sb == RoleUptime(content, Standby) && pr == RoleUptime(content, Production)
    requires sb + pr != []
    ensures Split(Join(sb + pr, "\n"), '\n') == sb + pr
  {
    RoleUptimeHasNoNewline(content, Standby);
    RoleUptimeHasNoNewline(content, Production);
    var lines := sb + pr;
    assert forall k :: 0 <= k < |lines| ==> '\n' !in lines[k] by {
      forall k | 0 <= k < |lines|
        ensures '\n' !in lines[k]
      {
        if k >= |sb| {
          assert lines[k] == pr[k - |sb|];
        }
      }
    }
    NewlineJoinSplits(lines);
  }

  lemma RoleUptimeHasNoNewline(content: string, role: Role)
    ensures forall k :: 0 <= k < |RoleUptime(content, role)| ==> '\n' !in RoleUptime(content, role)[k]
  {
    var r := RoleUptime(content, role);
    if r != [] {
      var (a, b) := TimesFromSectionAsWritten(content, role).value;
      UptimeLineHasNoNewline(role, DaysDifference(a, b));
    }
  }

  lemma UptimeLineHasNoNewline(role: Role, days: int)
    ensures '\n' !in UptimeLine(role, days)
  {
    var n := if days < 0 then -days else days;
    DigitsHaveNo(NatToString(n), '\n');
    assert '\n' !in IntToString(days);
    StatusHasNoNewline(days);
    assert '\n' !in RuntimeLabel(role);
    NoNewlineInFive("   ", RuntimeLabel(role) + " ", IntToString(days), "天 ", TimeStatusWithColor(days));
  }

  lemma NoNewlineInFive(a: string, b: string, c: string, d: string, e: string)
    requires '\n' !in a && '\n' !in b && '\n' !in c && '\n' !in d && '\n' !in e
    ensures '\n' !in a + b + c + d + e
  {
  }

  lemma StatusHasNoNewline(days: int)
    ensures '\n' !in TimeStatusWithColor(days)
  {
    if days <= 31 {
      SpanHasNoNewline("green", "状态正常");
    } else if days <= 62 {
      SpanHasNoNewline("orange", "需要关注");
    } else {
      SpanHasNoNewline("red", "立即关注，建议立即重启服务器以释放资源");
    }
  }

  lemma SpanHasNoNewline(colour: string, text: string)
    requires '\n' !in colour && '\n' !in text
    ensures '\n' !in ColouredSpan(colour, text)
  {
  }

  lemma JoinStartsWithFirst(parts: seq<string>, sep: string)
    requires parts != []
    ensures StartsWith(Join(parts, sep), parts[0])
  {
    if |parts| > 1 {
      assert (parts[0] + sep + Join(parts[1..], sep))[..|parts[0]|] == parts[0];
    }
  }

  // ---------------------------------------------------------------------------
  // Version blocks

  /** `<h3>Opera Version Information:</h3>(.*?)(?=<h3>|</body>|$)`, then its
      first cell, stripped, untagged and stripped again. */
  function OperaVersion(content: string): (r: Option<string>)
    ensures r.Some? ==> StartsWith(r.value, "   Opera Version: ")
  {
    match Section(content, ["<h3>opera version information:</h3>"], ["<h3>", "</body>"], true)
    case None => None
    case Some(sec) =>
      match NextElement(sec, "<td", "</td>", 0)
      case None => None
      case Some((v, _)) =>
        var line := "   Opera Version: " + Strip(StripTags(Strip(v)));
        assert line[..|"   Opera Version: "|] == "   Opera Version: ";
        Some(line)
  }

  /** `<th[^>]*>\s*NAME\s*</th>` starts at t (case-sensitive). */
  predicate LabelledHeader(s: string, name: string, t: nat) {
    && OccursAt(s, "<th", t)
    && match FindChar(s, '>', t + 3)
       case None => false
       case Some(g) =>
         var u := SkipSpace(s, g + 1);
         && OccursAt(s, name, u)
         && OccursAt(s, "</th>", SkipSpace(s, u + |name|))
  }

  /** Where the header cell that starts at t ends. */
  function HeaderEnd(s: string, name: string, t: nat): (r: nat)
    requires LabelledHeader(s, name, t)
    ensures t < r <= |s|
  {
    var g := FindChar(s, '>', t + 3).value;
    SkipSpace(s, SkipSpace(s, g + 1) + |name|) + 5
  }

  /** The first labelled header cell at or after `from`. */
  function FirstLabelledHeader(s: string, name: string, from: nat): (r: Option<nat>)
    decreases |s| - from
    ensures r.Some? ==> from <= r.value && LabelledHeader(s, name, r.value)
    ensures forall t :: from <= t && (r.None? || t < r.value) ==> !LabelledHeader(s, name, t)
  {
    if from >= |s| then None
    else if LabelledHeader(s, name, from) then Some(from)
    else FirstLabelledHeader(s, name, from + 1)
  }

  /** `<th[^>]*>\s*NAME\s*</th>.*?<td[^>]*>(.*?)</td>`: the first cell after
      the first header cell that reads NAME. */
  function HeaderValue(s: string, name: string): (r: Option<string>)
    ensures r.Some? ==> exists t: nat :: (LabelledHeader(s, name, t)
      && (forall t' :: 0 <= t' < t ==> !LabelledHeader(s, name, t'))
      && NextElement(s, "<td", "</td>", HeaderEnd(s, name, t)).Some?
      && r.value == NextElement(s, "<td", "</td>", HeaderEnd(s, name, t)).value.0)
    ensures (forall t: nat :: !LabelledHeader(s, name, t)) ==> r.None?
  {
    match FirstLabelledHeader(s, name, 0)
    case None => None
    case Some(t) =>
      match NextElement(s, "<td", "</td>", HeaderEnd(s, name, t))
      case None => None
      case Some((v, _)) => Some(v)
  }

  /** The VERSION and PLATFORM_NAME values of the Oracle version block. */
  function OracleVersion(content: string): (r: Option<string>)
    ensures var sec := Section(content, ["<h3>oracle version information:</h3>"], InfoTerminators, true);
      r.Some? <==> sec.Some? && (HeaderValue(sec.value, "VERSION").Some? || HeaderValue(sec.value, "PLATFORM_NAME").Some?)
  {
    match Section(content, ["<h3>oracle version information:</h3>"], InfoTerminators, true)
    case None => None
    case Some(sec) =>
      var version := match HeaderValue(sec, "VERSION")
        case None => []
        case Some(v) => ["   Oracle Version: " + CleanCell(v)];
      var platform := match HeaderValue(sec, "PLATFORM_NAME")
        case None => []
        case Some(v) => ["   Platform: " + CleanCell(v)];
      var lines := version + platform;
      if lines == [] then None else Some(Join(lines, "\n"))
  }

  // ---------------------------------------------------------------------------
  // _extract_last_backup_info

  const BackupKeys: seq<string> :=
    ["SESSION_RECID", "START_TIME", "END_TIME", "OUTPUT_MBYTES", "STATUS", "INPUT_TYPE", "DAY", "TIME_TAKEN", "OUTPUT_INSTANCE"]
  const BackupColumns: seq<nat> := [0, 1, 2, 3, 4, 5, 6, 7, 8]
  const NoBackupMessage: string := "   未找到备份信息，请检查备份日志"

  /** `<h3>List of last 3 days backups:</h3>(.*?)(?=<h3>|<h2>|</body>|spool off)`:
      no end-of-text alternative, so a section without a terminator is not
      found. */
  function BackupSection(content: string): (r: Option<string>)
    ensures r.Some? ==> forall k :: 0 <= k < |BackupTerminators| ==> !Contains(Lower(r.value), BackupTerminators[k])
  {
    Section(content, ["<h3>list of last 3 days backups:</h3>"], BackupTerminators, false)
  }

  const BackupTerminators: seq<string> := ["<h3>", "<h2>", "</body>", "spool off"]

  /** The last row before index n that is not a header row. */
  function LastDataRow(rows: seq<string>, n: nat): (r: Option<nat>)
    requires n <= |rows|
    ensures r.Some? ==> r.value < n && !HeaderTag(rows[r.value])
    ensures forall j :: 0 <= j < n && (r.None? || r.value < j) ==> HeaderTag(rows[j])
  {
    if n == 0 then None
    else if !HeaderTag(rows[n - 1]) then Some(n - 1)
    else LastDataRow(rows, n - 1)
  }

  /** The nine backup fields of a row, one per line. */
  function BackupLines(cells: seq<string>): string
    requires |cells| >= 9
  {
    Join(InfoLines(BackupKeys, BackupColumns, cells), "\n")
  }

  /** The last non-header row of the backup table, reported field by field
      when it has at least nine cells; with no rows at all, a fixed notice if
      the section says that no backup was found (`notice`). */
  function BackupFromRows(rows: seq<string>, notice: bool): (r: Option<string>)
    ensures rows == [] ==> (r.Some? <==> notice) && (r.Some? ==> r.value == NoBackupMessage)
    ensures var last := LastDataRow(rows, |rows|);
      rows != [] ==> (r.Some? <==> last.Some? && |Cells(rows[last.value])| >= 9)
    ensures var last := LastDataRow(rows, |rows|);
      rows != [] && r.Some? ==> last.Some? && |Cells(rows[last.value])| >= 9 && r.value == BackupLines(Cells(rows[last.value]))
  {
    if rows == [] then
      (if notice then Some(NoBackupMessage) else None)
    else
      match LastDataRow(rows, |rows|)
      case None => None
      case Some(i) =>
        var cells := Cells(rows[i]);
        if |cells| >= 9 then Some(BackupLines(cells)) else None
  }

  function LastBackup(content: string): (r: Option<string>)
    ensures r.Some? ==> BackupSection(content).Some?
    ensures var sec := BackupSection(content);
      sec.Some? && Rows(sec.value) == [] ==>
        ((r.Some? <==> Contains(sec.value, "No backup information found")) && (r.Some? ==> r.value == NoBackupMessage))
  {
    match BackupSection(content)
    case None => None
    case Some(sec) => BackupFromRows(Rows(sec), Contains(sec, "No backup information found"))
  }

  // ---------------------------------------------------------------------------
  // _extract_database_details and analyze_html_report_service_mode

  /** A heading and its block, when the block was found and is not empty. */
  function Part(heading: string, block: Option<string>): (r: seq<string>)
    ensures r == [] || (block.Some? && r == [heading, block.value])
    ensures r != [] <==> block.Some? && block.value != ""
  {
    if block.Some? && block.value != "" then [heading, block.value] else []
  }

  const StandbyInfoHeading: string := "Standby Database 备库信息:"
  const ProductionHeadingLine: string := " Production Database 主库信息:"
  const ProductionInfoHeading: string := "\n" + ProductionHeadingLine

  /** The found blocks under their headings, one per line, in report order. */
  function DatabaseDetails(content: string): string {
    Join(
      Part(StandbyInfoHeading, StandbyInfo(content))
      + Part(ProductionInfoHeading, ProductionInfo(content))
      + Part("\n 服务器运行时间分析:", TimeAnalysis(content))
      + Part("\n Opera Version Information:", OperaVersion(content))
      + Part("\n Oracle Version Information:", OracleVersion(content))
      + Part("\n List of last 3 days backups (最后一条数据):", LastBackup(content)),
      "\n")
  }

  /** The fixed markers of the report and what each one adds, in order. */
  const IssueMarkers: seq<string> := ["归档日志间隙检查: 异常", "未应用日志检查: 异常", "DANGER", "ERROR", "Exception"]
  const IssueNames: seq<string> := ["发现归档日志间隙", "发现未应用日志", "发现危险状态", "发现错误", "发现异常"]

  /** The issue names whose marker occurs in the report (case-sensitive), in
      marker order. */
  function KeywordIssues(content: string): (r: seq<string>)
    ensures |r| <= |IssueMarkers|
    ensures forall k :: 0 <= k < |IssueMarkers| ==> (IssueNames[k] in r <==> Contains(content, IssueMarkers[k]))
    ensures forall x :: x in r ==> x in IssueNames
    ensures RankSorted(r)
  {
    var flags := MarkerFlags(content);
    IssuesFromMembers(flags, 0);
    IssuesFromNames(flags, 0);
    IssuesFromOrdered(flags, 0);
    IssuesFrom(flags, 0)
  }

  /** Which of the markers occur in the report. */
  function MarkerFlags(content: string): (r: seq<bool>)
    ensures |r| == |IssueMarkers| && forall k :: 0 <= k < |r| ==> (r[k] <==> Contains(content, IssueMarkers[k]))
  {
    seq(|IssueMarkers|, k requires 0 <= k < |IssueMarkers| => Contains(content, IssueMarkers[k]))
  }

  /** The names of the flagged markers from marker k on, in order. */
  function IssuesFrom(flags: seq<bool>, k: nat): (r: seq<string>)
    requires |flags| == |IssueMarkers| && k <= |IssueMarkers|
    decreases |IssueMarkers| - k
    ensures |r| <= |IssueMarkers| - k
  {
    if k == |IssueMarkers| then []
    else (if flags[k] then [IssueNames[k]] else []) + IssuesFrom(flags, k + 1)
  }

  /** The position of an issue name in `IssueNames`, read off its third
      character, where the five names differ (5 for any other text). */
  function MarkerRank(x: string): nat {
    if |x| < 3 then 5
    else if x[2] == '归' then 0
    else if x[2] == '未' then 1
    else if x[2] == '危' then 2
    else if x[2] == '错' then 3
    else if x[2] == '异' then 4
    else 5
  }

  lemma RankOfName(k: nat)
    requires k < |IssueNames|
    ensures MarkerRank(IssueNames[k]) == k
  {
    assert IssueNames[0][2] == '归' && IssueNames[1][2] == '未' && IssueNames[2][2] == '危';
    assert IssueNames[3][2] == '错' && IssueNames[4][2] == '异';
  }

  /** Each name's marker comes after the previous name's. */
  predicate RankSorted(xs: seq<string>) {
    forall i :: 0 < i < |xs| ==> MarkerRank(xs[i - 1]) < MarkerRank(xs[i])
  }

  lemma RankedCons(x: string, rest: seq<string>, k: nat)
    requires MarkerRank(x) == k && RankSorted(rest)
    requires forall y :: y in rest ==> k + 1 <= MarkerRank(y)
    ensures RankSorted([x] + rest)
  {
    var r := [x] + rest;
    forall i | 0 < i < |r|
      ensures MarkerRank(r[i - 1]) < MarkerRank(r[i])
    {
      assert r[i] == rest[i - 1] && r[i] in rest;
      if i > 1 {
        assert r[i - 1] == rest[i - 2];
      }
    }
  }

  /** The names found from marker k on come in marker order. */
  lemma {:induction false} IssuesFromOrdered(flags: seq<bool>, k: nat)
    requires |flags| == |IssueMarkers| && k <= |IssueMarkers|
    decreases |IssueMarkers| - k
    ensures RankSorted(IssuesFrom(flags, k))
  {
    if k < |IssueMarkers| {
      IssuesFromOrdered(flags, k + 1);
      var rest := IssuesFrom(flags, k + 1);
      var r := IssuesFrom(flags, k);
      if flags[k] {
        assert r == [IssueNames[k]] + rest;
        assert RankSorted([IssueNames[k]] + rest) by {
          RankOfName(k);
          IssuesFromNames(flags, k + 1);
          RanksFrom(k + 1);
          RankedCons(IssueNames[k], rest, k);
        }
      } else {
        assert r == rest;
      }
    }
  }

  /** The names from position k on have rank at least k. */
  lemma RanksFrom(k: nat)
    requires k <= |IssueNames|
    ensures forall x :: x in IssueNames[k..] ==> k <= MarkerRank(x)
  {
    forall x | x in IssueNames[k..]
      ensures k <= MarkerRank(x)
    {
      var i :| k <= i < |IssueNames| && IssueNames[i] == x;
      RankOfName(i);
    }
  }

  /** Every name found from marker k on is the name of a marker from k on. */
  lemma {:induction false} IssuesFromNames(flags: seq<bool>, k: nat)
    requires |flags| == |IssueMarkers| && k <= |IssueMarkers|
    decreases |IssueMarkers| - k
    ensures forall x :: x in IssuesFrom(flags, k) ==> x in IssueNames[k..]
  {
    if k < |IssueMarkers| {
      IssuesFromNames(flags, k + 1);
      assert IssueNames[k + 1..] == IssueNames[k..][1..];
    }
  }

  /** The five issue names are pairwise different (their third characters
      differ). */
  lemma IssueNamesDistinct()
    ensures forall i, j :: 0 <= i < j < |IssueNames| ==> IssueNames[i] != IssueNames[j]
  {
    assert IssueNames[0][2] == '归' && IssueNames[1][2] == '未' && IssueNames[2][2] == '危';
    assert IssueNames[3][2] == '错' && IssueNames[4][2] == '异';
  }

  /** A name is found from marker k on exactly when its marker is flagged. */
  lemma {:induction false} IssuesFromMembers(flags: seq<bool>, k: nat)
    requires |flags| == |IssueMarkers| && k <= |IssueMarkers|
    decreases |IssueMarkers| - k
    ensures forall j :: k <= j < |IssueMarkers| ==> (IssueNames[j] in IssuesFrom(flags, k) <==> flags[j])
  {
    if k < |IssueMarkers| {
      var rest := IssuesFrom(flags, k + 1);
      IssuesFromMembers(flags, k + 1);
      IssuesFromNames(flags, k + 1);
      IssueNamesDistinct();
      assert IssueNames[k] !in IssueNames[k + 1..];
      assert IssueNames[k] !in rest;
    }
  }

  const MissingReportPrefix: string := "HTML报告文件不存在: "
  const IssuesHeading: string := "\n\n异常情况: "

  /** The extracted details followed by the marker issues, when there are
      any; None when that text is blank. */
  function AnalysisText(details: string, issues: seq<string>): (r: Option<string>)
    ensures issues == [] ==> (r.None? <==> AllSpace(details)) && (r.Some? ==> r.value == details)
    ensures issues != [] ==> r == Some(details + IssuesHeading + Join(issues, "; "))
  {
    if issues == [] then
      StripEmptyIff(details);
      if Strip(details) == "" then None else Some(details)
    else
      var result := details + IssuesHeading + Join(issues, "; ");
      NotBlank(details, Join(issues, "; "));
      if Strip(result) == "" then None else Some(result)
  }

  /** analyze_html_report_service_mode on the report's text, with `report`
      None when the file does not exist. */
  function HtmlAnalysis(report: Option<string>, path: string): (r: Option<string>)
    ensures report.None? ==> r == Some(MissingReportPrefix + path)
    ensures report.Some? ==>
      (r.None? <==> KeywordIssues(report.value) == [] && AllSpace(DatabaseDetails(report.value)))
    ensures report.Some? && (exists k :: 0 <= k < |IssueMarkers| && Contains(report.value, IssueMarkers[k])) ==>
      r == Some(DatabaseDetails(report.value) + IssuesHeading + Join(KeywordIssues(report.value), "; "))
    ensures report.Some? && KeywordIssues(report.value) == [] && r.Some? ==> r.value == DatabaseDetails(report.value)
  {
    match report
    case None => Some(MissingReportPrefix + path)
    case Some(content) => AnalysisText(DatabaseDetails(content), KeywordIssues(content))
  }

  lemma NotBlank(details: string, rest: string)
    ensures Strip(details + IssuesHeading + rest) != ""
  {
    var s := details + IssuesHeading + rest;
    assert s[|details| + 2] == IssuesHeading[2];
    assert !AllSpace(s);
    StripEmptyIff(s);
  }
}
