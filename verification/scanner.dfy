/** The two line scanners of the monitor: the service-mode error scan
    (`_analyze_basic_errors`) and the issue scan with one line of context on
    either side (`check_for_issues`), together with the construction of the
    pattern list from the comma-separated `error_patterns` setting. */
module Scanner {
  import opened Text

  /** The fallback value of the `error_patterns` setting. */
  const DefaultPatterns: string := "error,warning,danger,failed,ORA-,TNS-"

  // ---------------------------------------------------------------------------
  // Pattern list

  /** Each comma-separated piece, stripped and lower-cased; service mode drops
      the pieces that are blank after stripping, the interactive analysis keeps
      them (as the empty pattern). */
  function NormalizePatterns(pieces: seq<string>, dropEmpty: bool): (r: seq<string>)
    ensures dropEmpty ==> forall k :: 0 <= k < |r| ==> r[k] != ""
    ensures !dropEmpty ==> |r| == |pieces|
    ensures !dropEmpty ==> forall k :: 0 <= k < |r| ==> r[k] == Lower(Strip(pieces[k]))
    ensures forall k :: 0 <= k < |r| ==> Lower(r[k]) == r[k]
  {
    if pieces == [] then []
    else
      var p := Strip(pieces[0]);
      var rest := NormalizePatterns(pieces[1..], dropEmpty);
      if dropEmpty && p == "" then rest
      else
        LowerTwice(p);
        [Lower(p)] + rest
  }

  /** The pieces that are not blank after stripping, in their order. */
  function NonBlankPieces(pieces: seq<string>): (r: seq<string>)
    ensures forall k :: 0 <= k < |r| ==> Strip(r[k]) != ""
    ensures forall p :: p in pieces && Strip(p) != "" ==> p in r
    ensures forall p :: p in r ==> p in pieces
  {
    if pieces == [] then []
    else if Strip(pieces[0]) == "" then NonBlankPieces(pieces[1..])
    else [pieces[0]] + NonBlankPieces(pieces[1..])
  }

  /** Service mode's list is the interactive list of the non-blank pieces:
      pattern k is the k-th non-blank piece, stripped and lower-cased. */
  lemma {:induction false} DropBlankPieces(pieces: seq<string>)
    ensures NormalizePatterns(pieces, true) == NormalizePatterns(NonBlankPieces(pieces), false)
    ensures forall k :: 0 <= k < |NonBlankPieces(pieces)| ==>
      NormalizePatterns(pieces, true)[k] == Lower(Strip(NonBlankPieces(pieces)[k]))
  {
    if pieces != [] {
      DropBlankPieces(pieces[1..]);
      if Strip(pieces[0]) != "" {
        assert NonBlankPieces(pieces)[1..] == NonBlankPieces(pieces[1..]);
      }
    }
  }

  /** The patterns of a comma-separated setting. */
  function PatternList(setting: string, dropEmpty: bool): (r: seq<string>)
    ensures dropEmpty ==> forall k :: 0 <= k < |r| ==> r[k] != ""
    ensures !dropEmpty ==> |r| == |Split(setting, ',')|
    ensures !dropEmpty ==> forall k :: 0 <= k < |r| ==> r[k] == Lower(Strip(Split(setting, ',')[k]))
    ensures forall k :: 0 <= k < |r| ==> Lower(r[k]) == r[k]
  {
    NormalizePatterns(Split(setting, ','), dropEmpty)
  }

  /** Without the blank filter, a piece that is blank after stripping becomes
      the empty pattern. */
  lemma {:induction false} BlankPieceGivesEmptyPattern(pieces: seq<string>, i: nat)
    requires i < |pieces| && Strip(pieces[i]) == ""
    ensures NormalizePatterns(pieces, false)[i] == ""
  {
    if i > 0 {
      BlankPieceGivesEmptyPattern(pieces[1..], i - 1);
    }
  }

  // ---------------------------------------------------------------------------
  // First matching pattern of a line

  function FirstMatchFrom(line: string, patterns: seq<string>, j: nat): (r: Option<nat>)
    decreases |patterns| - j
    ensures r.Some? ==> j <= r.value < |patterns| && Contains(line, patterns[r.value])
    ensures forall k :: j <= k < |patterns| && (r.None? || k < r.value) ==> !Contains(line, patterns[k])
  {
    if j >= |patterns| then None
    else if Contains(line, patterns[j]) then Some(j)
    else FirstMatchFrom(line, patterns, j + 1)
  }

  /** The index of the first pattern, in list order, that occurs in `line`. */
  function FirstMatch(line: string, patterns: seq<string>): Option<nat>
  {
    FirstMatchFrom(line, patterns, 0)
  }

  predicate Hit(line: string, patterns: seq<string>) {
    FirstMatch(line, patterns).Some?
  }

  // ---------------------------------------------------------------------------
  // _analyze_basic_errors

  /** The stripped lines, in order, whose lower-cased text contains a pattern. */
  function BasicErrors(lines: seq<string>, patterns: seq<string>): seq<string>
  {
    if lines == [] then []
    else
      var last := lines[|lines| - 1];
      BasicErrors(lines[..|lines| - 1], patterns)
        + (if Hit(Lower(last), patterns) then [Strip(last)] else [])
  }

  /** The indices, in increasing order, of the lines that the scan reports. */
  function HitLines(lines: seq<string>, patterns: seq<string>): seq<nat>
  {
    if lines == [] then []
    else
      HitLines(lines[..|lines| - 1], patterns)
        + (if Hit(Lower(lines[|lines| - 1]), patterns) then [|lines| - 1] else [])
  }

  predicate StrictlyIncreasing(xs: seq<nat>) {
    forall a, b :: 0 <= a < b < |xs| ==> xs[a] < xs[b]
  }

  /** The reported line indices are increasing and index into the lines. */
  lemma {:induction false} HitLinesOrdered(lines: seq<string>, patterns: seq<string>)
    ensures var h := HitLines(lines, patterns);
      StrictlyIncreasing(h) && forall k :: 0 <= k < |h| ==> h[k] < |lines|
  {
    if lines != [] {
      var init := lines[..|lines| - 1];
      HitLinesOrdered(init, patterns);
    }
  }

  /** A line is reported exactly when one of the patterns occurs in its
      lower-cased text. */
  lemma {:induction false} HitLinesMembers(lines: seq<string>, patterns: seq<string>)
    ensures forall i :: 0 <= i < |lines| ==> (i in HitLines(lines, patterns) <==> Hit(Lower(lines[i]), patterns))
  {
    if lines != [] {
      var n := |lines|;
      var init := lines[..n - 1];
      var hi := HitLines(init, patterns);
      assert HitLines(lines, patterns) == hi + (if Hit(Lower(lines[n - 1]), patterns) then [n - 1] else []);
      assert n - 1 !in hi by {
        HitLinesOrdered(init, patterns);
      }
      forall i | 0 <= i < n - 1
        ensures i in hi <==> Hit(Lower(lines[i]), patterns)
      {
        HitLinesMembers(init, patterns);
        assert init[i] == lines[i];
      }
    }
  }

  /** One entry per reported line. */
  lemma {:induction false} BasicErrorsLength(lines: seq<string>, patterns: seq<string>)
    ensures |BasicErrors(lines, patterns)| == |HitLines(lines, patterns)|
  {
    if lines != [] {
      BasicErrorsLength(lines[..|lines| - 1], patterns);
    }
  }

  /** Entry k is line HitLines[k], stripped. */
  lemma {:induction false} BasicErrorsShape(lines: seq<string>, patterns: seq<string>)
    ensures var h := HitLines(lines, patterns);
      && |BasicErrors(lines, patterns)| == |h|
      && (forall k :: 0 <= k < |h| ==> h[k] < |lines| && BasicErrors(lines, patterns)[k] == Strip(lines[h[k]]))
  {
    if lines != [] {
      var n := |lines|;
      var init := lines[..n - 1];
      BasicErrorsShape(init, patterns);
      AlignedSnoc(BasicErrors(init, patterns), HitLines(init, patterns), lines, Hit(Lower(lines[n - 1]), patterns));
    }
  }

  /** Entry k of `errs` is line h[k] of `lines`, stripped. */
  predicate Aligned(errs: seq<string>, h: seq<nat>, lines: seq<string>) {
    |errs| == |h| && forall k :: 0 <= k < |h| ==> h[k] < |lines| && errs[k] == Strip(lines[h[k]])
  }

  lemma AlignedSnoc(errs: seq<string>, h: seq<nat>, lines: seq<string>, hit: bool)
    requires lines != [] && Aligned(errs, h, lines[..|lines| - 1])
    ensures Aligned(errs + (if hit then [Strip(lines[|lines| - 1])] else []),
                    h + (if hit then [|lines| - 1] else []), lines)
  {
    var init := lines[..|lines| - 1];
    assert forall k :: 0 <= k < |h| ==> init[h[k]] == lines[h[k]];
  }

  /** One more line extends the report by that line exactly when it is hit. */
  lemma BasicErrorsStep(lines: seq<string>, i: nat, patterns: seq<string>)
    requires i < |lines|
    ensures BasicErrors(lines[..i + 1], patterns)
      == BasicErrors(lines[..i], patterns) + (if Hit(Lower(lines[i]), patterns) then [Strip(lines[i])] else [])
  {
    assert lines[..i + 1][..i] == lines[..i];
  }

  /** The service-mode scan: for each line of `output`, the first pattern that
      occurs in its lower-cased text adds the stripped line. */
  method AnalyzeBasicErrors(output: string, patterns: seq<string>) returns (errors: seq<string>)
    ensures errors == BasicErrors(Split(output, '\n'), patterns)
  {
    var lines := Split(output, '\n');
    errors := [];
    var i := 0;
    while i < |lines|
      invariant 0 <= i <= |lines|
      invariant errors == BasicErrors(lines[..i], patterns)
    {
      var j := FirstPatternIndex(Lower(lines[i]), patterns);
      BasicErrorsStep(lines, i, patterns);
      if j < |patterns| {
        errors := errors + [Strip(lines[i])];
      }
      i := i + 1;
    }
    assert lines[..|lines|] == lines;
  }

  // ---------------------------------------------------------------------------
  // check_for_issues

  /** One reported issue: the line index, the pattern that matched first and
      the lines shown around it. */
  datatype Issue = Issue(line: nat, pattern: string, context: seq<string>)

  /** max(0, i - 1) */
  function ContextStart(i: nat): nat { if i == 0 then 0 else i - 1 }

  /** min(n, i + 2) */
  function ContextEnd(n: nat, i: nat): nat { if i + 2 < n then i + 2 else n }

  function IssueAt(lines: seq<string>, patterns: seq<string>, i: nat): Option<Issue>
    requires i < |lines|
  {
    match FirstMatch(lines[i], patterns)
    case None => None
    case Some(k) => Some(Issue(i, patterns[k], lines[ContextStart(i)..ContextEnd(|lines|, i)]))
  }

  /** The issues of lines 0 .. m-1, in line order. */
  function IssuesUpTo(lines: seq<string>, patterns: seq<string>, m: nat): seq<Issue>
    requires m <= |lines|
  {
    if m == 0 then []
    else
      IssuesUpTo(lines, patterns, m - 1)
        + (match IssueAt(lines, patterns, m - 1) case None => [] case Some(x) => [x])
  }

  /** f"发现 '{pattern}': {context}" with the context lines joined by newlines. */
  function RenderIssue(x: Issue): string {
    "发现 '" + x.pattern + "': " + Join(x.context, "\n")
  }

  function RenderIssues(xs: seq<Issue>): seq<string> {
    seq(|xs|, k requires 0 <= k < |xs| => RenderIssue(xs[k]))
  }

  ghost predicate IssueFits(lines: seq<string>, patterns: seq<string>, x: Issue) {
    && x.line < |lines|
    && FirstMatch(lines[x.line], patterns).Some?
    && x.pattern == patterns[FirstMatch(lines[x.line], patterns).value]
    && x.context == lines[ContextStart(x.line)..ContextEnd(|lines|, x.line)]
  }

  /** The context of line i is at most three lines and contains line i. */
  lemma ContextHoldsLine(lines: seq<string>, i: nat)
    requires i < |lines|
    ensures var c := lines[ContextStart(i)..ContextEnd(|lines|, i)];
      1 <= |c| <= 3 && c[i - ContextStart(i)] == lines[i]
  {
  }

  /** Issues come one per matching line, in line order; each names the first
      pattern in list order that occurs in the line, and carries the lines
      [max(0, i-1), min(n, i+2)) (see ContextHoldsLine). */
  lemma {:induction false} IssuesShape(lines: seq<string>, patterns: seq<string>, m: nat)
    requires m <= |lines|
    ensures forall a, b :: 0 <= a < b < |IssuesUpTo(lines, patterns, m)| ==>
      IssuesUpTo(lines, patterns, m)[a].line < IssuesUpTo(lines, patterns, m)[b].line
    ensures forall k :: 0 <= k < |IssuesUpTo(lines, patterns, m)| ==>
      IssuesUpTo(lines, patterns, m)[k].line < m && IssueFits(lines, patterns, IssuesUpTo(lines, patterns, m)[k])
  {
    if m > 0 {
      IssuesShape(lines, patterns, m - 1);
      var prev := IssuesUpTo(lines, patterns, m - 1);
      if Hit(lines[m - 1], patterns) {
        assert IssuesUpTo(lines, patterns, m) == prev + [IssueAt(lines, patterns, m - 1).value];
      }
    }
  }

  /** Every line in which some pattern occurs is reported. */
  lemma {:induction false} IssuesComplete(lines: seq<string>, patterns: seq<string>, m: nat, i: nat)
    requires i < m <= |lines| && Hit(lines[i], patterns)
    ensures exists k :: 0 <= k < |IssuesUpTo(lines, patterns, m)| && IssuesUpTo(lines, patterns, m)[k].line == i
  {
    var xs := IssuesUpTo(lines, patterns, m);
    var prev := IssuesUpTo(lines, patterns, m - 1);
    assert xs[..|prev|] == prev;
    if i == m - 1 {
      assert xs[|xs| - 1].line == i;
    } else {
      IssuesComplete(lines, patterns, m - 1, i);
      var k :| 0 <= k < |prev| && prev[k].line == i;
      assert xs[k] == prev[k];
    }
  }

  /** With the empty pattern in the list every line is an issue. */
  lemma {:induction false} EmptyPatternFlagsEveryLine(lines: seq<string>, patterns: seq<string>, m: nat)
    requires m <= |lines| && "" in patterns
    ensures |IssuesUpTo(lines, patterns, m)| == m
  {
    if m > 0 {
      EmptyPatternFlagsEveryLine(lines, patterns, m - 1);
      var k :| 0 <= k < |patterns| && patterns[k] == "";
      ContainsEmpty(lines[m - 1]);
      assert FirstMatch(lines[m - 1], patterns).Some?;
    }
  }

  /** The inner loop of the issue scan: the index of the first pattern that
      occurs in the line, or the length of the list when none does. */
  method FirstPatternIndex(line: string, patterns: seq<string>) returns (j: nat)
    ensures j <= |patterns|
    ensures j < |patterns| ==> FirstMatch(line, patterns) == Some(j)
    ensures j == |patterns| ==> FirstMatch(line, patterns).None?
  {
    j := 0;
    while j < |patterns|
      invariant 0 <= j <= |patterns|
      invariant FirstMatchFrom(line, patterns, j) == FirstMatch(line, patterns)
    {
      if Contains(line, patterns[j]) {
        break;
      }
      j := j + 1;
    }
  }

  /** The issue scan: lower-case the text, split it into lines and report, for
      each line, the first pattern that occurs in it with its context. */
  method CheckForIssues(text: string, patterns: seq<string>) returns (issues: seq<string>)
    ensures var lines := Split(Lower(text), '\n');
      issues == RenderIssues(IssuesUpTo(lines, patterns, |lines|))
  {
    var lines := Split(Lower(text), '\n');
    var n := |lines|;
    issues := [];
    var i := 0;
    while i < n
      invariant 0 <= i <= n
      invariant issues == RenderIssues(IssuesUpTo(lines, patterns, i))
    {
      var line := lines[i];
      var j := FirstPatternIndex(line, patterns);
      ghost var before := IssuesUpTo(lines, patterns, i);
      if j < |patterns| {
        assert FirstMatch(line, patterns) == Some(j);
        var start := if i - 1 < 0 then 0 else i - 1;
        var end := if n < i + 2 then n else i + 2;
        var context := Join(lines[start..end], "\n");
        issues := issues + ["发现 '" + patterns[j] + "': " + context];
        assert IssuesUpTo(lines, patterns, i + 1) == before + [IssueAt(lines, patterns, i).value];
      } else {
        assert FirstMatch(line, patterns).None?;
        assert IssuesUpTo(lines, patterns, i + 1) == before;
      }
      i := i + 1;
    }
  }
}
