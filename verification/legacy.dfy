/** The interactive analysis of the older monitor (`opera_monitor.py`):
    the last ten SEQUENCE#/APPLIED records of the standby output, the status
    checks on the HTML report and the closing summary. The issue scan and
    the pattern list it uses are those of module Scanner. */
module LegacyMonitor {
  import opened Text

  // ---------------------------------------------------------------------------
  // re.findall(r"\s*(\d+)\s+(YES|NO)\s*", output)

  /** One record: the sequence number and the applied flag. */
  datatype Record = Record(sequence: string, applied: string)

  predicate IsFlag(w: string) { w == "YES" || w == "NO" }

  /** The match of `(\d+)\s+(YES|NO)\s*` at the start of `v`, with its
      length. The greedy runs never need to give characters back: a shorter
      whitespace or digit run leaves a character the next item cannot take. */
  function MatchCore(v: string): (r: Option<(Record, nat)>)
    ensures r.Some? ==> 0 < r.value.1 <= |v|
  {
    var b := DigitRunEnd(v, 0);
    if b == 0 then None
    else
      var c := SkipSpace(v, b);
      if c == b then None
      else if StartsWith(v[c..], "YES") then Some((Record(v[..b], "YES"), SkipSpace(v, c + 3)))
      else if StartsWith(v[c..], "NO") then Some((Record(v[..b], "NO"), SkipSpace(v, c + 2)))
      else None
  }

  /** The same match, `a` characters longer. */
  function Widen(m: Option<(Record, nat)>, a: nat): Option<(Record, nat)> {
    match m
    case Some((x, n)) => Some((x, n + a))
    case None => None
  }

  /** The match of the whole pattern at the start of `t`, with its length:
      the leading `\s*` takes all the whitespace there, since giving some
      back would leave whitespace where a digit is needed. */
  function MatchAt(t: string): (r: Option<(Record, nat)>)
    ensures r.Some? ==> 0 < r.value.1 <= |t|
  {
    var a := SkipSpace(t, 0);
    Widen(MatchCore(t[a..]), a)
  }

  /** All matches, left to right and without overlap: after a match the
      search goes on where it ended, after a failure one character later. */
  function Records(t: string): seq<Record>
    decreases |t|
  {
    if t == [] then []
    else
      match MatchAt(t)
      case Some((x, n)) => [x] + Records(t[n..])
      case None => Records(t[1..])
  }

  predicate WellFormed(x: Record) {
    x.sequence != [] && AllDigits(x.sequence) && IsFlag(x.applied)
  }

  /** A match is a non-empty run of digits and a flag. */
  lemma MatchAtShape(t: string)
    ensures MatchAt(t).Some? ==> WellFormed(MatchAt(t).value.0)
  {
  }

  /** Every record found is a non-empty run of digits and a flag. */
  lemma {:induction false} RecordsShape(t: string)
    decreases |t|
    ensures forall k :: 0 <= k < |Records(t)| ==> WellFormed(Records(t)[k])
  {
    if t != [] {
      MatchAtShape(t);
      match MatchAt(t)
      case Some((x, n)) => RecordsShape(t[n..]);
      case None => RecordsShape(t[1..]);
    }
  }

  /** A line `<digits> <flag>` followed by any text yields exactly that
      record, and the search goes on in the rest: the trailing `\s*` of the
      match and the leading `\s*` of the next one take the same whitespace. */
  lemma RecordLine(d: string, w: string, rest: string)
    requires d != [] && AllDigits(d) && IsFlag(w)
    ensures Records(d + (" " + (w + rest))) == [Record(d, w)] + Records(rest)
  {
    var t := d + (" " + (w + rest));
    var k := SkipSpace(rest, 0);
    LinePositions(t, d, w, rest);
    FlagAt(w, rest);
    LineTail(d, w, rest, k);
    RecordsOfLine(t, d, w, rest, k);
  }

  /** The records of a text that starts with one, read off its positions. */
  lemma RecordsOfLine(t: string, d: string, w: string, rest: string, k: nat)
    requires d != [] && IsFlag(w) && |d| + 1 + |w| + k <= |t| && k == SkipSpace(rest, 0)
    requires SkipSpace(t, 0) == 0 && DigitRunEnd(t, 0) == |d| && t[0..|d|] == d
    requires SkipSpace(t, |d|) == |d| + 1 && SkipSpace(t, |d| + 1 + |w|) == |d| + 1 + |w| + k
    requires StartsWith(t[|d| + 1..], "YES") <==> w == "YES"
    requires StartsWith(t[|d| + 1..], "NO") <==> w == "NO"
    requires t[|d| + 1 + |w| + k..] == rest[k..]
    ensures Records(t) == [Record(d, w)] + Records(rest)
  {
    var e := |d| + 1 + |w| + k;
    assert Records(t) == [Record(d, w)] + Records(t[e..]) by {
      RecordsAfterMatch(t, d, w, |d| + 1, e);
    }
    JoinRecords(t, rest, Record(d, w), e, k);
  }

  lemma JoinRecords(t: string, rest: string, x: Record, e: nat, k: nat)
    requires e <= |t| && k == SkipSpace(rest, 0) && t[e..] == rest[k..]
    requires Records(t) == [x] + Records(t[e..])
    ensures Records(t) == [x] + Records(rest)
  {
    RestSkip(rest);
  }

  lemma LineTail(d: string, w: string, rest: string, k: nat)
    requires k <= |rest|
    ensures (d + (" " + (w + rest)))[|d| + 1 + |w| + k..] == rest[k..]
  {
    var head := d + (" " + w);
    assert d + (" " + (w + rest)) == head + rest by {
      Associate(" ", w, rest);
      Associate(d, " " + w, rest);
    }
    DropPrefix(head, rest);
  }

  /** The whitespace at the start of a text does not change its records. */
  lemma RestSkip(rest: string)
    ensures Records(rest) == Records(rest[SkipSpace(rest, 0)..])
  {
    SkipSpaceAll(rest, 0);
    LeadingSpaceRecords(rest, SkipSpace(rest, 0));
  }

  /** A match at the start contributes its record, and the search resumes
      where it ended. */
  lemma RecordsAfterMatch(t: string, d: string, w: string, c: nat, e: nat)
    requires d != [] && IsFlag(w) && c == |d| + 1 && c + |w| <= |t|
    requires SkipSpace(t, 0) == 0 && DigitRunEnd(t, 0) == |d| && t[0..|d|] == d
    requires SkipSpace(t, |d|) == c && SkipSpace(t, c + |w|) == e
    requires StartsWith(t[c..], "YES") <==> w == "YES"
    requires StartsWith(t[c..], "NO") <==> w == "NO"
    ensures e <= |t| && Records(t) == [Record(d, w)] + Records(t[e..])
  {
    MatchFromPositions(t, d, w, c, e);
    RecordsStep(t, Record(d, w), e);
  }

  lemma RecordsStep(t: string, x: Record, n: nat)
    requires t != [] && MatchAt(t) == Some((x, n))
    ensures Records(t) == [x] + Records(t[n..])
  {
  }

  /** The match read off the positions of its items. */
  lemma MatchFromPositions(t: string, d: string, w: string, c: nat, e: nat)
    requires d != [] && IsFlag(w) && c == |d| + 1 && c + |w| <= |t|
    requires SkipSpace(t, 0) == 0 && DigitRunEnd(t, 0) == |d| && t[0..|d|] == d
    requires SkipSpace(t, |d|) == c && SkipSpace(t, c + |w|) == e
    requires StartsWith(t[c..], "YES") <==> w == "YES"
    requires StartsWith(t[c..], "NO") <==> w == "NO"
    ensures MatchAt(t) == Some((Record(d, w), e))
  {
  }

  /** Where the items of the pattern start and end in such a line. */
  lemma LinePositions(t: string, d: string, w: string, rest: string)
    requires d != [] && AllDigits(d) && IsFlag(w)
    requires t == d + (" " + (w + rest))
    ensures SkipSpace(t, 0) == 0 && DigitRunEnd(t, 0) == |d| && t[0..|d|] == d
    ensures SkipSpace(t, |d|) == |d| + 1 && t[|d| + 1..] == w + rest
    ensures SkipSpace(t, |d| + 1 + |w|) == |d| + 1 + |w| + SkipSpace(rest, 0)
  {
    DigitsAtStart(t, d, " " + (w + rest));
    SpaceAfterDigits(t, d, w, rest);
    SpaceAfterFlag(t, d, w, rest);
  }

  lemma DigitsAtStart(t: string, d: string, rest: string)
    requires d != [] && AllDigits(d) && t == d + rest
    requires rest == [] || !IsDigit(rest[0])
    ensures SkipSpace(t, 0) == 0 && DigitRunEnd(t, 0) == |d| && t[0..|d|] == d
  {
    assert t[0] == d[0];
    DigitRunOf(t, d, rest);
  }

  lemma SpaceAfterDigits(t: string, d: string, w: string, rest: string)
    requires IsFlag(w) && t == d + (" " + (w + rest))
    ensures SkipSpace(t, |d|) == |d| + 1 && t[|d| + 1..] == w + rest
  {
    var c := |d| + 1;
    assert t[c..] == w + rest by {
      Associate(d, " ", w + rest);
      DropPrefix(d + " ", w + rest);
    }
    assert t[|d|] == ' ' && t[c] == w[0];
  }

  lemma SpaceAfterFlag(t: string, d: string, w: string, rest: string)
    requires t == d + (" " + (w + rest))
    ensures SkipSpace(t, |d| + 1 + |w|) == |d| + 1 + |w| + SkipSpace(rest, 0)
  {
    var head := d + (" " + w);
    assert t == head + rest by {
      Associate(" ", w, rest);
      Associate(d, " " + w, rest);
    }
    SkipSpaceOffset(head, rest, 0);
  }

  /** Skipping whitespace after a prefix is skipping it in the rest. */
  lemma {:induction false} SkipSpaceOffset(p: string, s: string, i: nat)
    requires i <= |s|
    decreases |s| - i
    ensures SkipSpace(p + s, |p| + i) == |p| + SkipSpace(s, i)
  {
    if i < |s| {
      assert (p + s)[|p| + i] == s[i];
      SkipSpaceOffset(p, s, i + 1);
    }
  }

  /** The same for a run of digits. */
  lemma {:induction false} DigitRunOffset(p: string, s: string, i: nat)
    requires i <= |s|
    decreases |s| - i
    ensures DigitRunEnd(p + s, |p| + i) == |p| + DigitRunEnd(s, i)
  {
    if i < |s| {
      assert (p + s)[|p| + i] == s[i];
      DigitRunOffset(p, s, i + 1);
    }
  }

  lemma SkipSpaceAfterFirst(t: string, i: nat)
    requires t != [] && i <= |t| - 1
    ensures SkipSpace(t, 1 + i) == 1 + SkipSpace(t[1..], i)
  {
    assert t == [t[0]] + t[1..];
    SkipSpaceOffset([t[0]], t[1..], i);
  }

  /** A match that starts on whitespace is found one character later too,
      one character shorter. */
  lemma MatchAtAfterSpace(t: string)
    requires t != [] && IsSpace(t[0])
    ensures MatchAt(t) == Widen(MatchAt(t[1..]), 1)
  {
    var a := SkipSpace(t[1..], 0);
    SkipSpaceAfterFirst(t, 0);
    assert SkipSpace(t, 0) == 1 + a;
    assert t[1 + a..] == t[1..][a..];
  }

  /** Leading whitespace does not change what `findall` returns. */
  lemma SpaceRecords(t: string)
    requires t != [] && IsSpace(t[0])
    ensures Records(t) == Records(t[1..])
  {
    MatchAtAfterSpace(t);
    if MatchAt(t).Some? {
      var n := MatchAt(t).value.1;
      assert t[1..][n - 1..] == t[n..];
    }
  }

  lemma {:induction false} LeadingSpaceRecords(t: string, k: nat)
    requires k <= |t| && forall j :: 0 <= j < k ==> IsSpace(t[j])
    ensures Records(t) == Records(t[k..])
  {
    if k > 0 {
      SpaceRecords(t);
      assert forall j :: 0 <= j < k - 1 ==> t[1..][j] == t[j + 1];
      LeadingSpaceRecords(t[1..], k - 1);
      assert t[1..][k - 1..] == t[k..];
    }
  }

  lemma FlagAt(w: string, rest: string)
    requires IsFlag(w)
    ensures StartsWith(w + rest, "YES") <==> w == "YES"
    ensures StartsWith(w + rest, "NO") <==> w == "NO"
  {
    assert (w + rest)[0] == w[0];
    if w == "YES" {
      assert (w + rest)[..3] == w;
    } else {
      assert (w + rest)[..2] == w;
    }
  }

  lemma DigitRunOf(t: string, d: string, rest: string)
    requires d != [] && AllDigits(d) && t == d + rest
    requires rest == [] || !IsDigit(rest[0])
    ensures DigitRunEnd(t, 0) == |d|
  {
    DigitRunFrom(t, d, rest, 0);
  }

  lemma {:induction false} DigitRunFrom(t: string, d: string, rest: string, i: nat)
    requires AllDigits(d) && t == d + rest && i <= |d|
    requires rest == [] || !IsDigit(rest[0])
    ensures DigitRunEnd(t, i) == |d|
    decreases |d| - i
  {
    if i < |d| {
      assert t[i] == d[i];
      DigitRunFrom(t, d, rest, i + 1);
    } else if i < |t| {
      assert t[i] == rest[0];
    }
  }

  /** Text without a digit holds no record. */
  lemma {:induction false} NoDigitNoRecords(t: string)
    requires forall k :: 0 <= k < |t| ==> !IsDigit(t[k])
    ensures Records(t) == []
    decreases |t|
  {
    if t != [] {
      var a := SkipSpace(t, 0);
      assert DigitRunEnd(t, a) == a;
      NoDigitNoRecords(t[1..]);
    }
  }

  /** The records shown: the last ten, or all of them when there are fewer. */
  function LastTen(xs: seq<Record>): (r: seq<Record>)
    ensures |r| == if |xs| < 10 then |xs| else 10
    ensures forall k :: 0 <= k < |r| ==> r[k] == xs[|xs| - |r| + k]
  {
    if |xs| >= 10 then xs[|xs| - 10..] else xs
  }

  /** `   SEQUENCE#: {seq}, APPLIED: {applied}` */
  function RecordLineText(x: Record): string {
    "   SEQUENCE#: " + x.sequence + ", APPLIED: " + x.applied
  }

  /** The record block of the analysis: a heading and the shown records, or
      nothing when the output holds no record. */
  function SequenceLines(output: string): (r: seq<string>)
    ensures var xs := Records(output); SequenceBlockShape(xs, r)
  {
    SequenceBlock(Records(output))
  }

  /** One line `<digits> <flag>` followed by text without a digit gives the
      heading and that record's line. */
  lemma SequenceOfOneLine(d: string, w: string, rest: string)
    requires d != [] && AllDigits(d) && IsFlag(w)
    requires forall k :: 0 <= k < |rest| ==> !IsDigit(rest[k])
    ensures SequenceLines(d + (" " + (w + rest))) == [SequenceHeading, RecordLineText(Record(d, w))]
  {
    RecordLine(d, w, rest);
    NoDigitNoRecords(rest);
    var r := SequenceLines(d + (" " + (w + rest)));
    assert |r| == 2;
  }

  /** The block is empty exactly when there is no record; otherwise a heading
      and, on line k, the k-th record shown (`LastTen`). */
  predicate SequenceBlockShape(xs: seq<Record>, r: seq<string>) {
    (xs == [] <==> r == []) &&
    (r != [] ==> |r| == 1 + |LastTen(xs)| && r[0] == SequenceHeading) &&
    forall k :: 1 <= k < |r| ==> r[k] == RecordLineText(LastTen(xs)[k - 1])
  }

  function SequenceBlock(xs: seq<Record>): (r: seq<string>)
    ensures SequenceBlockShape(xs, r)
  {
    if xs == [] then []
    else
      HeadedLines(SequenceHeading, RecordLines(LastTen(xs)))
  }

  /** One `RecordLineText` per record, in order. */
  function RecordLines(ys: seq<Record>): (r: seq<string>)
    ensures |r| == |ys| && forall k :: 0 <= k < |ys| ==> r[k] == RecordLineText(ys[k])
  {
    if ys == [] then [] else [RecordLineText(ys[0])] + RecordLines(ys[1..])
  }

  /** A heading line followed by the given lines. */
  function HeadedLines(h: string, body: seq<string>): (r: seq<string>)
    ensures |r| == 1 + |body| && r[0] == h && forall k :: 1 <= k < |r| ==> r[k] == body[k - 1]
  {
    [h] + body
  }

  const SequenceHeading: string := "\n   最后10条 SEQUENCE# APPLIED:"

  // ---------------------------------------------------------------------------
  // check_database_status (without the uptime part)

  /** The first index at or after `i` holding an ASCII digit, or the end. */
  function FirstDigitFrom(s: string, i: nat): (r: nat)
    requires i <= |s|
    decreases |s| - i
    ensures i <= r <= |s|
    ensures forall k :: i <= k < r ==> !IsDigit(s[k])
    ensures r == |s| || IsDigit(s[r])
  {
    if i < |s| && !IsDigit(s[i]) then FirstDigitFrom(s, i + 1) else i
  }

  /** `key` occurs at q and the first digit after it is a 0. */
  predicate ZeroAfter(s: string, key: string, q: nat) {
    OccursAt(s, key, q) && var e := FirstDigitFrom(s, q + |key|); e < |s| && s[e] == '0'
  }

  /** `re.search(key + "[^0-9]*0", s)` from position q on. */
  function SearchZero(s: string, key: string, q: nat): (r: bool)
    decreases |s| - q
  {
    if q + |key| > |s| then false
    else if ZeroAfter(s, key, q) then true
    else SearchZero(s, key, q + 1)
  }

  /** The meaning of the pattern: a 0 follows an occurrence of the key with
      nothing but non-digits between them. */
  predicate ZeroFollows(s: string, key: string, q: nat, e: nat) {
    OccursAt(s, key, q) && q + |key| <= e < |s| && s[e] == '0'
    && forall k :: q + |key| <= k < e ==> !IsDigit(s[k])
  }

  /** The first digit at or after i is the first position holding one. */
  lemma {:induction false} FirstDigitUnique(s: string, i: nat, e: nat)
    requires i <= e < |s| && IsDigit(s[e])
    requires forall k :: i <= k < e ==> !IsDigit(s[k])
    ensures FirstDigitFrom(s, i) == e
    decreases e - i
  {
    if i < e {
      FirstDigitUnique(s, i + 1, e);
    }
  }

  lemma {:induction false} SearchFinds(s: string, key: string, q: nat, p: nat, e: nat)
    requires q <= p && ZeroFollows(s, key, p, e)
    ensures SearchZero(s, key, q)
    decreases p - q
  {
    if p == q {
      FirstDigitUnique(s, p + |key|, e);
    } else {
      SearchFinds(s, key, q + 1, p, e);
    }
  }

  lemma {:induction false} SearchWitness(s: string, key: string, q: nat)
    requires SearchZero(s, key, q)
    ensures exists p: nat, e: nat :: q <= p && ZeroFollows(s, key, p, e)
    decreases |s| - q
  {
    if ZeroAfter(s, key, q) {
      var e := FirstDigitFrom(s, q + |key|);
      assert ZeroFollows(s, key, q, e);
    } else {
      SearchWitness(s, key, q + 1);
    }
  }

  /** The search succeeds exactly when, at or after q, some occurrence of
      the key is followed by a 0 with only non-digits between them. */
  lemma SearchZeroMeaning(s: string, key: string, q: nat)
    ensures SearchZero(s, key, q) <==> exists p: nat, e: nat :: q <= p && ZeroFollows(s, key, p, e)
  {
    if SearchZero(s, key, q) {
      SearchWitness(s, key, q);
    }
    if exists p: nat, e: nat :: q <= p && ZeroFollows(s, key, p, e) {
      var p: nat, e: nat :| q <= p && ZeroFollows(s, key, p, e);
      SearchFinds(s, key, q, p, e);
    }
  }

  const GapsKey: string := "\"GAPS\""
  const NotAppliedKey: string := "\"NOT APPLIED\""

  /** The verdict of one check. */
  datatype Verdict = Passed | Failed | NotShown

  /** The role check passes when both PRIMARY and PHYSICAL STANDBY appear. */
  function RoleVerdict(html: string): (r: Verdict)
    ensures r != NotShown
  {
    if Contains(html, "PRIMARY") && Contains(html, "PHYSICAL STANDBY") then Passed else Failed
  }

  /** The gaps and not-applied checks: shown only when the bare word appears;
      passed when the quoted word is followed by a 0 before any other digit. */
  function ZeroVerdict(html: string, word: string, quoted: string): Verdict {
    if Contains(html, word) && SearchZero(html, quoted, 0) then Passed
    else if Contains(html, word) then Failed
    else NotShown
  }

  datatype Usage = Danger | Warning | Fine

  /** DANGER takes precedence over WARNING. */
  function UsageVerdict(html: string): Usage {
    if Contains(html, "DANGER") then Danger else if Contains(html, "WARNING") then Warning else Fine
  }

  /** The decisions of the status check, in the order of its lines. */
  datatype Status = Status(role: Verdict, gaps: Verdict, notApplied: Verdict, usage: Usage)

  function DatabaseStatus(html: string): Status {
    Status(RoleVerdict(html), ZeroVerdict(html, "GAPS", GapsKey),
           ZeroVerdict(html, "NOT APPLIED", NotAppliedKey), UsageVerdict(html))
  }

  /** A zero check passes exactly when the bare word appears and some
      occurrence of the quoted word is followed, after non-digits only, by a
      0; it is not shown exactly when the bare word is missing. */
  lemma ZeroVerdictMeaning(html: string, word: string, quoted: string)
    ensures ZeroVerdict(html, word, quoted) == Passed <==>
      Contains(html, word) && exists p: nat, e: nat :: ZeroFollows(html, quoted, p, e)
    ensures ZeroVerdict(html, word, quoted) == NotShown <==> !Contains(html, word)
  {
    SearchZeroMeaning(html, quoted, 0);
  }

  /** Gaps are reported as passed only when `"GAPS"` is followed by a 0:
      a first digit other than 0 after each occurrence fails the search,
      and the gaps verdict is failed. */
  lemma GapsNeedZero(html: string)
    requires Contains(html, "GAPS")
    requires forall p :: OccursAt(html, GapsKey, p) ==>
      var e := FirstDigitFrom(html, p + |GapsKey|); e == |html| || html[e] != '0'
    ensures DatabaseStatus(html).gaps == Failed
  {
    SearchZeroMeaning(html, GapsKey, 0);
    forall p: nat, e: nat
      ensures !ZeroFollows(html, GapsKey, p, e)
    {
      if OccursAt(html, GapsKey, p) && p + |GapsKey| <= e < |html| && html[e] == '0'
        && forall k :: p + |GapsKey| <= k < e ==> !IsDigit(html[k])
      {
        FirstDigitUnique(html, p + |GapsKey|, e);
      }
    }
  }

  /** The usage check: danger exactly when DANGER appears, warning exactly
      when WARNING does without DANGER, fine only when neither appears. */
  lemma UsagePrecedence(html: string)
    ensures UsageVerdict(html) == Danger <==> Contains(html, "DANGER")
    ensures UsageVerdict(html) == Warning <==> !Contains(html, "DANGER") && Contains(html, "WARNING")
    ensures UsageVerdict(html) == Fine <==> !Contains(html, "DANGER") && !Contains(html, "WARNING")
  {
  }

  const RolePassed: string := "   数据库角色检查: ✅ 正常 (主库和备库都存在)"
  const RoleFailed: string := "   数据库角色检查: ❌ 异常 (可能缺少主库或备库)"
  const GapsPassed: string := "   归档日志间隙检查: ✅ 正常 (无间隙)"
  const GapsFailed: string := "   归档日志间隙检查: ❌ 异常 (存在间隙)"
  const NotAppliedPassed: string := "   未应用日志检查: ✅ 正常 (无未应用日志)"
  const NotAppliedFailed: string := "   未应用日志检查: ❌ 异常 (存在未应用日志)"
  const UsageDanger: string := "   表空间使用检查: 🔴 危险 (有表空间使用率超过90%)"
  const UsageWarning: string := "   表空间使用检查: 🟡 警告 (有表空间使用率超过80%)"
  const UsageFine: string := "   表空间使用检查: ✅ 正常"

  function VerdictLines(v: Verdict, passed: string, failed: string): (r: seq<string>)
    ensures |r| == if v == NotShown then 0 else 1
  {
    match v
    case Passed => [passed]
    case Failed => [failed]
    case NotShown => []
  }

  /** The lines of a status. */
  function StatusLines(st: Status): (r: seq<string>) {
    VerdictLines(st.role, RolePassed, RoleFailed)
    + VerdictLines(st.gaps, GapsPassed, GapsFailed)
    + VerdictLines(st.notApplied, NotAppliedPassed, NotAppliedFailed)
    + [match st.usage case Danger => UsageDanger case Warning => UsageWarning case Fine => UsageFine]
  }

  /** The chain of checks, each appending its line. */
  method CheckDatabaseStatus(html: string) returns (lines: seq<string>)
    ensures lines == StatusLines(DatabaseStatus(html))
    ensures 2 <= |lines| <= 4
  {
    ghost var st := DatabaseStatus(html);
    if Contains(html, "PRIMARY") && Contains(html, "PHYSICAL STANDBY") {
      lines := [RolePassed];
    } else {
      lines := [RoleFailed];
    }
    ghost var roleLines := lines;
    assert roleLines == VerdictLines(st.role, RolePassed, RoleFailed);
    var hasGaps := Contains(html, "GAPS");
    if hasGaps && SearchZero(html, GapsKey, 0) {
      lines := lines + [GapsPassed];
    } else if hasGaps {
      lines := lines + [GapsFailed];
    }
    ghost var gapLines := lines;
    assert gapLines == roleLines + VerdictLines(st.gaps, GapsPassed, GapsFailed);
    var hasNotApplied := Contains(html, "NOT APPLIED");
    if hasNotApplied && SearchZero(html, NotAppliedKey, 0) {
      lines := lines + [NotAppliedPassed];
    } else if hasNotApplied {
      lines := lines + [NotAppliedFailed];
    }
    assert lines == gapLines + VerdictLines(st.notApplied, NotAppliedPassed, NotAppliedFailed);
    if Contains(html, "DANGER") {
      lines := lines + [UsageDanger];
    } else if Contains(html, "WARNING") {
      lines := lines + [UsageWarning];
    } else {
      lines := lines + [UsageFine];
    }
  }

  // ---------------------------------------------------------------------------
  // Summary

  /** What happened to the HTML report: missing, present but not read (the
      read raised), or read with the issues the scan found in it. */
  datatype Report = Missing | Unreadable | Scanned(issues: seq<string>)

  const Abnormal: string := "   监控发现异常情况，建议检查系统状态"
  const AllNormal: string := "   所有检查正常"

  /** The closing summary line; `None` when the condition reads the issue
      list of a report that was never scanned (the name is unbound). */
  function SummaryLine(standbyIssues: seq<string>, report: Report): (r: Option<string>)
  {
    if standbyIssues != [] then Some(Abnormal)
    else
      match report
      case Missing => Some(AllNormal)
      case Unreadable => None
      case Scanned(issues) => Some(if issues != [] then Abnormal else AllNormal)
  }

  /** The summary reports an abnormal state exactly when the standby output
      has issues or a scanned report has some; it cannot be written when
      the standby output is clean and the report existed but was not read. */
  lemma SummaryMeaning(standbyIssues: seq<string>, report: Report)
    ensures SummaryLine(standbyIssues, report) == Some(Abnormal) <==>
      standbyIssues != [] || (report.Scanned? && report.issues != [])
    ensures SummaryLine(standbyIssues, report).None? <==> standbyIssues == [] && report == Unreadable
  {
    assert Abnormal[3] != AllNormal[3];
  }
}
