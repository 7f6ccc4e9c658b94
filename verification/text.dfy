/** String helpers shared by every part of the model: Python's whitespace set,
    strip(), ASCII case mapping, substring search, split/join and decimal
    conversions.  Python strings are modelled as `string` (a `seq<char>`). */
module Text {

  datatype Option<T> = None | Some(value: T)

  /** The characters for which Python's str.isspace() holds: what strip()
      removes and what the regex class \s matches. */
  predicate IsSpace(c: char) {
    ('\t' <= c <= '\r') || ('\U{001C}' <= c <= ' ') || c == '\U{0085}' || c == '\U{00A0}'
    || c == '\U{1680}' || ('\U{2000}' <= c <= '\U{200A}') || c == '\U{2028}' || c == '\U{2029}'
    || c == '\U{202F}' || c == '\U{205F}' || c == '\U{3000}'
  }

  predicate AllSpace(s: string) {
    forall i :: 0 <= i < |s| ==> IsSpace(s[i])
  }

  /** str.lstrip() */
  function StripStart(s: string): (r: string)
    ensures |r| <= |s| && r == s[|s| - |r|..]
    ensures r == [] || !IsSpace(r[0])
    ensures AllSpace(s[..|s| - |r|])
  {
    SkipSpaceAll(s, 0);
    s[SkipSpace(s, 0)..]
  }

  /** str.rstrip() */
  function StripEnd(s: string): (r: string)
    ensures |r| <= |s| && r == s[..|r|]
    ensures r == [] || !IsSpace(r[|r| - 1])
    ensures AllSpace(s[|r|..])
  {
    s[..TrailStart(s, |s|)]
  }

  /** The start of the whitespace run that ends at `j`. */
  function TrailStart(s: string, j: nat): (r: nat)
    requires j <= |s|
    ensures r <= j && AllSpace(s[r..j])
    ensures r == 0 || !IsSpace(s[r - 1])
  {
    if j > 0 && IsSpace(s[j - 1]) then
      var r := TrailStart(s, j - 1);
      assert s[r..j] == s[r..j - 1] + [s[j - 1]];
      AllSpaceSnoc(s[r..j - 1], s[j - 1]);
      r
    else j
  }

  lemma AllSpaceSnoc(s: string, c: char)
    requires IsSpace(c) && AllSpace(s)
    ensures AllSpace(s + [c])
  {
    assert forall i :: 0 <= i < |s| ==> (s + [c])[i] == s[i];
  }

  /** str.strip(): the longest slice with no surrounding whitespace. */
  function Strip(s: string): (r: string)
    ensures |r| <= |s|
    ensures r == [] || (!IsSpace(r[0]) && !IsSpace(r[|r| - 1]))
  {
    StripEnd(StripStart(s))
  }

  /** What strip() removes is whitespace on both sides of a slice. */
  lemma StripSlice(s: string)
    ensures exists a, b :: 0 <= a <= b <= |s| && Strip(s) == s[a..b] && AllSpace(s[..a]) && AllSpace(s[b..])
  {
    var t := StripStart(s);
    StripSlices(s, t, StripEnd(t));
  }

  lemma StripSlices(s: string, t: string, r: string)
    requires |t| <= |s| && t == s[|s| - |t|..] && AllSpace(s[..|s| - |t|])
    requires |r| <= |t| && r == t[..|r|] && AllSpace(t[|r|..])
    ensures exists a, b :: 0 <= a <= b <= |s| && r == s[a..b] && AllSpace(s[..a]) && AllSpace(s[b..])
  {
    var a := |s| - |t|;
    assert r == s[a..a + |r|];
    assert s[a + |r|..] == t[|r|..];
  }

  /** Characters stripping cannot bring in. */
  lemma StripKeeps(s: string, c: char)
    requires c !in s
    ensures c !in Strip(s)
  {
    var t := StripStart(s);
    assert c !in t by {
      assert forall i :: 0 <= i < |t| ==> t[i] == s[|s| - |t| + i];
    }
    var r := StripEnd(t);
    assert forall i :: 0 <= i < |r| ==> r[i] == t[i];
  }

  /** A string that neither starts nor ends with whitespace is its own strip. */
  lemma StripNoSpaceEnds(s: string)
    requires s != [] && !IsSpace(s[0]) && !IsSpace(s[|s| - 1])
    ensures Strip(s) == s
  {
  }

  /** strip() gives the empty string exactly for all-whitespace text. */
  lemma StripEmptyIff(s: string)
    ensures Strip(s) == [] <==> AllSpace(s)
  {
    var r := Strip(s);
    StripSlice(s);
    var a, b :| 0 <= a <= b <= |s| && r == s[a..b] && AllSpace(s[..a]) && AllSpace(s[b..]);
    if r == [] {
      assert forall i :: 0 <= i < |s| ==> IsSpace(s[i]) by {
        forall i | 0 <= i < |s| ensures IsSpace(s[i]) {
          if i < a { assert s[..a][i] == s[i]; } else { assert s[b..][i - b] == s[i]; }
        }
      }
    }
  }

  // ---------------------------------------------------------------------------
  // ASCII case mapping (Python's str.lower()/upper() restricted to ASCII)

  function LowerChar(c: char): char {
    if 'A' <= c <= 'Z' then (c as int + 32) as char else c
  }

  function UpperChar(c: char): char {
    if 'a' <= c <= 'z' then (c as int - 32) as char else c
  }

  function Lower(s: string): (r: string)
    ensures |r| == |s| && forall i :: 0 <= i < |s| ==> r[i] == LowerChar(s[i])
  {
    seq(|s|, i requires 0 <= i < |s| => LowerChar(s[i]))
  }

  function Upper(s: string): (r: string)
    ensures |r| == |s| && forall i :: 0 <= i < |s| ==> r[i] == UpperChar(s[i])
  {
    seq(|s|, i requires 0 <= i < |s| => UpperChar(s[i]))
  }

  /** Lower-casing twice changes nothing more. */
  lemma LowerTwice(s: string)
    ensures Lower(Lower(s)) == Lower(s)
  {
  }

  // ---------------------------------------------------------------------------
  // Substring search (Python's `p in s` and str.find)

  predicate OccursAt(s: string, p: string, i: int) {
    0 <= i && i + |p| <= |s| && s[i..i + |p|] == p
  }

  /** Python's `p in s`. */
  predicate Contains(s: string, p: string) {
    exists i | 0 <= i <= |s| - |p| :: OccursAt(s, p, i)
  }

  predicate StartsWith(s: string, p: string) {
    |p| <= |s| && s[..|p|] == p
  }

  /** The first occurrence of `p` in `s` at or after `from`. */
  function Find(s: string, p: string, from: nat): (r: Option<nat>)
    decreases |s| - from
    ensures r.Some? ==> from <= r.value && OccursAt(s, p, r.value)
    ensures forall k :: from <= k && (r.None? || k < r.value) ==> !OccursAt(s, p, k)
  {
    if from + |p| > |s| then None
    else if s[from..from + |p|] == p then Some(from)
    else Find(s, p, from + 1)
  }

  lemma FindIffContains(s: string, p: string)
    ensures Find(s, p, 0).Some? <==> Contains(s, p)
  {
    if Find(s, p, 0).Some? {
      assert OccursAt(s, p, Find(s, p, 0).value);
    }
  }

  /** The first index at or after `from` holding the character `c`. */
  function FindChar(s: string, c: char, from: nat): (r: Option<nat>)
    decreases |s| - from
    ensures r.Some? ==> from <= r.value < |s| && s[r.value] == c
    ensures forall k :: from <= k < |s| && (r.None? || k < r.value) ==> s[k] != c
  {
    if from >= |s| then None
    else if s[from] == c then Some(from)
    else FindChar(s, c, from + 1)
  }

  lemma ContainsMiddle(a: string, p: string, b: string)
    ensures Contains(a + p + b, p)
  {
    assert OccursAt(a + p + b, p, |a|) by {
      assert (a + p + b)[|a|..|a| + |p|] == p;
    }
  }

  /** An occurrence inside a slice is an occurrence in the whole string. */
  lemma OccursInSlice(s: string, a: nat, b: nat, p: string, j: nat)
    requires a <= b <= |s| && OccursAt(s[a..b], p, j)
    ensures OccursAt(s, p, a + j)
  {
    var t := s[a..b];
    assert j + |p| <= |t|;
    var u, w := t[j..j + |p|], s[a + j..a + j + |p|];
    assert forall k :: 0 <= k < |p| ==> u[k] == w[k];
    assert u == w;
  }

  /** A pattern holding a character that the text lacks cannot occur in it. */
  lemma NotContainsByChar(s: string, p: string, c: char)
    requires c in p && c !in s
    ensures !Contains(s, p)
  {
  }

  lemma ContainsEmpty(s: string)
    ensures Contains(s, "")
  {
    assert OccursAt(s, "", 0);
  }

  // ---------------------------------------------------------------------------
  // split / join

  /** "sep".join(parts) */
  function Join(parts: seq<string>, sep: string): string
  {
    if parts == [] then ""
    else if |parts| == 1 then parts[0]
    else parts[0] + sep + Join(parts[1..], sep)
  }

  /** s.split(c) for a one-character separator: the pieces between the
      occurrences of `c`. */
  function Split(s: string, c: char): (r: seq<string>)
    decreases |s|
    ensures |r| >= 1
    ensures forall k :: 0 <= k < |r| ==> c !in r[k]
  {
    match FindChar(s, c, 0)
    case None => [s]
    case Some(i) => [s[..i]] + Split(s[i + 1..], c)
  }

  /** Joining the pieces back with `c` gives the text that was split. */
  lemma {:induction false} JoinSplit(s: string, c: char)
    decreases |s|
    ensures Join(Split(s, c), [c]) == s
  {
    match FindChar(s, c, 0)
    case None =>
    case Some(i) =>
      var rest := Split(s[i + 1..], c);
      JoinSplit(s[i + 1..], c);
      assert Split(s, c) == [s[..i]] + rest;
      assert ([s[..i]] + rest)[1..] == rest;
      assert s == s[..i] + [c] + s[i + 1..];
  }

  /** Splitting a join at a separator that no part holds gives the parts back. */
  lemma {:induction false} SplitJoin(parts: seq<string>, c: char)
    requires parts != [] && forall k :: 0 <= k < |parts| ==> c !in parts[k]
    ensures Split(Join(parts, [c]), c) == parts
  {
    if |parts| == 1 {
      assert FindChar(parts[0], c, 0).None?;
    } else {
      var s := Join(parts, [c]);
      var i := |parts[0]|;
      assert s == parts[0] + [c] + Join(parts[1..], [c]);
      assert s[i] == c;
      assert forall k :: 0 <= k < i ==> s[k] == parts[0][k];
      assert FindChar(s, c, 0) == Some(i);
      assert s[..i] == parts[0];
      assert s[i + 1..] == Join(parts[1..], [c]);
      SplitJoin(parts[1..], c);
      assert parts == [parts[0]] + parts[1..];
    }
  }

  /** Splitting at the first separator gives the piece before it and the
      split of the rest. */
  lemma SplitAfter(x: string, c: char, y: string)
    requires c !in x
    ensures Split(x + [c] + y, c) == [x] + Split(y, c)
  {
    var s := x + [c] + y;
    assert s[|x|] == c;
    assert forall k :: 0 <= k < |x| ==> s[k] == x[k];
    assert FindChar(s, c, 0) == Some(|x|);
    assert s[..|x|] == x;
    assert s[|x| + 1..] == y;
  }

  /** Splitting a join followed by more text gives the parts and then the
      split of that text. */
  lemma {:induction false} SplitJoinAppend(parts: seq<string>, c: char, y: string)
    requires parts != [] && forall k :: 0 <= k < |parts| ==> c !in parts[k]
    ensures Split(Join(parts, [c]) + [c] + y, c) == parts + Split(y, c)
  {
    if |parts| == 1 {
      SplitAfter(parts[0], c, y);
    } else {
      var head, tail := parts[0], parts[1..];
      var rest := Join(tail, [c]);
      var s := Join(parts, [c]) + [c] + y;
      assert s == head + [c] + (rest + [c] + y) by {
        assert Join(parts, [c]) == head + [c] + rest;
        Regroup(head, [c], rest, [c], y);
      }
      assert Split(s, c) == [head] + Split(rest + [c] + y, c) by {
        SplitAfter(head, c, rest + [c] + y);
      }
      assert Split(rest + [c] + y, c) == tail + Split(y, c) by {
        assert forall k :: 0 <= k < |tail| ==> tail[k] == parts[k + 1];
        SplitJoinAppend(tail, c, y);
      }
      Associate([head], tail, Split(y, c));
      assert parts == [head] + tail;
    }
  }

  lemma Associate<T>(a: seq<T>, b: seq<T>, m: seq<T>)
    ensures a + (b + m) == a + b + m
  {
  }

  lemma TailOfAppend<T>(a: seq<T>, b: seq<T>)
    requires a != []
    ensures (a + b)[0] == a[0] && (a + b)[1..] == a[1..] + b
  {
  }

  lemma DropPrefix<T>(a: seq<T>, b: seq<T>)
    ensures (a + b)[|a|..] == b
  {
  }

  lemma Regroup(a: string, b: string, m: string, d: string, e: string)
    ensures a + b + m + d + e == a + b + (m + d + e)
  {
  }

  lemma {:induction false} JoinAppend(a: seq<string>, b: seq<string>, sep: string)
    requires a != [] && b != []
    ensures Join(a + b, sep) == Join(a, sep) + sep + Join(b, sep)
  {
    if |a| == 1 {
      assert (a + b)[1..] == b;
    } else {
      assert (a + b)[1..] == a[1..] + b;
      JoinAppend(a[1..], b, sep);
    }
  }

  /** No occurrence can straddle a boundary marked by a character that the
      pattern lacks. */
  lemma NotContainsAcross(a: string, b: string, p: string)
    requires a != [] && a[|a| - 1] !in p
    requires !Contains(a, p) && !Contains(b, p)
    ensures !Contains(a + b, p)
  {
    var s := a + b;
    forall i | 0 <= i <= |s| - |p|
      ensures !OccursAt(s, p, i)
    {
      var t := s[i..i + |p|];
      if i + |p| <= |a| {
        assert t == a[i..i + |p|];
        assert !OccursAt(a, p, i);
      } else if i >= |a| {
        assert t == b[i - |a|..i - |a| + |p|];
        assert !OccursAt(b, p, i - |a|);
      } else {
        assert t[|a| - 1 - i] == a[|a| - 1];
        assert t[|a| - 1 - i] in t;
      }
    }
  }

  /** A character in front that the pattern does not start with adds no
      occurrence. */
  lemma NotContainsCons(x: char, b: string, p: string)
    requires p != [] && p[0] != x && !Contains(b, p)
    ensures !Contains([x] + b, p)
  {
    var s := [x] + b;
    forall i | 0 <= i <= |s| - |p|
      ensures !OccursAt(s, p, i)
    {
      if i >= 1 {
        assert s[i..i + |p|] == b[i - 1..i - 1 + |p|];
        assert !OccursAt(b, p, i - 1);
      } else {
        assert s[i..i + |p|][0] == x;
      }
    }
  }

  /** The part of `s` before the first `c` (s.split(c)[0]). */
  function Before(s: string, c: char): (r: string)
    ensures c !in r && StartsWith(s, r)
    ensures |r| < |s| ==> s[|r|] == c
  {
    match FindChar(s, c, 0)
    case None => s
    case Some(i) => s[..i]
  }

  /** Replace every occurrence of the character `c` by nothing (s.replace(c, '')). */
  function RemoveChar(s: string, c: char): (r: string)
    ensures c !in r && |r| <= |s|
    ensures forall i :: 0 <= i < |r| ==> r[i] in s
  {
    if s == [] then [] else (if s[0] == c then [] else [s[0]]) + RemoveChar(s[1..], c)
  }

  /** The first index at or after `i` that does not hold whitespace (the end
      of a greedy \s* run). */
  function SkipSpace(s: string, i: nat): (r: nat)
    requires i <= |s|
    decreases |s| - i
    ensures i <= r <= |s|
    ensures r == |s| || !IsSpace(s[r])
  {
    if i < |s| && IsSpace(s[i]) then SkipSpace(s, i + 1) else i
  }

  /** What SkipSpace passes over is whitespace. */
  lemma {:induction false} SkipSpaceAll(s: string, i: nat)
    requires i <= |s|
    decreases |s| - i
    ensures AllSpace(s[i..SkipSpace(s, i)])
  {
    if i < |s| && IsSpace(s[i]) {
      SkipSpaceAll(s, i + 1);
      assert s[i..SkipSpace(s, i)] == [s[i]] + s[i + 1..SkipSpace(s, i)];
    }
  }

  // ---------------------------------------------------------------------------
  // Decimal digits

  predicate IsDigit(c: char) { '0' <= c <= '9' }

  /** The end of the run of ASCII digits that starts at i. */
  function DigitRunEnd(s: string, i: nat): (r: nat)
    requires i <= |s|
    decreases |s| - i
    ensures i <= r <= |s| && AllDigits(s[i..r])
    ensures r == |s| || !IsDigit(s[r])
  {
    if i < |s| && IsDigit(s[i]) then
      var r := DigitRunEnd(s, i + 1);
      assert s[i..r] == [s[i]] + s[i + 1..r];
      r
    else i
  }

  predicate AllDigits(s: string) {
    forall i :: 0 <= i < |s| ==> IsDigit(s[i])
  }

  function DigitValue(c: char): nat
    requires IsDigit(c)
  {
    c as int - '0' as int
  }

  /** int(s) for a string of ASCII digits. */
  function DigitsValue(s: string): nat
    requires AllDigits(s)
  {
    if s == [] then 0 else DigitsValue(s[..|s| - 1]) * 10 + DigitValue(s[|s| - 1])
  }

  function DigitChar(d: nat): char
    requires d < 10
  {
    ('0' as int + d) as char
  }

  /** str(n) for a natural number. */
  function NatToString(n: nat): (r: string)
    ensures r != [] && AllDigits(r)
    ensures DigitsValue(r) == n
    ensures n < 10 <==> |r| == 1
    ensures |r| > 1 ==> r[0] != '0'
  {
    if n < 10 then [DigitChar(n)]
    else
      var r := NatToString(n / 10) + [DigitChar(n % 10)];
      assert r[..|r| - 1] == NatToString(n / 10);
      r
  }

  /** str(i) for an integer. */
  function IntToString(i: int): (r: string)
    ensures i >= 0 ==> r == NatToString(i)
    ensures i < 0 ==> r == "-" + NatToString(-i)
  {
    if i < 0 then "-" + NatToString(-i) else NatToString(i)
  }

  lemma DigitsHaveNo(s: string, c: char)
    requires AllDigits(s) && !IsDigit(c)
    ensures c !in s
  {
  }
  // ---------------------------------------------------------------------------
  // Decimal numbers

  function Pow10(k: nat): (r: nat)
    ensures r >= 1
  {
    if k == 0 then 1 else 10 * Pow10(k - 1)
  }

  /** A character of the class [\d.]. */
  predicate IsNumChar(c: char) { IsDigit(c) || c == '.' }

  predicate AllNumChars(s: string) {
    forall i :: 0 <= i < |s| ==> IsNumChar(s[i])
  }

  /** float(t) for a text of digits and dots: defined when there is at most
      one dot and at least one digit, None where Python raises ValueError. */
  function DecimalValue(t: string): (r: Option<real>)
    requires AllNumChars(t)
    ensures r.Some? ==> r.value >= 0.0
    ensures '.' !in t && t != [] ==> r == Some(DigitsValue(t) as real)
    ensures t == [] || t == "." ==> r.None?
  {
    match FindChar(t, '.', 0)
    case None => if t == [] then None else Some(DigitsValue(t) as real)
    case Some(p) =>
      var whole, frac := t[..p], t[p + 1..];
      if '.' in frac || (whole == [] && frac == []) then None
      else Some(PointValue(whole, frac))
  }

  /** No two dots in the text. */
  predicate AtMostOneDot(t: string) {
    forall i, j :: 0 <= i < j < |t| && t[i] == '.' ==> t[j] != '.'
  }

  predicate HasDigit(t: string) {
    exists k :: 0 <= k < |t| && IsDigit(t[k])
  }

  /** float() accepts a text of digits and dots exactly when it has at most
      one dot and at least one digit: `1.2.3`, `""` and `.` raise, `.5`,
      `5.` and `5` do not. */
  lemma DecimalDomain(t: string)
    requires AllNumChars(t)
    ensures DecimalValue(t).Some? <==> AtMostOneDot(t) && HasDigit(t)
  {
    match FindChar(t, '.', 0)
    case None =>
      assert AtMostOneDot(t);
      if t != [] {
        assert IsDigit(t[0]);
      }
    case Some(p) =>
      var whole, frac := t[..p], t[p + 1..];
      if '.' in frac {
        var j :| 0 <= j < |frac| && frac[j] == '.';
        assert t[p] == '.' && t[p + 1 + j] == '.';
        assert !AtMostOneDot(t);
      } else {
        assert forall k :: 0 <= k < |t| && k != p ==> t[k] != '.' by {
          forall k | 0 <= k < |t| && k != p
            ensures t[k] != '.'
          {
            if k > p {
              assert t[k] == frac[k - p - 1];
            }
          }
        }
        assert AtMostOneDot(t);
        if whole == [] && frac == [] {
          assert |t| == 1;
        } else if whole != [] {
          assert IsDigit(t[0]);
        } else {
          assert IsDigit(t[p + 1]);
        }
      }
  }

  /** The value of `whole.frac`. */
  function PointValue(whole: string, frac: string): (r: real)
    requires AllDigits(whole) && AllDigits(frac)
    ensures r >= 0.0
  {
    DigitsValue(whole) as real + DigitsValue(frac) as real / Pow10(|frac|) as real
  }

  /** FindChar reports an occurrence when none comes before it. */
  lemma FindCharAt(s: string, c: char, i: nat)
    requires i < |s| && s[i] == c && forall k :: 0 <= k < i ==> s[k] != c
    ensures FindChar(s, c, 0) == Some(i)
  {
  }

  /** A number of hundredths written with two decimals, as '{:.2f}' writes
      n / 100. */
  function Hundredths(n: nat): (r: string)
    ensures AllNumChars(r) && r != [] && IsDigit(r[0]) && IsDigit(r[|r| - 1])
  {
    NatToString(n / 100) + "." + [DigitChar(n % 100 / 10), DigitChar(n % 10)]
  }

  /** Reading back two-decimal text gives the number it writes. */
  lemma HundredthsRoundTrip(n: nat)
    ensures DecimalValue(Hundredths(n)) == Some(n as real / 100.0)
  {
    var w, f := NatToString(n / 100), [DigitChar(n % 100 / 10), DigitChar(n % 10)];
    assert AllDigits(f) && DigitsValue(f) == n % 100 by {
      TwoDigitsValue(n % 100 / 10, n % 10);
    }
    assert DecimalValue(w + "." + f) == Some(PointValue(w, f)) by {
      DecimalOfParts(w, f);
    }
    assert Hundredths(n) == w + "." + f;
    HundredthsValue(n, w, f);
  }

  lemma HundredthsValue(n: nat, w: string, f: string)
    requires AllDigits(w) && DigitsValue(w) == n / 100
    requires |f| == 2 && AllDigits(f) && DigitsValue(f) == n % 100
    ensures PointValue(w, f) == n as real / 100.0
  {
    assert Pow10(|f|) == 100;
    var q, m := n / 100, n % 100;
    assert n == 100 * q + m;
    assert (100 * q + m) as real / 100.0 == q as real + m as real / 100.0;
  }

  /** Digits, a dot and digits read as the whole part plus the fraction. */
  lemma DecimalOfParts(w: string, f: string)
    requires w != [] && AllDigits(w) && AllDigits(f)
    ensures AllNumChars(w + "." + f)
    ensures DecimalValue(w + "." + f) == Some(PointValue(w, f))
  {
    var t := w + "." + f;
    DigitsHaveNo(w, '.');
    DigitsHaveNo(f, '.');
    assert forall k :: 0 <= k < |w| ==> t[k] == w[k];
    FindCharAt(t, '.', |w|);
    assert t[..|w|] == w && t[|w| + 1..] == f;
  }

  lemma TwoDigitsValue(a: nat, b: nat)
    requires a < 10 && b < 10
    ensures AllDigits([DigitChar(a), DigitChar(b)])
    ensures DigitsValue([DigitChar(a), DigitChar(b)]) == 10 * a + b
  {
    var f := [DigitChar(a), DigitChar(b)];
    assert f[..1] == [DigitChar(a)];
    assert [DigitChar(a)][..0] == [];
    assert DigitValue(DigitChar(a)) == a && DigitValue(DigitChar(b)) == b;
    assert DigitsValue([DigitChar(a)]) == a;
  }

  /** The nearest number of hundredths to a non-negative real, halves
      rounded up. */
  function RoundHundredths(x: real): (r: nat)
    requires x >= 0.0
    ensures r as real <= x * 100.0 + 0.5 < r as real + 1.0
  {
    (x * 100.0 + 0.5).Floor
  }
}
