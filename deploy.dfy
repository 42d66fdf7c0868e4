/**
 * Version-number handling of the deployment script (deploy_tools/deploy.py):
 * parsing `a.b.c[-rcN]` out of a line, formatting a version back, choosing the
 * release-candidate number of the next deployment, and the check that a version
 * is already tagged.
 */
module Deploy {
  import opened Wrappers
  import Text

  /** Group numbers of `PATTERN`: `[MAJ, MIN, PATCH, RCV] = range(1, 5)`. */
  const MAJ: nat := 1
  const MIN: nat := 2
  const PATCH: nat := 3
  const RCV: nat := 4

  /** What precedes the version in the line `VERS_LINE` describes. */
  const VERSION_PREFIX := "VERSION = '"

  // ---------------------------------------------------------------- PATTERN
  // `(\d+)\.(\d+)\.(\d+)(-rc(?P<rcv>\d+))?` searched with `re.search`, with
  // `\d` read as an ASCII digit. Each `\d+` takes the longest digit run: a
  // shorter one would leave a digit where the pattern needs `.`, or end the
  // match early while the optional part may match empty, so backtracking never
  // changes the outcome.

  /** Length of the longest run of digits starting at `i`. */
  function DigitRun(s: string, i: nat): (n: nat)
    requires i <= |s|
    ensures i + n <= |s|
    ensures i + n == |s| || !Text.IsDigit(s[i + n])
    decreases |s| - i
  {
    if i < |s| && Text.IsDigit(s[i]) then 1 + DigitRun(s, i + 1) else 0
  }

  /** The run found by `DigitRun` consists of digits. */
  lemma {:induction false} DigitRunDigits(s: string, i: nat)
    requires i <= |s|
    ensures forall k :: i <= k < i + DigitRun(s, i) ==> Text.IsDigit(s[k])
    decreases |s| - i
  {
    if i < |s| && Text.IsDigit(s[i]) {
      DigitRunDigits(s, i + 1);
    }
  }

  /** The captured groups of a match of `PATTERN`. */
  datatype VersionMatch = VersionMatch(major: string, minor: string, patch: string, rcv: Option<string>)

  /** The optional `-rc<digits>` suffix starting at `j`. */
  function CandidateAt(s: string, j: nat): Option<string>
  {
    if j + 3 <= |s| && s[j..j + 3] == "-rc" && DigitRun(s, j + 3) > 0 then
      Some(s[j + 3..j + 3 + DigitRun(s, j + 3)])
    else None
  }

  /** The end of a non-empty digit run starting at `i` when a dot follows it. */
  function DottedRun(s: string, i: nat): (j: Option<nat>)
    requires i <= |s|
    ensures j.Some? <==> DigitRun(s, i) > 0 && i + DigitRun(s, i) < |s| && s[i + DigitRun(s, i)] == '.'
    ensures j.Some? ==> j.value == i + DigitRun(s, i)
  {
    var n := DigitRun(s, i);
    if n > 0 && i + n < |s| && s[i + n] == '.' then Some(i + n) else None
  }

  /**
   * Where the three digit groups of a match starting at `i` end: each group is
   * a longest digit run, and the first two are followed by a dot.
   */
  function GroupEnds(s: string, i: nat): (ends: Option<(nat, nat, nat)>)
    requires i <= |s|
    ensures ends.Some? ==> i < ends.value.0 < ends.value.1 < ends.value.2 <= |s|
    ensures ends.Some? ==> ends.value.0 == i + DigitRun(s, i)
    ensures ends.Some? ==> ends.value.1 == ends.value.0 + 1 + DigitRun(s, ends.value.0 + 1)
    ensures ends.Some? ==> ends.value.2 == ends.value.1 + 1 + DigitRun(s, ends.value.1 + 1)
  {
    match DottedRun(s, i)
    case None => None
    case Some(j1) =>
      match DottedRun(s, j1 + 1)
      case None => None
      case Some(j2) =>
        var n := DigitRun(s, j2 + 1);
        if n == 0 then None else Some((j1, j2, j2 + 1 + n))
  }

  /** A match of `PATTERN` that starts exactly at index `i`. */
  function MatchAt(s: string, i: nat): Option<VersionMatch>
    requires i <= |s|
  {
    match GroupEnds(s, i)
    case None => None
    case Some((j1, j2, j3)) => Some(VersionMatch(s[i..j1], s[j1 + 1..j2], s[j2 + 1..j3], CandidateAt(s, j3)))
  }

  /** `re.search(PATTERN, s[from..])`: the leftmost match. */
  function Search(s: string, from: nat): Option<VersionMatch>
    requires from <= |s|
    decreases |s| - from
  {
    if MatchAt(s, from).Some? then MatchAt(s, from)
    else if from == |s| then None
    else Search(s, from + 1)
  }

  /** The list `get_version_numbers` builds from a match (or from no match). */
  function VersionNumbers(line: string): seq<string>
  {
    match Search(line, 0)
    case None => []
    case Some(m) => [m.major, m.minor, m.patch] + (if m.rcv.Some? then [m.rcv.value] else [])
  }

  /**
   * `get_version_numbers(line)`: the three numbers of the first version in the
   * line, then the release-candidate number if it has one; `[]` when there is none.
   */
  method GetVersionNumbers(line: string) returns (result: seq<string>)
    ensures result == VersionNumbers(line)
    ensures |result| in {0, 3, 4}
    ensures forall k :: 0 <= k < |result| ==> Text.IsDigits(result[k])
  {
    result := [];
    var m := Search(line, 0);
    if m.Some? {
      MatchGroupsAreDigits(line, 0);
      var groups := [m.value.major, m.value.minor, m.value.patch];
      for i := MAJ to RCV
        invariant result == groups[..i - MAJ]
      {
        result := result + [groups[i - MAJ]];
      }
      var rcv := m.value.rcv;
      if rcv.Some? && rcv.value != "" {
        result := result + [rcv.value];
      }
    }
  }

  /** Every group of a match is a non-empty digit string. */
  lemma {:induction false} MatchGroupsAreDigits(s: string, from: nat)
    requires from <= |s| && Search(s, from).Some?
    ensures var m := Search(s, from).value;
      Text.IsDigits(m.major) && Text.IsDigits(m.minor) && Text.IsDigits(m.patch) &&
      (m.rcv.Some? ==> Text.IsDigits(m.rcv.value))
    decreases |s| - from
  {
    if MatchAt(s, from).None? {
      MatchGroupsAreDigits(s, from + 1);
    } else {
      MatchAtDigits(s, from);
    }
  }

  lemma MatchAtDigits(s: string, i: nat)
    requires i <= |s| && MatchAt(s, i).Some?
    ensures var m := MatchAt(s, i).value;
      Text.IsDigits(m.major) && Text.IsDigits(m.minor) && Text.IsDigits(m.patch) &&
      (m.rcv.Some? ==> Text.IsDigits(m.rcv.value))
  {
    var ends := GroupEnds(s, i).value;
    RunDigits(s, i);
    RunDigits(s, ends.0 + 1);
    RunDigits(s, ends.1 + 1);
    CandidateDigits(s, ends.2);
  }

  /** The run found by `DigitRun`, as a slice, is a digit string. */
  lemma RunDigits(s: string, i: nat)
    requires i <= |s|
    ensures Text.AllDigits(s[i..i + DigitRun(s, i)])
  {
    DigitRunDigits(s, i);
    SliceDigits(s, i, i + DigitRun(s, i));
  }

  /** A `-rc` suffix carries a non-empty digit string. */
  lemma CandidateDigits(s: string, j: nat)
    requires j <= |s|
    ensures CandidateAt(s, j).Some? ==> Text.IsDigits(CandidateAt(s, j).value)
  {
    if CandidateAt(s, j).Some? {
      RunDigits(s, j + 3);
    }
  }

  lemma SliceDigits(s: string, i: nat, j: nat)
    requires i <= j <= |s|
    requires forall k :: i <= k < j ==> Text.IsDigit(s[k])
    ensures Text.AllDigits(s[i..j])
  {
    assert forall k :: 0 <= k < j - i ==> s[i..j][k] == s[i + k];
  }

  // ---------------------------------------------------------------- build_version

  /** The error Python's `str.format` raises when the list is too short. */
  datatype FormatError = IndexError

  /**
   * `build_version(version_numbers)`: `a.b.c` for three numbers, `a.b.c-rcd` for
   * four or more (the rest are ignored), `IndexError` for fewer than three.
   */
  function BuildVersion(ns: seq<string>): (r: Result<string, FormatError>)
    ensures r.Ok? <==> |ns| >= 3
    ensures |ns| == 3 ==> r.value == ns[0] + "." + ns[1] + "." + ns[2]
    ensures |ns| >= 4 ==> r.value == ns[0] + "." + ns[1] + "." + ns[2] + "-rc" + ns[3]
  {
    if |ns| > 3 then Ok(ns[0] + "." + ns[1] + "." + ns[2] + "-rc" + ns[3])
    else if |ns| == 3 then Ok(ns[0] + "." + ns[1] + "." + ns[2])
    else Err(IndexError)
  }

  /** Numbers after the fourth do not show in the version string. */
  lemma BuildIgnoresExtra(ns: seq<string>)
    requires |ns| >= 4
    ensures BuildVersion(ns) == BuildVersion(ns[..4])
  {
  }

  // ---------------------------------------------------------------- parsing a built version

  /** A maximal digit run is determined by where it starts. */
  lemma DigitRunIs(s: string, i: nat, n: nat)
    requires i + n <= |s|
    requires forall k :: i <= k < i + n ==> Text.IsDigit(s[k])
    requires i + n == |s| || !Text.IsDigit(s[i + n])
    ensures DigitRun(s, i) == n
  {
    var r := DigitRun(s, i);
    DigitRunDigits(s, i);
    if r != n {
      assert false;
    }
  }

  /** The digits `d` at index `i` of `s`, followed by a non-digit or the end. */
  predicate DigitsAt(s: string, i: nat, d: string)
  {
    Text.IsDigits(d) && i + |d| <= |s| && s[i..i + |d|] == d &&
    (i + |d| == |s| || !Text.IsDigit(s[i + |d|]))
  }

  lemma DigitRunAt(s: string, i: nat, d: string)
    requires DigitsAt(s, i, d)
    ensures DigitRun(s, i) == |d|
  {
    forall k | i <= k < i + |d| ensures Text.IsDigit(s[k]) {
      assert s[k] == d[k - i];
    }
    DigitRunIs(s, i, |d|);
  }

  /** Digits `d` placed between `pre` and a `post` that does not start with a digit. */
  lemma DigitsBetween(pre: string, d: string, post: string)
    requires Text.IsDigits(d) && (|post| == 0 || !Text.IsDigit(post[0]))
    ensures DigitsAt(pre + d + post, |pre|, d)
  {
    var s := pre + d + post;
    assert s[|pre|..|pre| + |d|] == d;
    assert |pre| + |d| < |s| ==> s[|pre| + |d|] == post[0];
  }

  /** The layout of `a.b.c` between `pre` and `tail`. */
  lemma ReleaseLayout(s: string, pre: string, a: string, b: string, c: string, tail: string)
    requires Text.IsDigits(a) && Text.IsDigits(b) && Text.IsDigits(c)
    requires |tail| == 0 || !Text.IsDigit(tail[0])
    requires s == pre + a + "." + b + "." + c + tail
    ensures DigitsAt(s, |pre|, a)
    ensures |pre| + |a| < |s| && s[|pre| + |a|] == '.'
    ensures DigitsAt(s, |pre| + |a| + 1, b)
    ensures |pre| + |a| + 1 + |b| < |s| && s[|pre| + |a| + 1 + |b|] == '.'
    ensures DigitsAt(s, |pre| + |a| + |b| + 2, c)
  {
    var rest := "." + b + "." + c + tail;
    Regroup(pre, a, rest, s);
    DigitsBetween(pre, a, rest);
    var pre2 := pre + a + ".";
    var rest2 := "." + c + tail;
    Regroup(pre2, b, rest2, s);
    DigitsBetween(pre2, b, rest2);
    var pre3 := pre2 + b + ".";
    Regroup(pre3, c, tail, s);
    DigitsBetween(pre3, c, tail);
  }

  /** `s` read as `pre + d + rest`, whichever way its parts were grouped. */
  lemma Regroup(pre: string, d: string, rest: string, s: string)
    requires s == pre + d + rest
    ensures |s| == |pre| + |d| + |rest|
    ensures |rest| > 0 ==> s[|pre| + |d|] == rest[0]
  {
  }

  /** The match at `i` in a string laid out there as three dotted digit groups. */
  lemma MatchLaidOut(s: string, i: nat, a: string, b: string, c: string)
    requires DigitsAt(s, i, a)
    requires i + |a| < |s| && s[i + |a|] == '.'
    requires DigitsAt(s, i + |a| + 1, b)
    requires i + |a| + 1 + |b| < |s| && s[i + |a| + 1 + |b|] == '.'
    requires DigitsAt(s, i + |a| + |b| + 2, c)
    ensures MatchAt(s, i) == Some(VersionMatch(a, b, c, CandidateAt(s, i + |a| + |b| + |c| + 2)))
  {
    var j1 := i + |a|;
    var j2 := j1 + 1 + |b|;
    var j3 := j2 + 1 + |c|;
    DigitRunAt(s, i, a);
    DigitRunAt(s, j1 + 1, b);
    DigitRunAt(s, j2 + 1, c);
    MatchAtPositions(s, i, j1, j2, j3);
  }

  /** The match at `i`, given where its three digit runs end. */
  lemma MatchAtPositions(s: string, i: nat, j1: nat, j2: nat, j3: nat)
    requires i < j1 && j1 + 1 < j2 < |s| && j2 + 1 < j3 <= |s|
    requires DigitRun(s, i) == j1 - i && s[j1] == '.'
    requires DigitRun(s, j1 + 1) == j2 - j1 - 1 && s[j2] == '.'
    requires DigitRun(s, j2 + 1) == j3 - j2 - 1
    ensures MatchAt(s, i) == Some(VersionMatch(s[i..j1], s[j1 + 1..j2], s[j2 + 1..j3], CandidateAt(s, j3)))
  {
    EndsAt(s, i, j1, j2, j3);
    MatchFromEnds(s, i, j1, j2, j3);
  }

  lemma EndsAt(s: string, i: nat, j1: nat, j2: nat, j3: nat)
    requires i < j1 && j1 + 1 < j2 < |s| && j2 + 1 < j3 <= |s|
    requires DigitRun(s, i) == j1 - i && s[j1] == '.'
    requires DigitRun(s, j1 + 1) == j2 - j1 - 1 && s[j2] == '.'
    requires DigitRun(s, j2 + 1) == j3 - j2 - 1
    ensures GroupEnds(s, i) == Some((j1, j2, j3))
  {
    assert DottedRun(s, i) == Some(j1);
    assert DottedRun(s, j1 + 1) == Some(j2);
  }

  lemma MatchFromEnds(s: string, i: nat, j1: nat, j2: nat, j3: nat)
    requires i <= |s| && GroupEnds(s, i) == Some((j1, j2, j3))
    ensures MatchAt(s, i) == Some(VersionMatch(s[i..j1], s[j1 + 1..j2], s[j2 + 1..j3], CandidateAt(s, j3)))
  {
  }

  /** No match starts at a character that is not a digit. */
  lemma NoMatchAtNonDigit(s: string, i: nat)
    requires i <= |s| && (i == |s| || !Text.IsDigit(s[i]))
    ensures MatchAt(s, i).None?
  {
    assert DigitRun(s, i) == 0;
    assert DottedRun(s, i).None?;
  }

  /** The search passes over characters that are not digits. */
  lemma {:induction false} SearchSkips(s: string, from: nat, k: nat)
    requires from <= k <= |s|
    requires forall p :: from <= p < k ==> !Text.IsDigit(s[p])
    ensures Search(s, from) == Search(s, k)
    decreases k - from
  {
    if from < k {
      NoMatchAtNonDigit(s, from);
      SearchSkips(s, from + 1, k);
    }
  }

  /** A line without any digit holds no version: `get_version_numbers` gives `[]`. */
  lemma NoDigitsNoVersion(line: string)
    requires forall p :: 0 <= p < |line| ==> !Text.IsDigit(line[p])
    ensures VersionNumbers(line) == []
  {
    SearchSkips(line, 0, |line|);
    NoMatchAtNonDigit(line, |line|);
  }

  /** The numbers of a line laid out as `a.b.c` at `i`, with no digit before `i`. */
  lemma ParseLaidOut(s: string, i: nat, a: string, b: string, c: string)
    requires DigitsAt(s, i, a)
    requires i + |a| < |s| && s[i + |a|] == '.'
    requires DigitsAt(s, i + |a| + 1, b)
    requires i + |a| + 1 + |b| < |s| && s[i + |a| + 1 + |b|] == '.'
    requires DigitsAt(s, i + |a| + |b| + 2, c)
    requires forall p :: 0 <= p < i ==> !Text.IsDigit(s[p])
    ensures var rcv := CandidateAt(s, i + |a| + |b| + |c| + 2);
      VersionNumbers(s) == [a, b, c] + (if rcv.Some? then [rcv.value] else [])
  {
    MatchLaidOut(s, i, a, b, c);
    SearchSkips(s, 0, i);
  }

  /** The characters of `s` before `|pre|` are those of `pre`. */
  lemma PrefixOf(s: string, pre: string, rest: string)
    requires s == pre + rest
    ensures forall p :: 0 <= p < |pre| ==> s[p] == pre[p]
  {
  }

  /** `-rc` followed by digits `d` and then a non-digit (or the end) yields `d`. */
  lemma CandidateSuffix(s: string, j: nat, d: string, rest: string)
    requires Text.IsDigits(d) && (|rest| == 0 || !Text.IsDigit(rest[0]))
    requires j <= |s| && s[j..] == "-rc" + d + rest
    ensures CandidateAt(s, j) == Some(d)
  {
    assert s[j..j + 3] == "-rc";
    assert s[j + 3..j + 3 + |d|] == d;
    assert DigitsAt(s, j + 3, d);
    DigitRunAt(s, j + 3, d);
  }

  /** `a.b.c` after a prefix without digits parses to `[a, b, c]`. */
  lemma ParseRelease(pre: string, a: string, b: string, c: string, post: string)
    requires Text.IsDigits(a) && Text.IsDigits(b) && Text.IsDigits(c)
    requires forall p :: 0 <= p < |pre| ==> !Text.IsDigit(pre[p])
    requires |post| == 0 || (!Text.IsDigit(post[0]) && post[0] != '-')
    ensures VersionNumbers(pre + a + "." + b + "." + c + post) == [a, b, c]
  {
    var s := pre + a + "." + b + "." + c + post;
    ReleaseLayoutAfter(s, pre, a, b, c, post);
    ParseLaidOut(s, |pre|, a, b, c);
  }

  /** The layout of `a.b.c` without a suffix, after a prefix without digits. */
  lemma ReleaseLayoutAfter(s: string, pre: string, a: string, b: string, c: string, post: string)
    requires Text.IsDigits(a) && Text.IsDigits(b) && Text.IsDigits(c)
    requires forall p :: 0 <= p < |pre| ==> !Text.IsDigit(pre[p])
    requires |post| == 0 || (!Text.IsDigit(post[0]) && post[0] != '-')
    requires s == pre + a + "." + b + "." + c + post
    ensures DigitsAt(s, |pre|, a)
    ensures |pre| + |a| < |s| && s[|pre| + |a|] == '.'
    ensures DigitsAt(s, |pre| + |a| + 1, b)
    ensures |pre| + |a| + 1 + |b| < |s| && s[|pre| + |a| + 1 + |b|] == '.'
    ensures DigitsAt(s, |pre| + |a| + |b| + 2, c)
    ensures forall p :: 0 <= p < |pre| ==> !Text.IsDigit(s[p])
    ensures CandidateAt(s, |pre| + |a| + |b| + |c| + 2).None?
  {
    ReleaseLayout(s, pre, a, b, c, post);
    PrefixOf(s, pre, a + "." + b + "." + c + post);
    Regroup(pre + a + "." + b + ".", c, post, s);
    NoCandidate(s, |pre| + |a| + |b| + |c| + 2);
  }

  /** No `-rc` suffix starts at a character other than `-`. */
  lemma NoCandidate(s: string, j: nat)
    requires j >= |s| || s[j] != '-'
    ensures CandidateAt(s, j).None?
  {
    if j + 3 <= |s| {
      assert s[j..j + 3][0] == s[j];
    }
  }

  /** `a.b.c-rcd` after a prefix without digits parses to `[a, b, c, d]`. */
  lemma ParseCandidate(pre: string, a: string, b: string, c: string, tail: string, d: string, post: string)
    requires Text.IsDigits(a) && Text.IsDigits(b) && Text.IsDigits(c) && Text.IsDigits(d)
    requires forall p :: 0 <= p < |pre| ==> !Text.IsDigit(pre[p])
    requires |post| == 0 || !Text.IsDigit(post[0])
    requires tail == "-rc" + d + post
    ensures VersionNumbers(pre + a + "." + b + "." + c + tail) == [a, b, c, d]
  {
    var s := pre + a + "." + b + "." + c + tail;
    CandidateLayoutAfter(s, pre, a, b, c, tail, d, post);
    ParseLaidOut(s, |pre|, a, b, c);
  }

  /** The layout of `a.b.c-rcd` after a prefix without digits. */
  lemma CandidateLayoutAfter(s: string, pre: string, a: string, b: string, c: string, tail: string, d: string, post: string)
    requires Text.IsDigits(a) && Text.IsDigits(b) && Text.IsDigits(c) && Text.IsDigits(d)
    requires forall p :: 0 <= p < |pre| ==> !Text.IsDigit(pre[p])
    requires |post| == 0 || !Text.IsDigit(post[0])
    requires tail == "-rc" + d + post
    requires s == pre + a + "." + b + "." + c + tail
    ensures DigitsAt(s, |pre|, a)
    ensures |pre| + |a| < |s| && s[|pre| + |a|] == '.'
    ensures DigitsAt(s, |pre| + |a| + 1, b)
    ensures |pre| + |a| + 1 + |b| < |s| && s[|pre| + |a| + 1 + |b|] == '.'
    ensures DigitsAt(s, |pre| + |a| + |b| + 2, c)
    ensures forall p :: 0 <= p < |pre| ==> !Text.IsDigit(s[p])
    ensures CandidateAt(s, |pre| + |a| + |b| + |c| + 2) == Some(d)
  {
    ReleaseLayout(s, pre, a, b, c, tail);
    PrefixOf(s, pre, a + "." + b + "." + c + tail);
    SuffixOf(s, pre + a + "." + b + "." + c, tail);
    CandidateSuffix(s, |pre| + |a| + |b| + |c| + 2, d, post);
  }

  /** The characters of `s` from `|front|` on are `rest`. */
  lemma SuffixOf(s: string, front: string, rest: string)
    requires s == front + rest
    ensures s[|front|..] == rest
  {
  }

  /**
   * A built version, between a prefix without digits and a suffix that does not
   * continue it, parses back to the three or four numbers it was built from.
   */
  lemma ParseBuilt(pre: string, ns: seq<string>, post: string)
    requires |ns| == 3 || |ns| == 4
    requires forall k :: 0 <= k < |ns| ==> Text.IsDigits(ns[k])
    requires forall p :: 0 <= p < |pre| ==> !Text.IsDigit(pre[p])
    requires |post| == 0 || (!Text.IsDigit(post[0]) && post[0] != '-')
    ensures VersionNumbers(pre + BuildVersion(ns).value + post) == ns
  {
    var v := BuildVersion(ns).value;
    if |ns| == 3 {
      ReleaseText(pre, ns[0], ns[1], ns[2], post);
      ParseRelease(pre, ns[0], ns[1], ns[2], post);
    } else {
      var tail := "-rc" + ns[3] + post;
      CandidateText(pre, ns[0], ns[1], ns[2], ns[3], post);
      ParseCandidate(pre, ns[0], ns[1], ns[2], tail, ns[3], post);
    }
  }

  lemma ReleaseText(pre: string, a: string, b: string, c: string, post: string)
    ensures pre + a + "." + b + "." + c + post == pre + (a + "." + b + "." + c) + post
  {
  }

  lemma CandidateText(pre: string, a: string, b: string, c: string, d: string, post: string)
    ensures pre + a + "." + b + "." + c + ("-rc" + d + post) == pre + (a + "." + b + "." + c + "-rc" + d) + post
  {
  }

  /** Building a version and parsing it again gives back the three or four numbers. */
  lemma BuildThenParse(ns: seq<string>)
    requires |ns| == 3 || |ns| == 4
    requires forall k :: 0 <= k < |ns| ==> Text.IsDigits(ns[k])
    ensures VersionNumbers(BuildVersion(ns).value) == ns
  {
    var v := BuildVersion(ns).value;
    ParseBuilt([], ns, []);
    assert [] + v + [] == v;
  }

  /** The prefix of the version line holds no digit. */
  lemma PrefixWithoutDigits()
    ensures forall p :: 0 <= p < |VERSION_PREFIX| ==> !Text.IsDigit(VERSION_PREFIX[p])
  {
  }

  /**
   * The version line of `config/version.py` as `set_file_version` writes it
   * reads back, through `get_version_numbers` and `build_version`, as the same
   * version.
   */
  lemma FileVersionRoundTrip(ns: seq<string>)
    requires |ns| == 3 || |ns| == 4
    requires forall k :: 0 <= k < |ns| ==> Text.IsDigits(ns[k])
    ensures var v := BuildVersion(ns).value;
      BuildVersion(VersionNumbers(VERSION_PREFIX + v + "'")) == Ok(v)
  {
    PrefixWithoutDigits();
    ParseBuilt(VERSION_PREFIX, ns, "'");
  }

  // ---------------------------------------------------------------- calculate_new_version_numbers

  /** `re.match(r'\d+', s)`: the text starts with a digit. */
  predicate StartsWithDigit(s: string) { |s| > 0 && Text.IsDigit(s[0]) }

  /**
   * The list `calculate_new_version_numbers` returns, given the answer `rcInput`
   * to the release-candidate prompt (`''` in production, where it is not asked).
   */
  function NewVersionNumbers(previousVersion: string, newVersionInput: string, env: string, rcInput: string): seq<string>
  {
    var prev := VersionNumbers(previousVersion);
    var nums := VersionNumbers(newVersionInput);
    if env == "production" || rcInput == "0" then nums
    else if StartsWithDigit(rcInput) then nums + [rcInput]
    else if rcInput == "" then
      var rc := if |prev| == 4 && prev[..3] == nums then VersionNumbersDigits(previousVersion); NextCandidate(prev[3]) else "1";
      if |nums| == 3 then nums + [rc]
      else if |nums| == 4 then nums[..3] + [rc]
      else nums
    else nums
  }

  /** `str(int(rc) + 1)` for a release-candidate number. */
  function NextCandidate(rc: string): (next: string)
    requires Text.IsDigits(rc)
    ensures Text.IsDigits(next)
    ensures Text.DigitsValue(next) == Text.DigitsValue(rc) + 1
  {
    Text.NatToString(Text.DigitsValue(rc) + 1)
  }

  /**
   * `calculate_new_version_numbers`: parses both versions, then appends the
   * chosen release-candidate number, or replaces the one already there.
   */
  method CalculateNewVersionNumbers(previousVersion: string, newVersionInput: string, env: string, rcInput: string)
    returns (nums: seq<string>)
    ensures nums == NewVersionNumbers(previousVersion, newVersionInput, env, rcInput)
  {
    var rc := rcInput;
    var prev := GetVersionNumbers(previousVersion);
    nums := GetVersionNumbers(newVersionInput);
    if env != "production" {
      if rc == "0" {
      } else if StartsWithDigit(rc) {
        nums := nums + [rc];
      } else if rc == "" {
        rc := "1";
        if |prev| == 4 {
          if prev[..3] == nums {
            rc := NextCandidate(prev[|prev| - 1]);
          }
        }
        if |nums| == 3 {
          nums := nums + [rc];
        } else if |nums| == 4 {
          nums := nums[|nums| - 1 := rc];
        }
      }
    }
  }

  /** Production deployments, and the answer `0`, keep the typed version as it is. */
  lemma KeepsTypedVersion(previousVersion: string, newVersionInput: string, env: string, rcInput: string)
    requires env == "production" || rcInput == "0"
    ensures NewVersionNumbers(previousVersion, newVersionInput, env, rcInput) == VersionNumbers(newVersionInput)
  {
  }

  /** A typed release-candidate number is appended, whatever the typed version holds. */
  lemma AppendsTypedCandidate(previousVersion: string, newVersionInput: string, env: string, rcInput: string)
    requires env != "production" && rcInput != "0" && StartsWithDigit(rcInput)
    ensures var r := NewVersionNumbers(previousVersion, newVersionInput, env, rcInput);
      r == VersionNumbers(newVersionInput) + [rcInput] && |r| == |VersionNumbers(newVersionInput)| + 1
  {
  }

  /**
   * A typed candidate number appended to a version that already names a
   * candidate becomes a fifth number, which `build_version` does not show: the
   * deployed version keeps the candidate that was typed with the version.
   */
  lemma TypedCandidateAfterCandidate(pre: string, ns: seq<string>, post: string, env: string, rcInput: string)
    requires |ns| == 4 && forall k :: 0 <= k < 4 ==> Text.IsDigits(ns[k])
    requires forall p :: 0 <= p < |pre| ==> !Text.IsDigit(pre[p])
    requires |post| == 0 || (!Text.IsDigit(post[0]) && post[0] != '-')
    requires env != "production" && rcInput != "0" && StartsWithDigit(rcInput)
    ensures forall previousVersion ::
      BuildVersion(NewVersionNumbers(previousVersion, pre + BuildVersion(ns).value + post, env, rcInput)) == BuildVersion(ns)
  {
    ParseBuilt(pre, ns, post);
    var r := ns + [rcInput];
    assert r[..4] == ns;
    BuildIgnoresExtra(r);
  }

  /**
   * Outside production an empty answer makes the new version a release
   * candidate of the typed release: the next candidate number when the previous
   * version was a candidate of exactly the typed three numbers, `1` otherwise
   * (also when a candidate number was typed).
   */
  lemma DefaultCandidate(previousVersion: string, newVersionInput: string, env: string)
    requires env != "production"
    ensures var prev := VersionNumbers(previousVersion);
      forall k :: 0 <= k < |prev| ==> Text.IsDigits(prev[k])
    ensures var nums := VersionNumbers(newVersionInput);
      var r := NewVersionNumbers(previousVersion, newVersionInput, env, "");
      (|nums| == 3 || |nums| == 4) ==> |r| == 4 && r[..3] == nums[..3] && Text.IsDigits(r[3])
    ensures var nums := VersionNumbers(newVersionInput);
      var prev := VersionNumbers(previousVersion);
      var r := NewVersionNumbers(previousVersion, newVersionInput, env, "");
      |nums| == 3 && |prev| == 4 && prev[..3] == nums ==>
        Text.DigitsValue(r[3]) == Text.DigitsValue(prev[3]) + 1
    ensures var nums := VersionNumbers(newVersionInput);
      var prev := VersionNumbers(previousVersion);
      var r := NewVersionNumbers(previousVersion, newVersionInput, env, "");
      (|nums| == 3 || |nums| == 4) && !(|prev| == 4 && prev[..3] == nums) ==> r[3] == "1"
    ensures |VersionNumbers(newVersionInput)| == 0 ==> NewVersionNumbers(previousVersion, newVersionInput, env, "") == []
  {
    assert !StartsWithDigit("");
    VersionNumbersDigits(previousVersion);
    VersionNumbersDigits(newVersionInput);
  }

  /** Every number `get_version_numbers` returns is a digit string. */
  lemma VersionNumbersDigits(line: string)
    ensures var ns := VersionNumbers(line);
      (|ns| == 0 || |ns| == 3 || |ns| == 4) && forall k :: 0 <= k < |ns| ==> Text.IsDigits(ns[k])
  {
    if Search(line, 0).Some? {
      MatchGroupsAreDigits(line, 0);
    }
  }

  /**
   * Deploying the release of the current candidate again outside production,
   * with an empty answer, moves to the next candidate: `a.b.c-rcN` and `a.b.c`
   * give `a.b.c-rc(N+1)`.
   */
  lemma NextCandidateOfSameRelease(ns: seq<string>, rc: string, env: string)
    requires |ns| == 3 && forall k :: 0 <= k < 3 ==> Text.IsDigits(ns[k])
    requires Text.IsDigits(rc) && env != "production"
    ensures var r := NewVersionNumbers(BuildVersion(ns + [rc]).value, BuildVersion(ns).value, env, "");
      r == ns + [NextCandidate(rc)] && Text.DigitsValue(r[3]) == Text.DigitsValue(rc) + 1
  {
    var c := ns + [rc];
    assert forall k :: 0 <= k < |c| ==> Text.IsDigits(c[k]);
    BuildThenParse(c);
    BuildThenParse(ns);
    assert c[..3] == ns;
    assert !StartsWithDigit("");
  }

  /** `1.2.3-rc4` followed by `1.2.3` in staging deploys `1.2.3-rc5`. */
  lemma StagingExample(previousVersion: string, newVersionInput: string)
    requires previousVersion == "1.2.3-rc4" && newVersionInput == "1.2.3"
    ensures BuildVersion(NewVersionNumbers(previousVersion, newVersionInput, "staging", "")) == Ok("1.2.3-rc5")
  {
    var ns := ["1", "2", "3"];
    assert forall k :: 0 <= k < 3 ==> Text.IsDigits(ns[k]);
    assert Text.IsDigits("4");
    assert BuildVersion(ns + ["4"]).value == previousVersion;
    assert BuildVersion(ns).value == newVersionInput;
    NextCandidateOfSameRelease(ns, "4", "staging");
    NextOfFour();
    var r := NewVersionNumbers(previousVersion, newVersionInput, "staging", "");
    assert r == ["1", "2", "3", "5"];
    BuildExample();
  }

  lemma BuildExample()
    ensures BuildVersion(["1", "2", "3", "5"]) == Ok("1.2.3-rc5")
  {
    assert "1" + "." + "2" + "." + "3" + "-rc" + "5" == "1.2.3-rc5";
  }

  lemma NextOfFour()
    ensures NextCandidate("4") == "5"
  {
    var four := "4";
    assert Text.AllDigits(four);
    assert four[..0] == [];
    assert Text.DigitsValue(four) == 4;
    assert Text.NatToString(5) == [Text.DigitChar(5)];
  }

  // ---------------------------------------------------------------- check_if_tag_exists

  /**
   * `new_version in tags.split('\n')` over the output of `git tag`: a version
   * holding a line break is never found, and over an empty listing only the
   * empty string is.
   */
  function TagExists(newVersion: string, tags: string): (listed: bool)
    ensures listed ==> '\n' !in newVersion
    ensures tags == "" ==> (listed <==> newVersion == "")
  {
    newVersion in Text.Split(tags, '\n')
  }

  /**
   * `git tag` prints one name per line; over that listing a version is found
   * exactly when it is one of the names, since a built version is never empty.
   */
  lemma TagExistsIffListed(ns: seq<string>, names: seq<string>)
    requires |ns| >= 3
    requires forall k :: 0 <= k < |names| ==> '\n' !in names[k]
    ensures TagExists(BuildVersion(ns).value, Text.Join(names + [""], '\n')) <==> BuildVersion(ns).value in names
  {
    var parts := names + [""];
    assert forall k :: 0 <= k < |parts| ==> '\n' !in parts[k] by {
      forall k | 0 <= k < |parts| ensures '\n' !in parts[k] {
        if k < |names| { assert parts[k] == names[k]; }
      }
    }
    Text.SplitJoin(parts, '\n');
    assert |BuildVersion(ns).value| > 0;
  }
}
