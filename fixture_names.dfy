/**
 * The regular expressions that capabilities/helpers/TestRunCfg.ts applies to
 * fixture file names, written out as predicates over `seq<char>`:
 *
 *   - `^<name>..*`             (the template literal turns `\.` into `.`)
 *   - `\.test\.\d+\.yaml$`     (the fixture filter)
 *   - `test\.(\d+)\.yaml`      (the sort key, first match)
 *   - `.*\.(\d+)\.yaml.json`   (the lookup key, greedy prefix)
 *
 * A `\d+` group is always followed by a non-digit in these patterns, so a
 * match captures a maximal run of digits; the run helpers below find it.
 */
module FixtureNames {
  import opened Results
  import opened Text

  /** The end of the run of digits that starts at `i`. */
  function DigitRunEnd(s: string, i: nat): (e: nat)
    requires i <= |s|
    ensures i <= e <= |s| && AllDigits(s[i..e]) && (e == |s| || !IsDigit(s[e]))
    decreases |s| - i
  {
    if i < |s| && IsDigit(s[i]) then
      var e := DigitRunEnd(s, i + 1);
      assert s[i..e] == [s[i]] + s[i + 1..e];
      e
    else i
  }

  /** The start of the run of digits that ends at `j`. */
  function DigitRunStart(s: string, j: nat): (b: nat)
    requires j <= |s|
    ensures b <= j && AllDigits(s[b..j]) && (b == 0 || !IsDigit(s[b - 1]))
  {
    if j > 0 && IsDigit(s[j - 1]) then
      var b := DigitRunStart(s, j - 1);
      assert s[b..j] == s[b..j - 1] + [s[j - 1]];
      b
    else j
  }

  /** A run of digits bounded by non-digits is the run DigitRunEnd finds. */
  lemma {:induction false} DigitRunEndAt(s: string, i: nat, e: nat)
    requires i <= e <= |s| && AllDigits(s[i..e]) && (e == |s| || !IsDigit(s[e]))
    ensures DigitRunEnd(s, i) == e
    decreases e - i
  {
    if i < e {
      assert IsDigit(s[i]) by { assert s[i] == s[i..e][0]; }
      var rest := s[i + 1..e];
      assert AllDigits(rest) by {
        forall k | 0 <= k < |rest| ensures IsDigit(rest[k]) {
          assert rest[k] == s[i..e][k + 1];
        }
      }
      DigitRunEndAt(s, i + 1, e);
    }
  }

  /** A run of digits bounded by non-digits is the run DigitRunStart finds. */
  lemma {:induction false} DigitRunStartAt(s: string, b: nat, j: nat)
    requires b <= j <= |s| && AllDigits(s[b..j]) && (b == 0 || !IsDigit(s[b - 1]))
    ensures DigitRunStart(s, j) == b
    decreases j
  {
    if b < j {
      assert IsDigit(s[j - 1]) by { assert s[j - 1] == s[b..j][j - 1 - b]; }
      var init := s[b..j - 1];
      assert AllDigits(init) by {
        forall k | 0 <= k < |init| ensures IsDigit(init[k]) {
          assert init[k] == s[b..j][k];
        }
      }
      DigitRunStartAt(s, b, j - 1);
    }
  }

  // ---------------------------------------------------------------------
  // `new RegExp(`^${name}\..*`)`

  /** One character of the name used as a pattern: `.` stands for any character but a line terminator. */
  predicate PatternCharMatches(p: char, c: char) {
    if p == '.' then !IsLineTerminator(c) else c == p
  }

  /**
   * `new RegExp(`^${name}\..*`).test(f)`: `f` starts with the name, read as a
   * pattern, and has one more character that is not a line terminator.
   */
  predicate MatchesName(f: string, name: string) {
    && |name| < |f|
    && !IsLineTerminator(f[|name|])
    && forall i :: 0 <= i < |name| ==> PatternCharMatches(name[i], f[i])
  }

  /** For a name without `.`, the pattern is a plain prefix test followed by one more character. */
  lemma PlainNameMatches(f: string, name: string)
    requires forall i :: 0 <= i < |name| ==> name[i] != '.'
    ensures MatchesName(f, name) <==> StartsWith(f, name) && |name| < |f| && !IsLineTerminator(f[|name|])
  {
    if StartsWith(f, name) {
      assert forall i :: 0 <= i < |name| ==> f[i] == f[..|name|][i];
    }
  }

  /** Every name the fixture convention produces, `<name>.<anything>`, passes the name filter. */
  lemma FixtureNameMatches(name: string, rest: string)
    ensures MatchesName(name + "." + rest, name)
  {
    var f := name + "." + rest;
    assert f[|name|] == '.';
    assert forall i :: 0 <= i < |name| ==> f[i] == name[i];
  }

  // ---------------------------------------------------------------------
  // `/\.test\.\d+\.yaml$/`

  /** `/\.test\.\d+\.yaml$/.test(f)`, by the digit run just before the final `.yaml`. */
  predicate IndexedYaml(f: string) {
    && EndsWith(f, ".yaml")
    && var d := DigitRunStart(f, |f| - 5);
       6 <= d < |f| - 5 && f[d - 6..d] == ".test."
  }

  /** The pattern read literally: `.test.` at `i`, then digits, then `.yaml` at the end. */
  predicate IndexedYamlAt(f: string, i: nat) {
    && EndsWith(f, ".yaml")
    && i + 6 < |f| - 5
    && f[i..i + 6] == ".test."
    && AllDigits(f[i + 6..|f| - 5])
  }

  lemma IndexedYamlIff(f: string)
    ensures IndexedYaml(f) <==> exists i :: IndexedYamlAt(f, i)
  {
    if IndexedYaml(f) {
      assert IndexedYamlAt(f, DigitRunStart(f, |f| - 5) - 6);
    }
    if i: nat :| IndexedYamlAt(f, i) {
      assert f[i + 5] == f[i..i + 6][5];
      DigitRunStartAt(f, i + 6, |f| - 5);
    }
  }

  /** Where the index digits of a fixture name start. */
  function SuffixStart(f: string): (d: nat)
    requires IndexedYaml(f)
    ensures 6 <= d < |f| - 5 && IndexedYamlAt(f, d - 6)
  {
    DigitRunStart(f, |f| - 5)
  }

  /** The index a fixture name ends with: `parseInt` of the digits before `.yaml`. */
  function SuffixIndex(f: string): nat
    requires IndexedYaml(f)
  {
    DecimalValue(f[SuffixStart(f)..|f| - 5])
  }

  // ---------------------------------------------------------------------
  // `l.match(/test\.(\d+)\.yaml/)[1]`

  /** `test\.(\d+)\.yaml` matches at `i`. */
  predicate KeyMatchAt(f: string, i: nat) {
    && OccursAt(f, "test.", i)
    && var e := DigitRunEnd(f, i + 5);
       e > i + 5 && OccursAt(f, ".yaml", e)
  }

  /** The leftmost match at or after `from`. */
  function FirstKeyMatch(f: string, from: nat): (r: Option<nat>)
    decreases |f| - from
    ensures r.Some? ==> from <= r.value && KeyMatchAt(f, r.value)
    ensures r.Some? ==> forall j :: from <= j < r.value ==> !KeyMatchAt(f, j)
    ensures r.None? ==> forall j :: from <= j ==> !KeyMatchAt(f, j)
  {
    if from >= |f| then None
    else if KeyMatchAt(f, from) then Some(from)
    else FirstKeyMatch(f, from + 1)
  }

  /** The suffix a fixture name passed the filter with is itself a match of the sort pattern. */
  lemma SuffixKeyMatch(f: string)
    requires IndexedYaml(f)
    ensures KeyMatchAt(f, SuffixStart(f) - 5)
    ensures DigitRunEnd(f, SuffixStart(f)) == |f| - 5
  {
    var d := SuffixStart(f);
    KeyMatchBeforeYaml(f, d);
  }

  lemma KeyMatchBeforeYaml(f: string, d: nat)
    requires 6 <= d < |f| - 5 && f[d - 6..d] == ".test." && AllDigits(f[d..|f| - 5]) && f[|f| - 5..] == ".yaml"
    ensures KeyMatchAt(f, d - 5) && DigitRunEnd(f, d) == |f| - 5
  {
    assert f[|f| - 5] == '.' by { assert f[|f| - 5..][0] == '.'; }
    DigitRunEndAt(f, d, |f| - 5);
    assert f[d - 5..d] == f[d - 6..d][1..];
    assert f[|f| - 5..|f|] == f[|f| - 5..];
  }

  /** The sort key: `parseInt` of the digits of the first `test.<digits>.yaml` in the name. */
  function SortKey(f: string): nat
    requires IndexedYaml(f)
  {
    SuffixKeyMatch(f);
    var i := FirstKeyMatch(f, 0).value;
    DecimalValue(f[i + 5..DigitRunEnd(f, i + 5)])
  }

  /**
   * When `.yaml` occurs in a fixture name only as its ending, the first match of
   * the sort pattern is the suffix, so the sort key is the fixture's index.
   */
  lemma SortKeyIsSuffixIndex(f: string)
    requires IndexedYaml(f)
    requires IndexOf(f, ".yaml") == Some(|f| - 5)
    ensures SortKey(f) == SuffixIndex(f)
  {
    FirstKeyMatchIsSuffix(f);
    SuffixKeyMatch(f);
  }

  lemma FirstKeyMatchIsSuffix(f: string)
    requires IndexedYaml(f)
    requires IndexOf(f, ".yaml") == Some(|f| - 5)
    ensures FirstKeyMatch(f, 0) == Some(SuffixStart(f) - 5)
  {
    SuffixKeyMatch(f);
    var i := FirstKeyMatch(f, 0).value;
    YamlOnlyAtEnd(f, DigitRunEnd(f, i + 5));
    KeyMatchRun(f, i);
  }

  /** When `indexOf(".yaml")` is the ending, `.yaml` occurs nowhere else. */
  lemma YamlOnlyAtEnd(f: string, e: nat)
    requires IndexOf(f, ".yaml") == Some(|f| - 5) && OccursAt(f, ".yaml", e)
    ensures e == |f| - 5
  {
  }

  /** A match of the sort pattern whose digits end at `.yaml`'s start captures the run that ends there. */
  lemma KeyMatchRun(f: string, i: nat)
    requires KeyMatchAt(f, i) && DigitRunEnd(f, i + 5) == |f| - 5
    ensures DigitRunStart(f, |f| - 5) == i + 5
  {
    assert f[i + 4] == f[i..i + 5][4];
    DigitRunStartAt(f, i + 5, |f| - 5);
  }

  // ---------------------------------------------------------------------
  // `f.match(/.*\.(\d+)\.yaml.json/)[1]`

  /** `\.(\d+)\.yaml.json` matches at `i`; the `.` before `json` is a wildcard. */
  predicate LookupMatchAt(p: string, i: nat) {
    && i < |p| && p[i] == '.'
    && var e := DigitRunEnd(p, i + 1);
       && e > i + 1 && e + 10 <= |p|
       && p[e..e + 5] == ".yaml" && !IsLineTerminator(p[e + 5]) && p[e + 6..e + 10] == "json"
  }

  /** The first match at or after `from`. */
  function FirstLookupMatch(p: string, from: nat): (r: Option<nat>)
    decreases |p| - from
    ensures r.Some? ==> from <= r.value && LookupMatchAt(p, r.value)
    ensures r.Some? ==> forall j :: from <= j < r.value ==> !LookupMatchAt(p, j)
    ensures r.None? ==> forall j :: from <= j ==> !LookupMatchAt(p, j)
  {
    if from >= |p| then None
    else if LookupMatchAt(p, from) then Some(from)
    else FirstLookupMatch(p, from + 1)
  }

  /** The last match starting before `hi`. */
  function LastLookupMatch(p: string, hi: nat): (r: Option<nat>)
    requires hi <= |p|
    ensures r.Some? ==> r.value < hi && LookupMatchAt(p, r.value)
    ensures r.Some? ==> forall j :: r.value < j < hi ==> !LookupMatchAt(p, j)
    ensures r.None? ==> forall j: nat :: j < hi ==> !LookupMatchAt(p, j)
  {
    if hi == 0 then None
    else if LookupMatchAt(p, hi - 1) then Some(hi - 1)
    else LastLookupMatch(p, hi - 1)
  }

  /** The end of the line position `i` is on: the next line terminator, or the end of `p`. */
  function LineEnd(p: string, i: nat): (e: nat)
    requires i <= |p|
    decreases |p| - i
    ensures i <= e <= |p| && (e == |p| || IsLineTerminator(p[e]))
    ensures forall m :: i <= m < e ==> !IsLineTerminator(p[m])
  {
    if i == |p| || IsLineTerminator(p[i]) then i else LineEnd(p, i + 1)
  }

  /**
   * Where `match` finds `.*\.(\d+)\.yaml.json`, the start of its group's `.`.
   * Since `.` crosses no line terminator, the match starts on the line of the
   * first occurrence, and the greedy `.*` leaves the group the last occurrence
   * on that line.
   */
  function LookupMatch(p: string): (r: Option<nat>)
    ensures r.Some? ==> LookupMatchAt(p, r.value)
  {
    match FirstLookupMatch(p, 0)
    case None => None
    case Some(first) =>
      assert !IsLineTerminator(p[first]);
      LastLookupMatch(p, LineEnd(p, first))
  }

  /** `parseInt` of the captured digits, or None where `match` returns null. */
  function LookupKey(p: string): Option<nat> {
    match LookupMatch(p)
    case None => None
    case Some(i) => Some(DecimalValue(p[i + 1..DigitRunEnd(p, i + 1)]))
  }

  /**
   * The key is read from the last match on the line of the first match: the
   * last one before the line's end.
   */
  lemma LookupKeyOnLine(p: string, first: nat, last: nat, end: nat)
    requires first <= last < end <= |p|
    requires LookupMatchAt(p, first) && forall j :: 0 <= j < first ==> !LookupMatchAt(p, j)
    requires LookupMatchAt(p, last) && forall j :: last < j < end ==> !LookupMatchAt(p, j)
    requires (end == |p| || IsLineTerminator(p[end])) && forall m :: first <= m < end ==> !IsLineTerminator(p[m])
    ensures LookupKey(p) == Some(DecimalValue(p[last + 1..DigitRunEnd(p, last + 1)]))
  {
    assert FirstLookupMatch(p, 0) == Some(first);
    LineEndAt(p, first, end);
    LastMatchIs(p, last, end);
  }

  /** `match` returns null exactly when the pattern occurs nowhere in the path. */
  lemma LookupKeyNoneIff(p: string)
    ensures LookupKey(p).None? <==> forall j :: 0 <= j < |p| ==> !LookupMatchAt(p, j)
  {
    if first :| 0 <= first < |p| && LookupMatchAt(p, first) {
      var i0 := FirstLookupMatch(p, 0).value;
      assert !IsLineTerminator(p[i0]);
    }
  }

  /** A line terminator ends the lookup's reach: a later line's index is not read. */
  lemma LookupKeyStopsAtLineEnd()
    ensures LookupKey(TwoLines) == Some(1)
  {
    TwoLinesFirstLine();
    LookupKeyOnLine(TwoLines, 1, 1, 13);
  }

  /** Two fixture-like names on two lines. */
  const TwoLines := "a.1.yaml.json\nb.2.yaml.json"

  lemma TwoLinesFirstLine()
    ensures LookupMatchAt(TwoLines, 1) && !LookupMatchAt(TwoLines, 0)
    ensures forall j :: 1 < j < 13 ==> !LookupMatchAt(TwoLines, j)
    ensures IsLineTerminator(TwoLines[13]) && forall m :: 1 <= m < 13 ==> !IsLineTerminator(TwoLines[m])
    ensures DecimalValue(TwoLines[2..DigitRunEnd(TwoLines, 2)]) == 1
  {
    var line := TwoLines[..13];
    assert line == "a.1.yaml.json" && TwoLines[13] == '\n';
    TwoLinesFirstMatch(line);
    TwoLinesNoLaterMatch(line);
    forall m | 1 <= m < 13 ensures !IsLineTerminator(TwoLines[m]) {
      assert TwoLines[m] == line[m];
    }
  }

  lemma TwoLinesFirstMatch(line: string)
    requires line == TwoLines[..13] == "a.1.yaml.json"
    ensures LookupMatchAt(TwoLines, 1) && !LookupMatchAt(TwoLines, 0)
    ensures DecimalValue(TwoLines[2..DigitRunEnd(TwoLines, 2)]) == 1
  {
    var p := TwoLines;
    assert p[2..3] == line[2..3] == "1";
    DigitRunEndAt(p, 2, 3);
    assert p[3..8] == line[3..8] == ".yaml";
    assert p[9..13] == line[9..13] == "json";
  }

  lemma TwoLinesNoLaterMatch(line: string)
    requires line == TwoLines[..13] == "a.1.yaml.json"
    ensures forall j :: 1 < j < 13 ==> !LookupMatchAt(TwoLines, j)
  {
    var p := TwoLines;
    forall j | 1 < j < 13 ensures !LookupMatchAt(p, j) {
      assert p[j] == line[j];
      if j == 3 {
        assert DigitRunEnd(p, 4) == 4;
      } else if j == 8 {
        assert DigitRunEnd(p, 9) == 9;
      }
    }
  }

  /** A stretch without line terminators that ends at one, or at the end, is the line LineEnd finds. */
  lemma {:induction false} LineEndAt(p: string, i: nat, e: nat)
    requires i <= e <= |p| && (e == |p| || IsLineTerminator(p[e]))
    requires forall m :: i <= m < e ==> !IsLineTerminator(p[m])
    ensures LineEnd(p, i) == e
    decreases e - i
  {
    if i < e {
      LineEndAt(p, i + 1, e);
    }
  }

  /** The `.json` path of a fixture is looked up by the index the fixture name ends with. */
  lemma LookupKeyOfJsonPath(here: string, f: string)
    requires IndexedYaml(f) && SingleLine(here) && SingleLine(f)
    ensures LookupKey(here + "/" + f + ".json") == Some(SuffixIndex(f))
  {
    var p := here + "/" + f + ".json";
    var s := |here| + SuffixStart(f);
    var e := |here| + 1 + |f| - 5;
    JsonPathDigits(here, f);
    var digits := p[s + 1..e];
    assert DecimalValue(digits) == SuffixIndex(f);
    JsonPathSingleLine(here, f);
    LookupKeyBeforeYamlJson(p, s, e);
    assert LookupKey(p) == Some(DecimalValue(digits));
  }

  lemma JsonPathSingleLine(here: string, f: string)
    requires SingleLine(here) && SingleLine(f)
    ensures SingleLine(here + "/" + f + ".json")
  {
    var p := here + "/" + f + ".json";
    forall m | 0 <= m < |p| ensures !IsLineTerminator(p[m]) {
      if m < |here| {
        assert p[m] == here[m];
      } else if |here| < m < |here| + 1 + |f| {
        assert p[m] == f[m - |here| - 1];
      } else if m >= |here| + 1 + |f| {
        assert p[m] == ".json"[m - |here| - 1 - |f|];
      }
    }
  }

  /** In the `.json` path of a fixture, the fixture's index sits between a `.` and `.yaml.json`. */
  lemma JsonPathDigits(here: string, f: string)
    requires IndexedYaml(f)
    ensures var p := here + "/" + f + ".json";
      var s, e := |here| + SuffixStart(f), |here| + 1 + |f| - 5;
      && s + 1 < e <= |p| && p[s] == '.' && AllDigits(p[s + 1..e]) && p[e..] == ".yaml.json"
      && DecimalValue(p[s + 1..e]) == SuffixIndex(f)
  {
    var d := SuffixStart(f);
    assert f[d - 1] == '.' by { assert f[d - 1] == f[d - 6..d][5]; }
    assert f[|f| - 5..] == ".yaml";
    DigitsBeforeEnding(here + "/", f, d);
  }

  /** Digits after a `.` and before the final `.yaml` of `f` keep their place in `pre + f + ".json"`. */
  lemma DigitsBeforeEnding(pre: string, f: string, d: nat)
    requires 1 <= d < |f| - 5 && f[d - 1] == '.' && AllDigits(f[d..|f| - 5]) && f[|f| - 5..] == ".yaml"
    ensures var p := pre + f + ".json";
      var s, e := |pre| + d - 1, |pre| + |f| - 5;
      && s + 1 < e <= |p| && p[s] == '.' && p[s + 1..e] == f[d..|f| - 5] && p[e..] == ".yaml.json"
  {
    var p := pre + f + ".json";
    var e := |pre| + |f| - 5;
    assert p[|pre| + d - 1] == f[d - 1];
    assert p[|pre| + d..e] == f[d..|f| - 5];
    var t := p[e..];
    forall k | 0 <= k < 10 ensures t[k] == ".yaml.json"[k] {
      if k < 5 {
        assert t[k] == f[|f| - 5 + k] == f[|f| - 5..][k];
      }
    }
  }

  /** A one-line path ending with `.<digits>.yaml.json` is looked up by those digits. */
  lemma LookupKeyBeforeYamlJson(p: string, s: nat, e: nat)
    requires s + 1 < e <= |p| && p[s] == '.' && AllDigits(p[s + 1..e]) && p[e..] == ".yaml.json"
    requires SingleLine(p)
    ensures LookupKey(p) == Some(DecimalValue(p[s + 1..e]))
  {
    MatchBeforeYamlJson(p, s, e);
    var first := FirstLookupMatch(p, 0).value;
    LookupKeyOnLine(p, first, s, |p|);
  }

  /** The last match before `hi` is the one after which no other starts before `hi`. */
  lemma LastMatchIs(p: string, s: nat, hi: nat)
    requires s < hi <= |p| && LookupMatchAt(p, s) && forall j :: s < j < hi ==> !LookupMatchAt(p, j)
    ensures LastLookupMatch(p, hi) == Some(s)
  {
    var r := LastLookupMatch(p, hi);
    if r.None? || r.value != s {
      assert false;
    }
  }


  /**
   * In a path that ends with `.<digits>.yaml.json`, the lookup pattern matches at
   * that `.` and at no later position.
   */
  lemma MatchBeforeYamlJson(p: string, s: nat, e: nat)
    requires s + 1 < e <= |p| && p[s] == '.' && AllDigits(p[s + 1..e]) && p[e..] == ".yaml.json"
    ensures LookupMatchAt(p, s) && DigitRunEnd(p, s + 1) == e
    ensures forall j :: s < j < |p| ==> !LookupMatchAt(p, j)
  {
    var tail := p[e..];
    assert !IsDigit(p[e]) by { assert p[e] == tail[0]; }
    DigitRunEndAt(p, s + 1, e);
    assert p[e..e + 5] == tail[..5];
    assert p[e + 6..e + 10] == tail[6..10];
    assert p[e + 5] == tail[5];
    forall j | s < j < |p| ensures !LookupMatchAt(p, j) {
      if j < e {
        assert IsDigit(p[j]) by { assert p[j] == p[s + 1..e][j - s - 1]; }
      } else if j == e || j == e + 5 {
        assert !IsDigit(p[j + 1]) by { assert p[j + 1] == tail[j + 1 - e]; }
      } else {
        assert p[j] == tail[j - e];
      }
    }
  }
}
