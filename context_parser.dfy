/**
 * The pytest context parser: which tests executed a line.
 *
 * coverage.py records, per executed line, the dynamic contexts that ran it.
 * pytest-cov writes them as `path::[TestClass::]test[params]|step`. The
 * plugin matches every context with the regular expression
 *
 *   (?P<path>[^:]+)::(?P<testclass>\w+::)?(?P<test>\w+)(?P<params>\[[^\]]+\])?\|?(?P<step>\w+)?
 *
 * using `re.match`, which anchors at the start only, and keeps the entries
 * whose step is `run`. The matcher below is that expression written out:
 * every repetition is greedy, and the only backtracking that can change the
 * outcome (dropping the optional test class when no test name follows it) is
 * written as an explicit test. `\w` is taken as ASCII `[A-Za-z0-9_]`.
 */
module ContextParser {
  import opened Wrappers
  import opened Paths

  predicate IsWordChar(c: char) {
    ('a' <= c <= 'z') || ('A' <= c <= 'Z') || ('0' <= c <= '9') || c == '_'
  }

  /** `[^:]` */
  predicate IsPathChar(c: char) {
    c != ':'
  }

  /** `[^\]]` */
  predicate IsParamChar(c: char) {
    c != ']'
  }

  predicate AllChars(s: string, p: char -> bool) {
    forall k | 0 <= k < |s| :: p(s[k])
  }

  /** A non-empty `\w+` match. */
  predicate IsWord(s: string) {
    |s| > 0 && AllChars(s, IsWordChar)
  }

  /** End of the longest run of characters satisfying p that starts at i: a greedy `[...]*` from i. */
  function RunEnd(s: string, i: nat, p: char -> bool): (e: nat)
    requires i <= |s|
    ensures i <= e <= |s|
    ensures forall k | i <= k < e :: p(s[k])
    ensures e == |s| || !p(s[e])
    decreases |s| - i
  {
    if i == |s| || !p(s[i]) then i else RunEnd(s, i + 1, p)
  }

  /** The named groups of a successful match; params is the text between the brackets. */
  datatype ContextMatch = ContextMatch(
    path: string,
    testClass: Option<string>,
    test: string,
    params: Option<string>,
    step: Option<string>)

  /** What each group can hold according to its sub-expression. */
  predicate WellFormed(m: ContextMatch) {
    && |m.path| > 0 && AllChars(m.path, IsPathChar)
    && (m.testClass.Some? ==> IsWord(m.testClass.value))
    && IsWord(m.test)
    && (m.params.Some? ==> |m.params.value| > 0 && AllChars(m.params.value, IsParamChar))
    && (m.step.Some? ==> IsWord(m.step.value))
  }

  /** The row starts with a path of p non-colon characters, then `::`, then a word character. */
  predicate IsContextHead(row: string, p: nat)
    requires p + 2 < |row|
  {
    (forall k | 0 <= k < p :: IsPathChar(row[k])) && row[p] == ':' && row[p + 1] == ':' && IsWordChar(row[p + 2])
  }

  /**
   * `(?P<testclass>\w+::)?` at position q: the class name, and where the test
   * name starts. The group is kept only when a test name can follow it;
   * otherwise `re` backtracks and matches without it.
   */
  function MatchClass(row: string, q: nat): (r: (Option<string>, nat))
    requires q <= |row|
    ensures q <= r.1 <= |row|
    ensures r.0.Some? ==> IsWord(r.0.value) && r.1 < |row| && IsWordChar(row[r.1])
    ensures r.0.Some? ==>
      && r.1 == q + |r.0.value| + 2 && row[q..q + |r.0.value|] == r.0.value
      && row[r.1 - 2] == ':' && row[r.1 - 1] == ':'
    ensures r.0.None? ==> r.1 == q
  {
    var c := RunEnd(row, q, IsWordChar);
    if q < c && c + 2 < |row| && row[c] == ':' && row[c + 1] == ':' && IsWordChar(row[c + 2]) then
      (Some(row[q..c]), c + 2)
    else
      (None, q)
  }

  /** `(?P<params>\[[^\]]+\])?` at position i: the bracketed text, and where the group ends. */
  function MatchParams(row: string, i: nat): (r: (Option<string>, nat))
    requires i <= |row|
    ensures i <= r.1 <= |row|
    ensures r.0.Some? ==> |r.0.value| > 0 && AllChars(r.0.value, IsParamChar)
  {
    if i < |row| && row[i] == '[' then
      var e := RunEnd(row, i + 1, IsParamChar);
      if i + 1 < e < |row| then (Some(row[i + 1..e]), e + 1) else (None, i)
    else
      (None, i)
  }

  /** `\|?(?P<step>\w+)?` at position i. */
  function MatchStep(row: string, i: nat): (step: Option<string>)
    requires i <= |row|
    ensures step.Some? ==> IsWord(step.value)
  {
    var s0 := if i < |row| && row[i] == '|' then i + 1 else i;
    var s1 := RunEnd(row, s0, IsWordChar);
    if s0 < s1 then Some(row[s0..s1]) else None
  }

  /** The groups after `path::`, when row has a context head of length p. */
  function MatchAfterHead(row: string, p: nat): (m: ContextMatch)
    requires 0 < p && p + 2 < |row| && IsContextHead(row, p)
    ensures WellFormed(m)
  {
    var cls := MatchClass(row, p + 2);
    var t1 := RunEnd(row, cls.1, IsWordChar);
    var pb := MatchParams(row, t1);
    ContextMatch(row[..p], cls.0, row[cls.1..t1], pb.0, MatchStep(row, pb.1))
  }

  /** The greedy `[^:]+` path is the only candidate for a context head. */
  lemma HeadIsPathRun(row: string)
    ensures var p := RunEnd(row, 0, IsPathChar);
      (exists p': nat | p' + 2 < |row| && 0 < p' :: IsContextHead(row, p')) <==>
      (0 < p && p + 2 < |row| && row[p + 1] == ':' && IsWordChar(row[p + 2]))
  {
    var p := RunEnd(row, 0, IsPathChar);
    if 0 < p && p + 2 < |row| && row[p + 1] == ':' && IsWordChar(row[p + 2]) {
      assert IsContextHead(row, p);
    }
  }

  /** `re.match(PYTEST_CONTEXT, row)`: the groups of the leftmost greedy match at the start of row, if any. */
  function MatchContext(row: string): (r: Option<ContextMatch>)
    ensures r.Some? <==> exists p: nat | p + 2 < |row| && 0 < p :: IsContextHead(row, p)
    ensures r.Some? ==> WellFormed(r.value)
  {
    var p := RunEnd(row, 0, IsPathChar);
    HeadIsPathRun(row);
    if 0 < p && p + 2 < |row| && row[p + 1] == ':' && IsWordChar(row[p + 2]) then
      Some(MatchAfterHead(row, p))
    else
      None
  }

  function ClassText(testClass: Option<string>): string {
    if testClass.Some? then testClass.value + "::" else ""
  }

  function ParamsText(params: Option<string>): string {
    if params.Some? then "[" + params.value + "]" else ""
  }

  function StepText(step: Option<string>): string {
    if step.Some? then "|" + step.value else ""
  }

  /** The canonical context string for a match. */
  function Render(m: ContextMatch): string {
    m.path + "::" + ClassText(m.testClass) + m.test + ParamsText(m.params) + StepText(m.step)
  }

  /** A greedy run over mid stops exactly at its end when what follows cannot extend it. */
  lemma RunOver(pre: string, mid: string, rest: string, p: char -> bool)
    requires AllChars(mid, p)
    requires rest == [] || !p(rest[0])
    ensures RunEnd(pre + mid + rest, |pre|, p) == |pre| + |mid|
    ensures (pre + mid + rest)[|pre|..|pre| + |mid|] == mid
  {
    var s := pre + mid + rest;
    assert forall k | |pre| <= k < |pre| + |mid| :: s[k] == mid[k - |pre|];
    assert rest != [] ==> s[|pre| + |mid|] == rest[0];
  }

  lemma MatchClassOver(pre: string, testClass: Option<string>, test: string, rest: string)
    requires testClass.Some? ==> IsWord(testClass.value)
    requires IsWord(test)
    requires rest == [] || rest[0] == '[' || rest[0] == '|'
    ensures MatchClass(pre + ClassText(testClass) + test + rest, |pre|) == (testClass, |pre| + |ClassText(testClass)|)
  {
    if testClass.Some? {
      MatchClassPresent(pre, testClass.value, test, rest);
    } else {
      assert pre + ClassText(testClass) == pre;
      MatchClassAbsent(pre, test, rest);
    }
  }

  lemma MatchClassPresent(pre: string, w: string, test: string, rest: string)
    requires IsWord(w) && IsWord(test)
    ensures MatchClass(pre + (w + "::") + test + rest, |pre|) == (Some(w), |pre| + |w| + 2)
  {
    var row := pre + (w + "::") + test + rest;
    var c := |pre| + |w|;
    assert RunEnd(row, |pre|, IsWordChar) == c && row[|pre|..c] == w by {
      assert row == pre + w + ("::" + test + rest);
      RunOver(pre, w, "::" + test + rest, IsWordChar);
    }
    assert row[c] == ':' && row[c + 1] == ':' && row[c + 2] == test[0] by {
      var pre' := pre + w + "::";
      assert row == pre' + test + rest;
      assert row[c] == pre'[c] && row[c + 1] == pre'[c + 1];
    }
    assert MatchClass(row, |pre|) == (Some(row[|pre|..c]), c + 2);
  }

  lemma MatchClassAbsent(pre: string, test: string, rest: string)
    requires IsWord(test)
    requires rest == [] || rest[0] == '[' || rest[0] == '|'
    ensures MatchClass(pre + test + rest, |pre|) == (None, |pre|)
  {
    var row := pre + test + rest;
    var c := |pre| + |test|;
    assert RunEnd(row, |pre|, IsWordChar) == c && (c < |row| ==> row[c] == rest[0]) by {
      RunOver(pre, test, rest, IsWordChar);
    }
  }

  lemma MatchParamsOver(pre: string, params: Option<string>, rest: string)
    requires params.Some? ==> |params.value| > 0 && AllChars(params.value, IsParamChar)
    requires params.None? ==> rest == [] || rest[0] != '['
    ensures MatchParams(pre + ParamsText(params) + rest, |pre|) == (params, |pre| + |ParamsText(params)|)
  {
    if params.Some? {
      MatchParamsPresent(pre, params.value, rest);
    } else {
      var row := pre + ParamsText(params) + rest;
      assert |pre| < |row| ==> row[|pre|] == rest[0] by {
        assert row == pre + rest;
      }
    }
  }

  lemma MatchParamsPresent(pre: string, pa: string, rest: string)
    requires |pa| > 0 && AllChars(pa, IsParamChar)
    ensures MatchParams(pre + ("[" + pa + "]") + rest, |pre|) == (Some(pa), |pre| + |pa| + 2)
  {
    var row := pre + ("[" + pa + "]") + rest;
    var i := |pre|;
    var e := i + 1 + |pa|;
    assert row[i] == '[' && RunEnd(row, i + 1, IsParamChar) == e && row[i + 1..e] == pa && row[e] == ']' by {
      var pre' := pre + "[";
      assert row == pre' + pa + ("]" + rest);
      assert row[i] == pre'[i];
      RunOver(pre', pa, "]" + rest, IsParamChar);
    }
  }

  lemma MatchStepOver(pre: string, step: Option<string>, tail: string)
    requires step.Some? ==> IsWord(step.value)
    requires tail == [] || (step.Some? && !IsWordChar(tail[0]))
    ensures MatchStep(pre + StepText(step) + tail, |pre|) == step
  {
    var row := pre + StepText(step) + tail;
    if step.Some? {
      var st := step.value;
      var pre' := pre + "|";
      assert row == pre' + st + tail;
      assert row[|pre|] == pre'[|pre|] == '|';
      RunOver(pre', st, tail, IsWordChar);
      var s1 := RunEnd(row, |pre'|, IsWordChar);
      assert s1 == |pre'| + |st|;
      assert row[|pre'|..s1] == st;
    } else {
      assert row == pre;
    }
  }

  lemma Assoc(x: string, y: string, z: string)
    ensures x + y + z == x + (y + z)
  {
  }

  /** Where the test name of a rendered match starts and ends. */
  function TestStart(m: ContextMatch): nat {
    |m.path| + 2 + |ClassText(m.testClass)|
  }

  function TestEnd(m: ContextMatch): nat {
    TestStart(m) + |m.test|
  }

  /** What follows the test name of a rendered row cannot extend it or be a class separator. */
  lemma AfterTestName(m: ContextMatch, tail: string)
    requires tail == [] || (m.step.Some? && !IsWordChar(tail[0]))
    ensures var after := ParamsText(m.params) + StepText(m.step) + tail;
      after == [] || after[0] == '[' || after[0] == '|'
  {
    var PT, ST := ParamsText(m.params), StepText(m.step);
    var after := PT + ST + tail;
    if PT != [] { assert after[0] == PT[0]; }
    else if ST != [] { assert after[0] == ST[0]; }
  }

  lemma RenderPath(m: ContextMatch, tail: string, row: string)
    requires row == Render(m) + tail
    requires |m.path| > 0 && AllChars(m.path, IsPathChar)
    requires m.testClass.Some? ==> IsWord(m.testClass.value)
    requires IsWord(m.test)
    requires tail == [] || (m.step.Some? && !IsWordChar(tail[0]))
    ensures |m.path| + 2 < |row| && IsContextHead(row, |m.path|)
    ensures RunEnd(row, 0, IsPathChar) == |m.path| && row[..|m.path|] == m.path
  {
    var P, CT, T, PT, ST := m.path, ClassText(m.testClass), m.test, ParamsText(m.params), StepText(m.step);
    var c: string := "::";
    var after := PT + ST + tail;
    var A3 := P + c + CT + T;
    assert row == A3 + after by {
      Assoc(A3, PT, ST);
      Assoc(A3, PT + ST, tail);
    }
    var X := (CT + T) + after;
    assert row == P + (c + X) by {
      Assoc(P + c, CT, T);
      Assoc(P, c, CT + T);
      Assoc(P, c + (CT + T), after);
      Assoc(c, CT + T, after);
    }
    assert |X| > 0 && IsWordChar(X[0]) by {
      assert X[0] == (CT + T)[0];
    }
    HeadOver(P, X, row);
  }

  /** A path run followed by `::` and a word character is a context head ending at the run. */
  lemma HeadOver(P: string, X: string, row: string)
    requires row == P + ("::" + X)
    requires AllChars(P, IsPathChar) && |X| > 0 && IsWordChar(X[0])
    ensures |P| + 2 < |row| && IsContextHead(row, |P|)
    ensures RunEnd(row, 0, IsPathChar) == |P| && row[..|P|] == P
  {
    assert row == [] + P + ("::" + X);
    RunOver([], P, "::" + X, IsPathChar);
    assert row[|P| + 2] == X[0];
  }

  lemma RenderClass(m: ContextMatch, tail: string, row: string)
    requires row == Render(m) + tail
    requires m.testClass.Some? ==> IsWord(m.testClass.value)
    requires IsWord(m.test)
    requires tail == [] || (m.step.Some? && !IsWordChar(tail[0]))
    ensures |m.path| + 2 <= TestStart(m) <= |row|
    ensures MatchClass(row, |m.path| + 2) == (m.testClass, TestStart(m))
  {
    var P, CT, T := m.path, ClassText(m.testClass), m.test;
    var PT, ST := ParamsText(m.params), StepText(m.step);
    var after := PT + ST + tail;
    AfterTestName(m, tail);
    assert row == P + "::" + CT + T + after by {
      Assoc(P + "::" + CT + T, PT, ST);
      Assoc(P + "::" + CT + T, PT + ST, tail);
    }
    MatchClassOver(P + "::", m.testClass, T, after);
  }

  lemma RenderTest(m: ContextMatch, tail: string, row: string)
    requires row == Render(m) + tail
    requires IsWord(m.test)
    requires tail == [] || (m.step.Some? && !IsWordChar(tail[0]))
    ensures TestStart(m) <= TestEnd(m) <= |row|
    ensures RunEnd(row, TestStart(m), IsWordChar) == TestEnd(m)
    ensures row[TestStart(m)..TestEnd(m)] == m.test
  {
    var P, CT, T := m.path, ClassText(m.testClass), m.test;
    var PT, ST := ParamsText(m.params), StepText(m.step);
    var after := PT + ST + tail;
    assert row == P + "::" + CT + T + after by {
      Assoc(P + "::" + CT + T, PT, ST);
      Assoc(P + "::" + CT + T, PT + ST, tail);
    }
    assert RunEnd(row, TestStart(m), IsWordChar) == TestEnd(m) && row[TestStart(m)..TestEnd(m)] == m.test by {
      AfterTestName(m, tail);
      RunOver(P + "::" + CT, T, after, IsWordChar);
    }
  }

  lemma RenderTail(m: ContextMatch, tail: string, row: string)
    requires row == Render(m) + tail
    requires m.params.Some? ==> |m.params.value| > 0 && AllChars(m.params.value, IsParamChar)
    requires m.step.Some? ==> IsWord(m.step.value)
    requires tail == [] || (m.step.Some? && !IsWordChar(tail[0]))
    ensures TestEnd(m) <= |row|
    ensures MatchParams(row, TestEnd(m)).0 == m.params
    ensures MatchStep(row, MatchParams(row, TestEnd(m)).1) == m.step
  {
    var PT, ST := ParamsText(m.params), StepText(m.step);
    var pre := m.path + "::" + ClassText(m.testClass) + m.test;
    Assoc(pre + PT, ST, tail);
    assert row == pre + PT + (ST + tail);
    MatchParamsOver(pre, m.params, ST + tail);
    assert row == (pre + PT) + ST + tail;
    MatchStepOver(pre + PT, m.step, tail);
  }

  /**
   * Matching a rendered context gives back its groups, also when other text
   * follows a step: `re.match` ignores what comes after the match.
   */
  lemma MatchRender(m: ContextMatch, tail: string)
    requires WellFormed(m)
    requires tail == [] || (m.step.Some? && !IsWordChar(tail[0]))
    ensures MatchContext(Render(m) + tail) == Some(m)
  {
    RenderGroups(m, tail, Render(m) + tail);
    ContextFromGroups(Render(m) + tail, |m.path|, m, TestStart(m), TestEnd(m));
  }

  /** The groups of a rendered row, each where the row's layout puts it. */
  lemma RenderGroups(m: ContextMatch, tail: string, row: string)
    requires row == Render(m) + tail
    requires WellFormed(m)
    requires tail == [] || (m.step.Some? && !IsWordChar(tail[0]))
    ensures 0 < |m.path| && |m.path| + 2 < |row| && IsContextHead(row, |m.path|) && RunEnd(row, 0, IsPathChar) == |m.path|
    ensures row[..|m.path|] == m.path
    ensures MatchClass(row, |m.path| + 2) == (m.testClass, TestStart(m))
    ensures TestStart(m) <= TestEnd(m) <= |row| && RunEnd(row, TestStart(m), IsWordChar) == TestEnd(m)
    ensures row[TestStart(m)..TestEnd(m)] == m.test
    ensures MatchParams(row, TestEnd(m)).0 == m.params
    ensures MatchStep(row, MatchParams(row, TestEnd(m)).1) == m.step
  {
    assert 0 < |m.path| && |m.path| + 2 < |row| && IsContextHead(row, |m.path|) && row[..|m.path|] == m.path
      && RunEnd(row, 0, IsPathChar) == |m.path| by {
      RenderPath(m, tail, row);
    }
    assert MatchClass(row, |m.path| + 2) == (m.testClass, TestStart(m)) by {
      RenderClass(m, tail, row);
    }
    assert TestStart(m) <= TestEnd(m) <= |row| && RunEnd(row, TestStart(m), IsWordChar) == TestEnd(m)
      && row[TestStart(m)..TestEnd(m)] == m.test by {
      RenderTest(m, tail, row);
    }
    assert MatchParams(row, TestEnd(m)).0 == m.params
      && MatchStep(row, MatchParams(row, TestEnd(m)).1) == m.step by {
      RenderTail(m, tail, row);
    }
  }

  /** A row whose path run ends at p and whose later groups are those of m matches as m. */
  lemma ContextFromGroups(row: string, p: nat, m: ContextMatch, t0: nat, t1: nat)
    requires 0 < p && p + 2 < |row| && IsContextHead(row, p) && RunEnd(row, 0, IsPathChar) == p
    requires row[..p] == m.path
    requires MatchClass(row, p + 2) == (m.testClass, t0)
    requires t0 <= t1 <= |row| && RunEnd(row, t0, IsWordChar) == t1 && row[t0..t1] == m.test
    requires t1 <= |row| && MatchParams(row, t1).0 == m.params && MatchStep(row, MatchParams(row, t1).1) == m.step
    ensures MatchContext(row) == Some(m)
  {
    AfterHeadFromGroups(row, p, m, t0, t1);
  }

  /** MatchAfterHead assembles the groups its parts found. */
  lemma AfterHeadFromGroups(row: string, p: nat, m: ContextMatch, t0: nat, t1: nat)
    requires 0 < p && p + 2 < |row| && IsContextHead(row, p)
    requires row[..p] == m.path
    requires MatchClass(row, p + 2) == (m.testClass, t0)
    requires t0 <= t1 <= |row| && RunEnd(row, t0, IsWordChar) == t1 && row[t0..t1] == m.test
    requires t1 <= |row| && MatchParams(row, t1).0 == m.params && MatchStep(row, MatchParams(row, t1).1) == m.step
    ensures MatchAfterHead(row, p) == m
  {
  }

  // ---------------------------------------------------------------------
  // The test list of `show_pytest_context` / `coverage_line`
  // ---------------------------------------------------------------------

  /** One quickfix entry: the test's file and the search pattern for its definition. */
  datatype TestEntry = TestEntry(filename: string, pattern: string)

  /** `("  def " if testclass else "def ") + test`: methods of a test class are indented. */
  function Pattern(m: ContextMatch): (p: string)
    ensures |m.test| <= |p| && p[|p| - |m.test|..] == m.test
    ensures p[..|p| - |m.test|] == if m.testClass.Some? then "  def " else "def "
  {
    (if m.testClass.Some? then "  def " else "def ") + m.test
  }

  /**
   * The entry one context row contributes: rows that do not match, and
   * matches whose step is not `run` (setup, teardown), contribute none.
   */
  function EntryFor(dir: string, row: string): (r: Option<TestEntry>)
    ensures r.Some? <==> MatchContext(row).Some? && MatchContext(row).value.step == Some("run")
    ensures r.Some? ==> r.value.filename == Join(dir, MatchContext(row).value.path)
  {
    match MatchContext(row)
    case Some(m) =>
      if m.step == Some("run") then Some(TestEntry(Join(dir, m.path), Pattern(m))) else None
    case None => None
  }

  /** The present values of xs, in order. */
  function Somes(xs: seq<Option<TestEntry>>): (r: seq<TestEntry>)
    ensures |r| <= |xs|
  {
    if xs == [] then []
    else
      var last := xs[|xs| - 1];
      Somes(xs[..|xs| - 1]) + (if last.Some? then [last.value] else [])
  }

  lemma {:induction false} SomesMembers(xs: seq<Option<TestEntry>>, e: TestEntry)
    ensures e in Somes(xs) <==> exists k :: 0 <= k < |xs| && xs[k] == Some(e)
  {
    if xs != [] {
      var init, n := xs[..|xs| - 1], |xs| - 1;
      SomesMembers(init, e);
      if exists k :: 0 <= k < |xs| && xs[k] == Some(e) {
        var k :| 0 <= k < |xs| && xs[k] == Some(e);
        assert k < n ==> init[k] == xs[k];
      }
      if exists k :: 0 <= k < n && init[k] == Some(e) {
        var k :| 0 <= k < n && init[k] == Some(e);
        assert xs[k] == init[k];
      }
    }
  }

  lemma SomesStep(xs: seq<Option<TestEntry>>, i: nat)
    requires i < |xs|
    ensures Somes(xs[..i + 1]) == Somes(xs[..i]) + (if xs[i].Some? then [xs[i].value] else [])
  {
    assert xs[..i + 1][..i] == xs[..i];
  }

  /** What each row contributes, row by row. */
  function EntriesOf(dir: string, rows: seq<string>): (es: seq<Option<TestEntry>>)
    ensures |es| == |rows|
  {
    seq(|rows|, k requires 0 <= k < |rows| => EntryFor(dir, rows[k]))
  }

  /** The entries of rows, in row order. */
  function KeptTests(dir: string, rows: seq<string>): (r: seq<TestEntry>)
    ensures |r| <= |rows|
  {
    Somes(EntriesOf(dir, rows))
  }

  /** An entry is listed exactly when some row yields it. */
  lemma KeptTestsMembers(dir: string, rows: seq<string>, e: TestEntry)
    ensures e in KeptTests(dir, rows) <==> exists k :: 0 <= k < |rows| && EntryFor(dir, rows[k]) == Some(e)
  {
    var es := EntriesOf(dir, rows);
    SomesMembers(es, e);
    assert forall k | 0 <= k < |rows| :: es[k] == EntryFor(dir, rows[k]);
  }

  /** A rendered `run` context yields the entry for its file and definition. */
  lemma RunEntry(dir: string, m: ContextMatch)
    requires WellFormed(m) && m.step == Some("run")
    ensures EntryFor(dir, Render(m)) == Some(TestEntry(Join(dir, m.path), Pattern(m)))
  {
    MatchRender(m, []);
    assert Render(m) + [] == Render(m);
  }

  /** A rendered context of another step, or with no step, yields nothing. */
  lemma NonRunEntry(dir: string, m: ContextMatch)
    requires WellFormed(m) && m.step != Some("run")
    ensures EntryFor(dir, Render(m)) == None
  {
    MatchRender(m, []);
    assert Render(m) + [] == Render(m);
  }

  /** The loop over `context[lineno]` that builds `tests`. */
  method CollectTests(covFile: string, rows: seq<string>) returns (tests: seq<TestEntry>)
    ensures tests == KeptTests(Dirname(covFile), rows)
  {
    var dir := Dirname(covFile);
    tests := [];
    var i := 0;
    while i < |rows|
      invariant 0 <= i <= |rows|
      invariant tests == Somes(EntriesOf(dir, rows)[..i])
    {
      var m := MatchContext(rows[i]);
      ghost var entry := EntryFor(dir, rows[i]);
      SomesStep(EntriesOf(dir, rows), i);
      assert EntriesOf(dir, rows)[i] == entry;
      if m.Some? && m.value.step == Some("run") {
        assert entry == Some(TestEntry(Join(dir, m.value.path), Pattern(m.value)));
        tests := tests + [TestEntry(Join(dir, m.value.path), Pattern(m.value))];
      } else {
        assert entry == None;
      }
      i := i + 1;
    }
    assert EntriesOf(dir, rows)[..i] == EntriesOf(dir, rows);
  }
}
