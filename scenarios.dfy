/**
 * The examples of the plugin's own test suite, stated over the model: the
 * classification `show` builds for one file, and the test lists the
 * pytest-context command shows for a coverage file at `/.coverage`.
 */
module Scenarios {
  import opened Wrappers
  import opened Signs
  import opened ContextParser
  import opened SignTracker
  import opened Paths
  import opened Plugin

  /** Statements {1, 2, 3}, line 2 missing and line 3 missing a branch: Ok, Err, Warn; the only problem starts at 2. */
  lemma ShowScenario()
    ensures SignsFor([1, 2, 3], {2}, {3}) == [Sign(1, SignOk), Sign(2, SignError), Sign(3, SignWarning)]
    ensures IsProblemIndex(SignsFor([1, 2, 3], {2}, {3}), [2])
  {
    ShowSigns();
    ShowIndex([Sign(1, SignOk), Sign(2, SignError), Sign(3, SignWarning)]);
  }

  lemma ShowSigns()
    ensures SignsFor([1, 2, 3], {2}, {3}) == [Sign(1, SignOk), Sign(2, SignError), Sign(3, SignWarning)]
  {
    assert [1, 2, 3][..2] == [1, 2] && [1, 2][..1] == [1] && [1][..0] == [];
    assert SignsFor([1], {2}, {3}) == [Sign(1, SignOk)];
    assert SignsFor([1, 2], {2}, {3}) == [Sign(1, SignOk), Sign(2, SignError)];
  }

  lemma ShowIndex(signs: seq<Sign>)
    requires signs == [Sign(1, SignOk), Sign(2, SignError), Sign(3, SignWarning)]
    ensures IsProblemIndex(signs, [2])
  {
    assert StrictLines(signs);
    RunStartsInSorted(signs, signs);
    assert RunStart(signs, 1) && !RunStart(signs, 0) && !RunStart(signs, 2);
    forall l | StartsRun(signs, l)
      ensures l == 2
    {
      var j :| 0 <= j < |signs| && signs[j].line == l;
    }
  }

  /** The coverage file's directory: `os.path.dirname("/.coverage")` is the root. */
  lemma RootCoverageDir()
    ensures Dirname("/.coverage") == "/"
  {
    assert IsDirectory("/");
    DirnameOfJoin("/", ".coverage");
    assert Join("/", ".coverage") == "/.coverage";
  }

  lemma RootJoin(p: string)
    requires p != [] && p[0] != '/'
    ensures Join("/", p) == "/" + p
  {
  }

  lemma Literals()
    ensures "/" + "path/to/file.py" == "/path/to/file.py"
    ensures "def " + "test_parse" == "def test_parse"
    ensures "def " + "test_parse_next" == "def test_parse_next"
    ensures "  def " + "test_parse" == "  def test_parse"
  {
  }

  function PlainRun(test: string): ContextMatch {
    ContextMatch("path/to/file.py", None, test, None, Some("run"))
  }

  lemma RenderParts(m: ContextMatch)
    ensures Render(m) == m.path + "::" + ClassText(m.testClass) + m.test + ParamsText(m.params) + StepText(m.step)
  {
  }

  lemma ParseRow()
    ensures WellFormed(PlainRun("test_parse"))
    ensures Render(PlainRun("test_parse")) == "path/to/file.py::test_parse|run"
  {
    PlainWellFormed("test_parse");
    PlainRender("test_parse");
  }

  lemma ParseNextRow()
    ensures WellFormed(PlainRun("test_parse_next"))
    ensures Render(PlainRun("test_parse_next")) == "path/to/file.py::test_parse_next|run"
  {
    PlainWellFormed("test_parse_next");
    PlainRender("test_parse_next");
    ParseNextText();
  }

  lemma ParseNextText()
    ensures "path/to/file.py::" + "test_parse_next" + "|run" == "path/to/file.py::test_parse_next|run"
  {
  }

  lemma PlainWellFormed(test: string)
    requires IsWord(test)
    ensures WellFormed(PlainRun(test))
  {
    assert IsWord("run");
    PathWellFormed();
  }

  lemma PathWellFormed()
    ensures AllChars("path/to/file.py", IsPathChar)
  {
  }

  lemma PlainRender(test: string)
    ensures Render(PlainRun(test)) == "path/to/file.py::" + test + "|run"
  {
    var m := PlainRun(test);
    RenderParts(m);
    assert ClassText(m.testClass) == "" && ParamsText(m.params) == "" && StepText(m.step) == "|run";
    assert "path/to/file.py" + "::" + "" == "path/to/file.py::";
  }

  function FixtureRun(): ContextMatch {
    ContextMatch("path/to/file.py", None, "test_parse", Some("True, False"), Some("run"))
  }

  lemma FixtureRow()
    ensures WellFormed(FixtureRun()) && Render(FixtureRun()) == "path/to/file.py::test_parse[True, False]|run"
  {
    FixtureWellFormed();
    FixtureRender();
  }

  lemma FixtureRender()
    ensures Render(FixtureRun()) == "path/to/file.py::test_parse[True, False]|run"
  {
    var m := FixtureRun();
    RenderParts(m);
    assert ClassText(m.testClass) == "" && ParamsText(m.params) == "[True, False]" && StepText(m.step) == "|run";
    assert "path/to/file.py" + "::" + "" == "path/to/file.py::";
  }

  lemma FixtureWellFormed()
    ensures WellFormed(FixtureRun())
  {
    assert IsWord("run") && IsWord("test_parse");
    PathWellFormed();
    assert AllChars("True, False", IsParamChar);
  }

  function ClassRun(): ContextMatch {
    ContextMatch("path/to/file.py", Some("TestClass"), "test_parse", None, Some("run"))
  }

  lemma ClassRow()
    ensures WellFormed(ClassRun()) && Render(ClassRun()) == "path/to/file.py::TestClass::test_parse|run"
  {
    ClassWellFormed();
    ClassRender();
  }

  lemma ClassRender()
    ensures Render(ClassRun()) == "path/to/file.py::TestClass::test_parse|run"
  {
    var m := ClassRun();
    RenderParts(m);
    assert ClassText(m.testClass) == "TestClass::" && ParamsText(m.params) == "" && StepText(m.step) == "|run";
  }

  lemma ClassWellFormed()
    ensures WellFormed(ClassRun())
  {
    assert IsWord("run") && IsWord("test_parse") && IsWord("TestClass");
    PathWellFormed();
  }

  lemma KeptTestsTwo(dir: string, r1: string, r2: string, e1: TestEntry, e2: TestEntry)
    requires EntryFor(dir, r1) == Some(e1) && EntryFor(dir, r2) == Some(e2)
    ensures KeptTests(dir, [r1, r2]) == [e1, e2]
  {
    EntriesOfTwo(dir, r1, r2);
    SomesTwo(e1, e2);
  }

  lemma EntriesOfTwo(dir: string, r1: string, r2: string)
    ensures EntriesOf(dir, [r1, r2]) == [EntryFor(dir, r1), EntryFor(dir, r2)]
  {
  }

  lemma SomesTwo(e1: TestEntry, e2: TestEntry)
    ensures Somes([Some(e1), Some(e2)]) == [e1, e2]
  {
    var xs := [Some(e1), Some(e2)];
    assert xs[..1] == [Some(e1)] && xs[..1][..0] == [];
    assert Somes(xs[..1]) == [e1];
  }

  lemma KeptTestsOne(dir: string, r: string, e: TestEntry)
    requires EntryFor(dir, r) == Some(e)
    ensures KeptTests(dir, [r]) == [e]
  {
    var es := EntriesOf(dir, [r]);
    assert es == [Some(e)] by {
      assert es[0] == EntryFor(dir, r);
    }
    assert es[..0] == [];
  }

  /** Two plain pytest rows give both tests, in row order, at the absolute path. */
  lemma SimpleContextScenario()
    ensures ContextEvents(KeptTests(Dirname("/.coverage"),
      ["path/to/file.py::test_parse|run", "path/to/file.py::test_parse_next|run"]))
      == [ShowTests([TestEntry("/path/to/file.py", "def test_parse"), TestEntry("/path/to/file.py", "def test_parse_next")])]
  {
    RootCoverageDir();
    ParseRow();
    ParseNextRow();
    RunEntry("/", PlainRun("test_parse"));
    RunEntry("/", PlainRun("test_parse_next"));
    RootJoin("path/to/file.py");
    Literals();
    KeptTestsTwo("/", "path/to/file.py::test_parse|run", "path/to/file.py::test_parse_next|run",
      TestEntry("/path/to/file.py", "def test_parse"), TestEntry("/path/to/file.py", "def test_parse_next"));
  }

  /** A parametrized test's `[…]` is dropped from its pattern. */
  lemma FixtureContextScenario()
    ensures ContextEvents(KeptTests(Dirname("/.coverage"), ["path/to/file.py::test_parse[True, False]|run"]))
      == [ShowTests([TestEntry("/path/to/file.py", "def test_parse")])]
  {
    RootCoverageDir();
    FixtureRow();
    RunEntry("/", FixtureRun());
    RootJoin("path/to/file.py");
    Literals();
    KeptTestsOne("/", "path/to/file.py::test_parse[True, False]|run", TestEntry("/path/to/file.py", "def test_parse"));
  }

  /** A unittest-style method is searched for indented. */
  lemma ClassContextScenario()
    ensures ContextEvents(KeptTests(Dirname("/.coverage"), ["path/to/file.py::TestClass::test_parse|run"]))
      == [ShowTests([TestEntry("/path/to/file.py", "  def test_parse")])]
  {
    RootCoverageDir();
    ClassRow();
    RunEntry("/", ClassRun());
    RootJoin("path/to/file.py");
    Literals();
    KeptTestsOne("/", "path/to/file.py::TestClass::test_parse|run", TestEntry("/path/to/file.py", "  def test_parse"));
  }
}
