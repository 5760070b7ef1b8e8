/**
 * The plugin commands: classification of a file's statements into signs, and
 * the show, toggle, next-problem and test-context commands over the editor.
 *
 * The Neovim remote plugin keeps one editor per `VimCoveragePy` object and
 * picks the variant once, from whether Vim supports sign groups. The plugin
 * for Vim's built-in Python keeps the same state in module globals: a
 * grouped editor at start-up, which `downgrade_editor` replaces by a fallback
 * one. Its `coverage_*` functions run the same steps as the methods here, so
 * one class stands for both: `constructor` is the Neovim object and
 * `ModuleDefault` the module's start-up state.
 *
 * Coverage data comes in as values: a file's statements (in the order
 * coverage.py's set yields them), its missing lines and the lines with a
 * missing branch; and, for the test context, the contexts recorded per line.
 */
module Plugin {
  import opened Signs
  import opened ContextParser
  import opened SignTracker
  import opened Paths

  const NotExecuted: string := "Line was not executed."

  /** coverage.py's statements form a set: no line twice. */
  predicate Distinct(lines: seq<int>) {
    forall i, j | 0 <= i < j < |lines| :: lines[i] != lines[j]
  }

  /**
   * The sign of one statement: a missing line is an error even when it also
   * has a missing branch; a warning is a line that runs but misses a branch.
   */
  function Classify(line: int, missing: set<int>, missingBranches: set<int>): (k: Kind)
    ensures k == SignError <==> line in missing
    ensures k == SignWarning <==> line !in missing && line in missingBranches
    ensures IsProblem(k) <==> line in missing + missingBranches
  {
    if line in missing then SignError
    else if line in missingBranches then SignWarning
    else SignOk
  }

  /** The signs `show` builds, one per statement, in statement order. */
  function SignsFor(statements: seq<int>, missing: set<int>, missingBranches: set<int>): (signs: seq<Sign>)
    ensures |signs| == |statements|
  {
    if statements == [] then []
    else
      var n := |statements| - 1;
      SignsFor(statements[..n], missing, missingBranches) + [Sign(statements[n], Classify(statements[n], missing, missingBranches))]
  }

  /** Each statement gets its own sign, on its line, classified by Classify. */
  lemma {:induction false} SignsForAt(statements: seq<int>, missing: set<int>, missingBranches: set<int>, i: nat)
    requires i < |statements|
    ensures SignsFor(statements, missing, missingBranches)[i] == Sign(statements[i], Classify(statements[i], missing, missingBranches))
  {
    var n := |statements| - 1;
    if i < n {
      SignsForAt(statements[..n], missing, missingBranches, i);
    }
  }

  /** Distinct statements give signs on distinct lines, and the problem signs are exactly the uncovered lines. */
  lemma SignsForLines(statements: seq<int>, missing: set<int>, missingBranches: set<int>)
    ensures Distinct(statements) ==> DistinctLines(SignsFor(statements, missing, missingBranches))
    ensures forall i | 0 <= i < |statements| ::
      && SignsFor(statements, missing, missingBranches)[i].line == statements[i]
      && (IsProblem(SignsFor(statements, missing, missingBranches)[i].kind) <==> statements[i] in missing + missingBranches)
  {
    forall i | 0 <= i < |statements|
      ensures SignsFor(statements, missing, missingBranches)[i] == Sign(statements[i], Classify(statements[i], missing, missingBranches))
    {
      SignsForAt(statements, missing, missingBranches, i);
    }
  }

  /** The classification loop of `show`. */
  method BuildSigns(statements: seq<int>, missing: set<int>, missingBranches: set<int>) returns (signs: seq<Sign>)
    ensures signs == SignsFor(statements, missing, missingBranches)
  {
    signs := [];
    var i := 0;
    while i < |statements|
      invariant 0 <= i <= |statements|
      invariant signs == SignsFor(statements[..i], missing, missingBranches)
    {
      var kind: Kind;
      if statements[i] in missing {
        kind := SignError;
      } else if statements[i] in missingBranches {
        kind := SignWarning;
      } else {
        kind := SignOk;
      }
      assert statements[..i + 1][..i] == statements[..i];
      signs := signs + [Sign(statements[i], kind)];
      i := i + 1;
    }
    assert statements[..i] == statements;
  }

  /** What the test-context command shows for the contexts that ran a line. */
  function ContextEvents(tests: seq<TestEntry>): (evs: seq<Event>)
    ensures evs == [] <==> tests == []
    ensures forall e | e in evs :: e == ShowTests(tests)
  {
    if tests == [] then [] else [ShowTests(tests)]
  }

  class VimCoveragePy {
    var editor: Editor

    /** The Neovim plugin object: the grouped editor when Vim has sign groups, else the fallback. */
    constructor (hasSignGroups: bool, signOffset: int)
      ensures editor.Valid() && fresh(editor)
      ensures editor.groupedSigns == hasSignGroups && editor.signOffset == signOffset
      ensures editor.linesWithProblems == map[] && editor.signIds == map[] && editor.log == []
    {
      editor := new Editor(hasSignGroups, signOffset);
    }

    /** The Vim plugin's module state at start-up: a grouped editor with the default offset. */
    constructor ModuleDefault()
      ensures editor.Valid() && fresh(editor)
      ensures editor.groupedSigns && editor.signOffset == DefaultSignOffset
      ensures editor.linesWithProblems == map[] && editor.signIds == map[] && editor.log == []
    {
      editor := new Editor(true, DefaultSignOffset);
    }

    /** `downgrade_editor`: a fresh fallback editor replaces the current one, forgetting what it showed. */
    method DowngradeEditor()
      modifies this`editor
      ensures editor.Valid() && fresh(editor)
      ensures !editor.groupedSigns && editor.signOffset == DefaultSignOffset
      ensures editor.linesWithProblems == map[] && editor.signIds == map[] && editor.log == []
    {
      editor := new Editor(false, DefaultSignOffset);
    }

    /** `show`: classify every statement and show the signs. */
    method Show(f: string, statements: seq<int>, missing: set<int>, missingBranches: set<int>)
      returns (ghost cleared: seq<Event>)
      requires editor.Valid() && Distinct(statements)
      modifies editor`linesWithProblems, editor`signIds, editor`log, editor`shown
      ensures editor.Valid()
      ensures statements == [] ==>
        && cleared == [] && editor.log == old(editor.log)
        && editor.linesWithProblems == old(editor.linesWithProblems) && editor.shown == old(editor.shown)
      ensures statements != [] ==>
        && editor.shown == old(editor.shown)[f := SignsFor(statements, missing, missingBranches)]
        && editor.IsSignShown(f)
        && IsProblemIndex(SignsFor(statements, missing, missingBranches), editor.linesWithProblems[f])
        && editor.linesWithProblems == old(editor.linesWithProblems)[f := editor.linesWithProblems[f]]
        && editor.log == old(editor.log) + cleared
             + PlacesFor(SignsFor(statements, missing, missingBranches), editor.signOffset, f, editor.groupedSigns)
        && (if f in old(editor.shown)
            then ClearEvents(cleared, editor.groupedSigns, LinesOf(old(editor.shown)[f]), editor.signOffset, f)
            else cleared == [])
    {
      var signs := BuildSigns(statements, missing, missingBranches);
      SignsForLines(statements, missing, missingBranches);
      cleared := editor.ShowCoverage(f, signs);
    }

    /** `toggle`: clear the file's signs when it shows them, else show them. */
    method Toggle(f: string, statements: seq<int>, missing: set<int>, missingBranches: set<int>)
      returns (ghost evs: seq<Event>)
      requires editor.Valid() && Distinct(statements)
      modifies editor`linesWithProblems, editor`signIds, editor`log, editor`shown
      ensures editor.Valid()
      ensures old(editor.IsSignShown(f)) ==>
        && !editor.IsSignShown(f)
        && editor.linesWithProblems == old(editor.linesWithProblems) - {f}
        && editor.shown == old(editor.shown) - {f}
        && editor.log == old(editor.log) + evs
        && ClearEvents(evs, editor.groupedSigns, LinesOf(old(editor.shown)[f]), editor.signOffset, f)
      ensures !old(editor.IsSignShown(f)) && statements != [] ==>
        && editor.IsSignShown(f)
        && editor.shown == old(editor.shown)[f := SignsFor(statements, missing, missingBranches)]
        && editor.linesWithProblems == old(editor.linesWithProblems)[f := editor.linesWithProblems[f]]
        && editor.log == old(editor.log)
             + PlacesFor(SignsFor(statements, missing, missingBranches), editor.signOffset, f, editor.groupedSigns)
      ensures !old(editor.IsSignShown(f)) && statements == [] ==>
        && editor.log == old(editor.log)
        && editor.linesWithProblems == old(editor.linesWithProblems) && editor.shown == old(editor.shown)
    {
      if editor.IsSignShown(f) {
        var _, cleared := editor.ClearSigns(f);
        evs := cleared;
      } else {
        var cleared := Show(f, statements, missing, missingBranches);
        evs := [];
        if statements != [] {
          assert cleared == [];
          assert old(editor.log) + cleared == old(editor.log);
        }
      }
    }

    /**
     * `go_next_problem`: show the file first when it shows no signs, then
     * move to the next problem. A file with no statements stays unshown, and
     * the move then fails with a KeyError.
     */
    method GoNextProblem(f: string, statements: seq<int>, missing: set<int>, missingBranches: set<int>, current: int)
      returns (outcome: Outcome, ghost shownEvs: seq<Event>)
      requires editor.Valid() && Distinct(statements)
      modifies editor`linesWithProblems, editor`signIds, editor`log, editor`shown
      ensures editor.Valid()
      ensures old(editor.IsSignShown(f)) ==>
        && outcome == Done && shownEvs == [] && editor.IsSignShown(f)
        && editor.linesWithProblems == old(editor.linesWithProblems)
        && editor.shown == old(editor.shown) && editor.signIds == old(editor.signIds)
        && editor.log == old(editor.log) + CursorMove(NextAbove(editor.linesWithProblems[f], current))
      ensures !old(editor.IsSignShown(f)) && statements != [] ==>
        && outcome == Done && editor.IsSignShown(f)
        && IsProblemIndex(SignsFor(statements, missing, missingBranches), editor.linesWithProblems[f])
        && editor.linesWithProblems == old(editor.linesWithProblems)[f := editor.linesWithProblems[f]]
        && editor.shown == old(editor.shown)[f := SignsFor(statements, missing, missingBranches)]
        && shownEvs == PlacesFor(SignsFor(statements, missing, missingBranches), editor.signOffset, f, editor.groupedSigns)
        && editor.log == old(editor.log) + shownEvs + CursorMove(NextAbove(editor.linesWithProblems[f], current))
      ensures !old(editor.IsSignShown(f)) && statements == [] ==>
        && outcome == KeyError(f) && shownEvs == [] && editor.log == old(editor.log)
        && editor.linesWithProblems == old(editor.linesWithProblems) && editor.shown == old(editor.shown)
    {
      if editor.IsSignShown(f) {
        shownEvs := [];
        outcome := editor.MoveToNextProblem(f, current);
        return;
      }
      var cleared := Show(f, statements, missing, missingBranches);
      if statements == [] {
        shownEvs := [];
        outcome := editor.MoveToNextProblem(f, current);
        return;
      }
      shownEvs := PlacesFor(SignsFor(statements, missing, missingBranches), editor.signOffset, f, editor.groupedSigns);
      assert cleared == [];
      assert editor.log == old(editor.log) + shownEvs by {
        assert old(editor.log) + cleared == old(editor.log);
      }
      outcome := editor.MoveToNextProblem(f, current);
    }

    /**
     * `show_pytest_context`: for a line no test ran, a message; otherwise the
     * tests whose `run` step executed it, in the quickfix list, when there
     * are any.
     */
    method ShowPytestContext(covFile: string, contexts: map<int, seq<string>>, line: int)
      modifies editor`log
      ensures line !in contexts ==> editor.log == old(editor.log) + [Message(NotExecuted)]
      ensures line in contexts ==>
        editor.log == old(editor.log) + ContextEvents(KeptTests(Dirname(covFile), contexts[line]))
    {
      if line !in contexts {
        editor.ShowMessage(NotExecuted);
        return;
      }
      var tests := CollectTests(covFile, contexts[line]);
      if tests != [] {
        editor.ShowListOfTests(tests);
      }
    }
  }
}
