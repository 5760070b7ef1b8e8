# vim-coverage.py: the sign tracker and the coverage commands, in Dafny

vim-coverage.py shows coverage.py results in Vim and Neovim. Every executable
line of a Python file gets a sign: `coverageOk` for covered lines,
`coverageErr` for lines that never ran, and `coverageWarn` for lines that ran
but left a branch unexplored. The plugin remembers, per file, the first line
of every run of problem signs, so that a "next problem" command can jump
between runs. It also lists the pytest tests that executed a line, taken from
coverage.py's dynamic contexts.

The plugin exists twice: as a Neovim remote plugin
(`rplugin/python3/vim_coveragepy/util.py`) and as a module for Vim's built-in
Python (`python/vim_coverage.py`). Both copies share the same logic, and this
model covers both:

- `Signs` (signs.dfy): sign kinds and the problem index that `_store_signs`
  computes. The loop sorts the signs, walks them with an "in covered range"
  flag, and keeps the first line of each maximal run of error/warning signs.
  The method `ProblemLines` is proved to return *the* problem index. That is
  the strictly ascending list of exactly those lines that carry a problem sign
  and whose predecessor in line order is an OK sign or absent. It is also
  proved that only one list has that property.
- `ContextParser` (context_parser.dfy): a hand-written, prefix-anchored,
  leftmost-greedy matcher for the `PYTEST_CONTEXT` regular expression.
  - Rendering a well-formed match and parsing it back gives the match again.
    When the match has a step, this holds even if the row goes on with text
    that starts with a non-word character. When it has no step, it holds
    only for the row without further text.
  - The quickfix entries are built from the matches whose step is `run`.
- `Paths` (paths.dfy): POSIX `os.path.dirname` and the two-argument
  `os.path.join`.
- `SignTracker` (sign_tracker.dfy): the `Editor` class.
  - One class stands for both variants. Its `const groupedSigns` is true for
    `Editor`, which removes its signs as a group. It is false for `OldVim`,
    which remembers each file's sign lines and removes them one by one.
  - Vim commands become events appended to a `log`, such as a placed sign, an
    unplaced group, an unplaced id or a cursor move.
  - `Valid()` ties the stored problem lists and sign lines to the signs each
    file currently shows (a ghost map).
- `Plugin` (plugin.dfy): sign classification and the `VimCoveragePy` class.
  - It has the show, toggle, next-problem and test-context commands, plus
    `downgrade_editor`.
  - The constructor is the Neovim plugin object.
  - `ModuleDefault` is the Vim module's start-up state.
- `Scenarios` (scenarios.dfy): the examples of the plugin's test suite, proved
  about the model.

Coverage data is an input: a file's statements, its missing lines, its lines
with a missing branch, and the contexts recorded per line. Whether Vim
supports sign groups, and the sign offset, are constructor parameters.

The model keeps two places where the code raises `KeyError`.
`move_to_next_problem` indexes its dictionary directly, so it raises
`KeyError` for a file that shows no signs. `go_next_problem` can reach this
case when it is asked about a file with no statements, and the model returns
`KeyError` there. `OldVim.clear_signs` deletes from `_sign_ids`
unconditionally, so clearing a file that is not shown raises `KeyError` in the
`OldVim` variant. It is a no-op only in the grouped one.

## Model

| member | source | states |
|---|---|---|
| Signs.IsProblem | rplugin/python3/vim_coveragepy/util.py:34 | a sign is a problem (`coverageErr` or `coverageWarn`) exactly when it is not `coverageOk` |
| Signs.SortByLine | rplugin/python3/vim_coveragepy/util.py:33 | the signs rearranged into ascending line order: a permutation of the input |
| Signs.ProblemLines | rplugin/python3/vim_coveragepy/util.py:30-40 | the list `_store_signs` builds is the problem index: strictly ascending, and a line is in it exactly when it carries an error or warning sign whose predecessor in line order is OK or absent; the Vim module's copy is python/vim_coverage.py lines 27-37 |
| Signs.RunStartsInSorted | rplugin/python3/vim_coveragepy/util.py:33-39 | walking the sorted signs, position j opens a problem run (a problem sign after a non-problem sign, or first) exactly when its line starts a run of the unsorted signs; every run start appears in the sorted list |
| Signs.RunStartLinesMembers | rplugin/python3/vim_coveragepy/util.py:34-39 | the lines the flag walk keeps from the first n sorted signs are exactly the lines of the positions below n that open a run |
| Signs.RunStartLinesAscending | rplugin/python3/vim_coveragepy/util.py:33-37 | the kept lines are strictly ascending, and all lie below the next sign's line |
| Signs.IndexOfRunStarts | rplugin/python3/vim_coveragepy/util.py:30-40 | an ascending list holding exactly the run-opening lines of a strictly sorted permutation is the problem index of the original signs |
| Signs.AscendingUnique | rplugin/python3/vim_coveragepy/util.py:40 | two strictly ascending lists with the same elements are equal |
| Signs.ProblemIndexUnique | rplugin/python3/vim_coveragepy/util.py:30-40 | a set of signs has only one problem index, so storing it again stores the same list |
| Signs.LinesOfMembers | rplugin/python3/vim_coveragepy/util.py:110 | `{s["line"] for s in signs}` holds exactly the lines some sign carries |
| Signs.LinesOfCard | rplugin/python3/vim_coveragepy/util.py:110 | with distinct lines, that set has one element per sign |
| ContextParser.RunEnd | rplugin/python3/vim_coveragepy/util.py:13 | a greedy character-class run from i: every character up to the end is in the class, and the character at the end (if any) is not |
| ContextParser.MatchClass | rplugin/python3/vim_coveragepy/util.py:13 | `(?P<testclass>\w+::)?` is taken only when a word, `::` and another word character follow; otherwise the position is unchanged |
| ContextParser.MatchParams | rplugin/python3/vim_coveragepy/util.py:13 | `(?P<params>\[[^\]]+\])?` yields a non-empty text with no `]` |
| ContextParser.MatchStep | rplugin/python3/vim_coveragepy/util.py:13 | `\|?(?P<step>\w+)?` yields a word when it yields anything |
| ContextParser.MatchAfterHead | rplugin/python3/vim_coveragepy/util.py:13 | after a valid head the groups form a well-formed match |
| ContextParser.HeadIsPathRun | rplugin/python3/vim_coveragepy/util.py:13 | some split of the row into a non-empty `[^:]+` path, `::` and a word character exists exactly when the greedy path run is followed by `::` and a word character |
| ContextParser.MatchContext | rplugin/python3/vim_coveragepy/util.py:222 | `re.match` succeeds exactly when the row starts with a non-colon path, `::` and a word character; a match is well formed |
| ContextParser.MatchRender | rplugin/python3/vim_coveragepy/util.py:13 | parsing a rendered well-formed match gives it back; when the match has a step, also with any further text that starts with a non-word character (prefix matching ignores it); when it has no step, only with no further text |
| ContextParser.RenderGroups | rplugin/python3/vim_coveragepy/util.py:13 | in a rendered row each group of the expression starts and ends where the match's field does |
| ContextParser.ContextFromGroups | rplugin/python3/vim_coveragepy/util.py:13 | a row whose groups read off as the fields of m matches as m |
| ContextParser.Pattern | rplugin/python3/vim_coveragepy/util.py:231-232 | the search pattern is `"  def "` for a test class, `"def "` otherwise, followed by the test name |
| ContextParser.EntryFor | rplugin/python3/vim_coveragepy/util.py:222-234 | a row yields an entry exactly when it matches and its step is `run`; the entry's file is the context path joined onto the directory |
| ContextParser.KeptTestsMembers | rplugin/python3/vim_coveragepy/util.py:221-234 | an entry is listed exactly when some context row yields it |
| ContextParser.RunEntry | rplugin/python3/vim_coveragepy/util.py:225-233 | a `run` row yields the entry `join(dir, path)` with pattern `"  def "` + test for a test class, `"def "` + test otherwise; params are dropped |
| ContextParser.NonRunEntry | rplugin/python3/vim_coveragepy/util.py:225 | a row whose step is not `run`, or has no step, yields nothing |
| ContextParser.CollectTests | rplugin/python3/vim_coveragepy/util.py:220-234 | the loop returns the kept entries in row order, with the directory of the coverage file; the Vim module's copy is python/vim_coverage.py lines 182-196 |
| Paths.Dirname | rplugin/python3/vim_coveragepy/util.py:229 | the directory is a prefix of the path, and it is empty exactly when the path has no `/` |
| Paths.Join | rplugin/python3/vim_coveragepy/util.py:228-230 | the joined name ends with the context path, and starts with the directory unless the path is absolute |
| Paths.AfterLastSlash | rplugin/python3/vim_coveragepy/util.py:229 | the position after the last `/`: no `/` follows it |
| Paths.StripTrailingSlashes | rplugin/python3/vim_coveragepy/util.py:229 | a prefix of the head that ends in something other than `/`, with only slashes cut |
| Paths.DirnameOfJoin | rplugin/python3/vim_coveragepy/util.py:228-230 | the directory of a name joined onto a directory is that directory |
| SignTracker.PlacesFor | rplugin/python3/vim_coveragepy/util.py:69-75 | one place event per sign |
| SignTracker.PlacesForAt | rplugin/python3/vim_coveragepy/util.py:69-75 | the i-th place event has id line + offset, the sign's line and kind, and the file |
| SignTracker.PlacedIdsOfPlaces | rplugin/python3/vim_coveragepy/util.py:69-75 | the ids placed are the sign lines shifted by the offset |
| SignTracker.LineSeqLists | rplugin/python3/vim_coveragepy/util.py:110 | the recorded sign lines list the line set, each once |
| SignTracker.UnplacedIdsOfUnplaces | rplugin/python3/vim_coveragepy/util.py:119-125 | the per-id sweep unplaces the recorded lines shifted by the offset |
| SignTracker.SweepRemovesPlaced | rplugin/python3/vim_coveragepy/util.py:119-125 | the `OldVim` sweep unplaces exactly the ids `show_coverage` placed |
| SignTracker.NextAbove | rplugin/python3/vim_coveragepy/util.py:97-100 | the line moved to is a stored problem line above the cursor line |
| SignTracker.NextAboveFirst | rplugin/python3/vim_coveragepy/util.py:97-100 | the loop's answer is the first stored line above the cursor; there is none exactly when no stored line is above it |
| SignTracker.NextAboveNearest | rplugin/python3/vim_coveragepy/util.py:96-100 | on an ascending list, the first line above the cursor is the nearest one above it |
| SignTracker.NextAboveRunStart | rplugin/python3/vim_coveragepy/util.py:96-100 | on the problem index, the move goes to a run start after the cursor line, and to the nearest such one; there is no move exactly when no run starts after the cursor line |
| SignTracker.NextProblem | rplugin/python3/vim_coveragepy/util.py:97-100 | the `for`/`if`/`return` loop returns the first stored line greater than the cursor line; the Vim module's copy is python/vim_coverage.py lines 90-94 |
| SignTracker.Editor.constructor | rplugin/python3/vim_coveragepy/util.py:25-28 | a new editor shows nothing and has issued nothing |
| SignTracker.Editor.IsSignShown | rplugin/python3/vim_coveragepy/util.py:88-89 | a file is reported shown exactly when it currently shows signs |
| SignTracker.Editor.SetSignOffset | rplugin/python3/vim_coveragepy/util.py:53-55 | the setter replaces the offset |
| SignTracker.Editor.ShowMessage | rplugin/python3/vim_coveragepy/util.py:57-58 | one message event |
| SignTracker.Editor.ShowListOfTests | rplugin/python3/vim_coveragepy/util.py:91-94 | one quickfix event holding the tests |
| SignTracker.Editor.PlaceSign | rplugin/python3/vim_coveragepy/util.py:42-47 | one place event, in the sign group for `Editor` and without it for `OldVim` (lines 112-117) |
| SignTracker.Editor.UnplaceSigns | rplugin/python3/vim_coveragepy/util.py:119-125 | `Editor` issues one group unplace (lines 77-80); `OldVim` one per-id unplace per recorded line, in the recorded order |
| SignTracker.Editor.ClearSigns | rplugin/python3/vim_coveragepy/util.py:82-86 | for a shown file: the sweep, and only that file is removed from every map; for a file not shown: nothing changes, and `OldVim` raises `KeyError` (lines 127-129); the Vim module's copy is python/vim_coverage.py lines 76-80 |
| SignTracker.Editor.StoreSigns | rplugin/python3/vim_coveragepy/util.py:30-40 | the file's entry becomes the problem index of the signs, other entries are unchanged, and `OldVim` records the sign lines (lines 108-110) |
| SignTracker.Editor.PlaceSigns | rplugin/python3/vim_coveragepy/util.py:69-75 | exactly the place events of the signs, in order |
| SignTracker.Editor.ShowCoverage | rplugin/python3/vim_coveragepy/util.py:63-75 | no signs: nothing changes and nothing is issued; otherwise the sweep of a shown file, then the place events. The file's entry becomes the problem index, and other files are untouched; the Vim module's copy is python/vim_coverage.py lines 57-69 |
| SignTracker.Editor.MoveToNextProblem | rplugin/python3/vim_coveragepy/util.py:96-100 | a shown file: one cursor move to the next problem line, or none; a file not shown: `KeyError` and no event |
| SignTracker.StoredIndexIdempotent | rplugin/python3/vim_coveragepy/util.py:68 | storing the same signs twice leaves the same problem map as storing them once |
| Plugin.Classify | rplugin/python3/vim_coveragepy/util.py:193-198 | error exactly for missing lines, warning exactly for executed lines with a missing branch, a problem exactly for lines in either set; the Vim module's copy is python/vim_coverage.py lines 155-160 |
| Plugin.SignsFor | rplugin/python3/vim_coveragepy/util.py:191-199 | one sign per statement |
| Plugin.SignsForAt | rplugin/python3/vim_coveragepy/util.py:191-199 | the i-th sign sits on the i-th statement with its classification |
| Plugin.SignsForLines | rplugin/python3/vim_coveragepy/util.py:191-199 | distinct statements give signs on distinct lines; the i-th sign is a problem exactly when its statement is missing or misses a branch |
| Plugin.BuildSigns | rplugin/python3/vim_coveragepy/util.py:191-199 | the classification loop builds the signs statement by statement; the Vim module's copy is python/vim_coverage.py lines 153-161 |
| Plugin.VimCoveragePy.constructor | rplugin/python3/vim_coveragepy/util.py:133-138 | the grouped editor when Vim has sign groups, else the fallback, with nothing shown |
| Plugin.VimCoveragePy.ModuleDefault | python/vim_coverage.py:126 | the module starts with a grouped editor, offset 5000000 (line 16), nothing shown |
| Plugin.VimCoveragePy.DowngradeEditor | python/vim_coverage.py:129-131 | a fresh fallback editor with empty state replaces the current one |
| Plugin.VimCoveragePy.Show | rplugin/python3/vim_coveragepy/util.py:187-200 | shows the classified signs: the file's entry becomes their problem index, and the events are the sweep of a shown file, then one place event per statement; the Vim module's copy is python/vim_coverage.py lines 151-162 |
| Plugin.VimCoveragePy.Toggle | rplugin/python3/vim_coveragepy/util.py:202-206 | a shown file is cleared and no longer shown; an unshown file is shown, with one place event per statement and no sweep; the Vim module's copy is python/vim_coverage.py lines 165-169 |
| Plugin.VimCoveragePy.GoNextProblem | rplugin/python3/vim_coveragepy/util.py:208-211 | a shown file: only the cursor move, with every map unchanged; an unshown file is shown first (its entry becomes the fresh problem index, other files keep theirs) and then the cursor moves within that index; with no statements nothing changes, the file stays unshown and the move raises `KeyError`; the Vim module's copy is python/vim_coverage.py lines 201-204 |
| Plugin.VimCoveragePy.ShowPytestContext | rplugin/python3/vim_coveragepy/util.py:213-236 | a line no test ran gives only the message "Line was not executed."; otherwise the kept `run` entries are shown in row order, and only when there are some; the Vim module's copy is python/vim_coverage.py lines 175-198 |
| Plugin.ContextEvents | rplugin/python3/vim_coveragepy/util.py:235-236 | the test list is shown exactly when it is non-empty, and then it is shown whole |
| Scenarios.ShowScenario | tests/test_vim_coverage.py:12-25 | statements {1, 2, 3} with 2 missing and 3 missing a branch give Ok, Err, Warn, and the problem index [2] |
| Scenarios.RootCoverageDir | tests/test_vim_coverage.py:31 | the directory of `/.coverage` is `/` |
| Scenarios.SimpleContextScenario | tests/test_vim_coverage.py:35-46 | two plain `run` rows list both tests at `/path/to/file.py`, in row order |
| Scenarios.FixtureContextScenario | tests/test_vim_coverage.py:49-57 | a parametrized row's `[True, False]` is dropped from the pattern |
| Scenarios.ClassContextScenario | tests/test_vim_coverage.py:60-68 | a unittest-style row gives the indented pattern `  def test_parse` |

## Left out

- Vim command text is not modelled. `sign place`/`sign unplace` strings, the
  `setqflist`/`copen` commands, `out_write` and `print` become abstract events
  in the editor's log. `err_message` has no caller in the core and is not
  modelled.
- coverage.py is not modelled: `coverage_module`, `_get_coverage`,
  `_get_file_coverage` and `coverage_version` are calls into the library.
  Statements, missing lines, missing-branch lines and contexts per line are
  inputs.
- Host detection is not modelled. The `vim.eval` capability check and the
  `g:coveragepy_sign_offset` lookup become the constructor's parameters. So
  does the lazy `import vim` of the Vim module.
- String-to-integer parsing is not modelled. `int(line)` and the offset
  setter's `int(val)` take integers, so the `ValueError` paths are not
  modelled.
- Python's `re` is not modelled in general. The matcher implements only the
  one expression, and `\w` is ASCII `[A-Za-z0-9_]`, without Unicode word
  characters.
- `os.path` is not modelled in general. `dirname` (Paths.Dirname) and the
  two-argument `join` (Paths.Join) follow POSIX rules on plain strings, with
  no bytes paths and no Windows rules.
- Python sets have an iteration order that the model does not fix.
  `statements` is a Python set, so the model takes the statements as a list
  in whatever order coverage.py yields them. It requires that list to have no
  repeated line, which a set guarantees.
- `OldVim._sign_ids` is a set, and its sweep issues one unplace per element
  in set order. The model stores the lines in the order the signs came. The
  properties say only that the sweep lists the line set once each, in some
  order (SignTracker.ClearEvents).
- SignTracker.Editor.ShowCoverage: requires distinct sign lines, which every
  caller in the plugin guarantees because the signs come from a set of
  statements. Repeated lines would make `OldVim` unplace fewer ids than it
  placed.
- Plugin.VimCoveragePy.DowngradeEditor: the fallback editor starts a new,
  empty log. The commands both editors send go to the same Vim, which the
  model does not represent.
- Plugin.VimCoveragePy.Toggle: states the problem map, the shown signs and
  the log. The sign-line map follows from `Valid()` and is not restated.
- The `Abort` exception, the pynvim command registration
  (`rplugin/python3/vim_coveragepy/__init__.py`, `pythonx/vim_coveragepy_wrap.py`)
  and the virtualenv set-up (`python/vim_coverage_env.py`) are not part of
  this model. They are I/O glue.
- Concurrency is not modelled. Vim calls the plugin one command at a time.
