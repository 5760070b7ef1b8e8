/**
 * The editor-side sign tracker: which files show coverage signs, the problem
 * index kept for each of them, and the commands sent to Vim.
 *
 * Both editor variants are one class. `groupedSigns` selects the variant:
 * true is the editor that places every sign in the CoveragePyGroup group and
 * removes them with one `sign unplace *`; false is the fallback for older Vims
 * that places signs without a group, remembers the lines it placed per file
 * and removes them one id at a time. Every command the editor sends to Vim
 * (sign place, sign unplace, cursor move, message, quickfix list) is appended
 * to `log` as an event.
 */
module SignTracker {
  import opened Wrappers
  import opened Signs
  import opened ContextParser

  /** The sign id offset used when `g:coveragepy_sign_offset` is not set. */
  const DefaultSignOffset: int := 5000000

  /** One command sent to Vim. */
  datatype Event =
    | Place(id: int, line: int, kind: Kind, file: string, grouped: bool)
    | UnplaceGroup(file: string)
    | Unplace(id: int, file: string)
    | Cursor(line: int, column: int)
    | Message(text: string)
    | ShowTests(tests: seq<TestEntry>)

  /** How an operation ended: normally, or with Python's KeyError on a file name. */
  datatype Outcome = Done | KeyError(key: string)

  /** The `sign place` command for one sign: its id is its line plus the offset. */
  function PlaceOf(s: Sign, offset: int, f: string, grouped: bool): Event {
    Place(s.line + offset, s.line, s.kind, f, grouped)
  }

  /** The `sign place` commands for signs, in their order. */
  function PlacesFor(signs: seq<Sign>, offset: int, f: string, grouped: bool): (evs: seq<Event>)
    ensures |evs| == |signs|
  {
    if signs == [] then []
    else PlacesFor(signs[..|signs| - 1], offset, f, grouped) + [PlaceOf(signs[|signs| - 1], offset, f, grouped)]
  }

  lemma {:induction false} PlacesForAt(signs: seq<Sign>, offset: int, f: string, grouped: bool, i: nat)
    requires i < |signs|
    ensures PlacesFor(signs, offset, f, grouped)[i] == PlaceOf(signs[i], offset, f, grouped)
  {
    if i < |signs| - 1 {
      PlacesForAt(signs[..|signs| - 1], offset, f, grouped, i);
    }
  }

  /** The lines of a set, each shifted by the sign offset: the ids their signs get. */
  ghost function Shifted(lines: set<int>, offset: int): set<int> {
    set l | l in lines :: l + offset
  }

  lemma ShiftedAdd(lines: set<int>, offset: int, l: int)
    ensures Shifted(lines + {l}, offset) == Shifted(lines, offset) + {l + offset}
  {
    forall id | id in Shifted(lines + {l}, offset) ensures id in Shifted(lines, offset) + {l + offset} {
      var x :| x in lines + {l} && id == x + offset;
      if x != l {
        assert x in lines;
      }
    }
  }

  /** The ids of the `sign place` commands among evs. */
  ghost function PlacedIds(evs: seq<Event>): set<int> {
    if evs == [] then {}
    else PlacedIds(evs[..|evs| - 1]) + (if evs[|evs| - 1].Place? then {evs[|evs| - 1].id} else {})
  }

  /** Showing signs places exactly one id per sign line, each line shifted by the offset. */
  lemma {:induction false} PlacedIdsOfPlaces(signs: seq<Sign>, offset: int, f: string, grouped: bool)
    ensures PlacedIds(PlacesFor(signs, offset, f, grouped)) == Shifted(LinesOf(signs), offset)
  {
    if signs != [] {
      var init := signs[..|signs| - 1];
      var last := signs[|signs| - 1];
      var evs := PlacesFor(signs, offset, f, grouped);
      PlacedIdsOfPlaces(init, offset, f, grouped);
      assert evs[..|evs| - 1] == PlacesFor(init, offset, f, grouped);
      ShiftedAdd(LinesOf(init), offset, last.line);
    }
  }

  /** The elements of a sequence. */
  ghost function SetOfSeq(s: seq<int>): set<int> {
    if s == [] then {} else SetOfSeq(s[..|s| - 1]) + {s[|s| - 1]}
  }

  /** order lists the set lines, each once: the order Python iterates a set in. */
  ghost predicate ListsSet(order: seq<int>, lines: set<int>) {
    |order| == |lines| && SetOfSeq(order) == lines
  }

  /** The lines of signs, in their order. */
  function LineSeq(signs: seq<Sign>): (lines: seq<int>)
    ensures |lines| == |signs|
  {
    if signs == [] then [] else LineSeq(signs[..|signs| - 1]) + [signs[|signs| - 1].line]
  }

  /** Signs on distinct lines: their lines, in order, list the set of lines once each. */
  lemma LineSeqLists(signs: seq<Sign>)
    requires DistinctLines(signs)
    ensures ListsSet(LineSeq(signs), LinesOf(signs))
  {
    LinesOfCard(signs);
    SetOfLineSeq(signs);
  }

  lemma {:induction false} SetOfLineSeq(signs: seq<Sign>)
    ensures SetOfSeq(LineSeq(signs)) == LinesOf(signs)
  {
    if signs != [] {
      SetOfLineSeq(signs[..|signs| - 1]);
      assert LineSeq(signs)[..|signs| - 1] == LineSeq(signs[..|signs| - 1]);
    }
  }

  /** The fallback's one-by-one `sign unplace ID file=F` commands for lines taken in order. */
  function UnplacesFor(order: seq<int>, offset: int, f: string): (evs: seq<Event>)
    ensures |evs| == |order|
  {
    if order == [] then []
    else UnplacesFor(order[..|order| - 1], offset, f) + [Unplace(order[|order| - 1] + offset, f)]
  }

  /** The commands that remove a file's signs, for either editor variant. */
  ghost predicate ClearEvents(evs: seq<Event>, grouped: bool, lines: set<int>, offset: int, f: string) {
    if grouped then evs == [UnplaceGroup(f)]
    else exists order :: ListsSet(order, lines) && evs == UnplacesFor(order, offset, f)
  }

  /** The ids of the `sign unplace` commands among evs. */
  ghost function UnplacedIds(evs: seq<Event>): set<int> {
    if evs == [] then {}
    else UnplacedIds(evs[..|evs| - 1]) + (if evs[|evs| - 1].Unplace? then {evs[|evs| - 1].id} else {})
  }

  lemma {:induction false} UnplacedIdsOfUnplaces(order: seq<int>, offset: int, f: string)
    ensures UnplacedIds(UnplacesFor(order, offset, f)) == Shifted(SetOfSeq(order), offset)
  {
    if order != [] {
      var init := order[..|order| - 1];
      var last := order[|order| - 1];
      var evs := UnplacesFor(order, offset, f);
      UnplacedIdsOfUnplaces(init, offset, f);
      assert evs[..|evs| - 1] == UnplacesFor(init, offset, f);
      ShiftedAdd(SetOfSeq(init), offset, last);
    }
  }

  /**
   * With the offset unchanged since the signs were placed, the fallback's
   * sweep removes exactly the ids that showing them placed.
   */
  lemma SweepRemovesPlaced(order: seq<int>, signs: seq<Sign>, offset: int, f: string, grouped: bool)
    requires ListsSet(order, LinesOf(signs))
    ensures UnplacedIds(UnplacesFor(order, offset, f)) == PlacedIds(PlacesFor(signs, offset, f, grouped))
  {
    PlacedIdsOfPlaces(signs, offset, f, grouped);
    UnplacedIdsOfUnplaces(order, offset, f);
  }

  lemma LogAssoc(a: seq<Event>, b: seq<Event>, c: seq<Event>)
    ensures (a + b) + c == a + (b + c)
  {
  }

  lemma PlacesForSnoc(signs: seq<Sign>, i: nat, offset: int, f: string, grouped: bool)
    requires i < |signs|
    ensures PlacesFor(signs[..i + 1], offset, f, grouped) == PlacesFor(signs[..i], offset, f, grouped) + [PlaceOf(signs[i], offset, f, grouped)]
  {
    assert signs[..i + 1][..i] == signs[..i];
  }

  /** One more stored line swept: the log grows by its `sign unplace` command. */
  lemma UnplaceStep(log0: seq<Event>, log: seq<Event>, lines: seq<int>, i: nat, offset: int, f: string)
    requires i < |lines| && log == log0 + UnplacesFor(lines[..i], offset, f)
    ensures log + [Unplace(lines[i] + offset, f)] == log0 + UnplacesFor(lines[..i + 1], offset, f)
  {
    assert lines[..i + 1] == lines[..i] + [lines[i]];
    UnplacesForSnoc(lines[..i], lines[i], offset, f);
    LogAssoc(log0, UnplacesFor(lines[..i], offset, f), [Unplace(lines[i] + offset, f)]);
  }

  /** One more sign placed: the log grows by its `sign place` command. */
  lemma PlaceStep(log0: seq<Event>, log: seq<Event>, signs: seq<Sign>, i: nat, offset: int, f: string, grouped: bool)
    requires i < |signs| && log == log0 + PlacesFor(signs[..i], offset, f, grouped)
    ensures log + [PlaceOf(signs[i], offset, f, grouped)] == log0 + PlacesFor(signs[..i + 1], offset, f, grouped)
  {
    PlacesForSnoc(signs, i, offset, f, grouped);
    LogAssoc(log0, PlacesFor(signs[..i], offset, f, grouped), [PlaceOf(signs[i], offset, f, grouped)]);
  }

  /** Dropping a key and then setting it is setting it. */
  lemma RemoveThenUpdate<K, V>(m: map<K, V>, k: K, v: V)
    ensures (m - {k})[k := v] == m[k := v]
  {
  }

  lemma UnplacesForSnoc(order: seq<int>, l: int, offset: int, f: string)
    ensures UnplacesFor(order + [l], offset, f) == UnplacesFor(order, offset, f) + [Unplace(l + offset, f)]
  {
    assert (order + [l])[..|order|] == order;
  }

  // ---------------------------------------------------------------------
  // Next problem
  // ---------------------------------------------------------------------

  /** The first line of ps after the cursor line, in list order. */
  function NextAbove(ps: seq<int>, current: int): (r: Option<int>)
    ensures r.Some? ==> r.value in ps && r.value > current
  {
    if ps == [] then None
    else if ps[0] > current then Some(ps[0])
    else NextAbove(ps[1..], current)
  }

  /** NextAbove is the first entry after the cursor, and there is none exactly when no entry is after it. */
  lemma {:induction false} NextAboveFirst(ps: seq<int>, current: int)
    ensures NextAbove(ps, current).None? <==> forall k | 0 <= k < |ps| :: ps[k] <= current
    ensures NextAbove(ps, current).Some? ==>
      exists j :: 0 <= j < |ps| && ps[j] == NextAbove(ps, current).value && ps[j] > current
        && forall k | 0 <= k < j :: ps[k] <= current
  {
    if ps != [] {
      NextAboveFirst(ps[1..], current);
      if ps[0] <= current {
        if NextAbove(ps, current).Some? {
          var j :| 0 <= j < |ps| - 1 && ps[1..][j] == NextAbove(ps, current).value && ps[1..][j] > current
            && forall k | 0 <= k < j :: ps[1..][k] <= current;
          assert forall k | 0 <= k < j + 1 :: ps[k] <= current by {
            assert forall k | 1 <= k < j + 1 :: ps[k] == ps[1..][k - 1];
          }
          assert ps[j + 1] == ps[1..][j];
        }
        assert forall k | 1 <= k < |ps| :: ps[k] == ps[1..][k - 1];
      }
    }
  }

  /** In an ascending problem index the first entry after the cursor is the nearest one. */
  lemma NextAboveNearest(ps: seq<int>, current: int)
    requires StrictlyAscending(ps)
    ensures NextAbove(ps, current).Some? ==>
      NextAbove(ps, current).value in ps && forall l | l in ps && l > current :: NextAbove(ps, current).value <= l
  {
    NextAboveFirst(ps, current);
    if NextAbove(ps, current).Some? {
      var j :| 0 <= j < |ps| && ps[j] == NextAbove(ps, current).value && ps[j] > current
        && forall k | 0 <= k < j :: ps[k] <= current;
      forall l | l in ps && l > current ensures ps[j] <= l {
        var k :| 0 <= k < |ps| && ps[k] == l;
      }
    }
  }

  /**
   * Over a file's problem index, the next problem is the nearest line after
   * the cursor that starts a streak of problem signs; there is none exactly
   * when no streak starts after the cursor.
   */
  lemma NextAboveRunStart(signs: seq<Sign>, ps: seq<int>, current: int)
    requires IsProblemIndex(signs, ps)
    ensures NextAbove(ps, current).Some? ==>
      && StartsRun(signs, NextAbove(ps, current).value) && NextAbove(ps, current).value > current
      && forall l | StartsRun(signs, l) && l > current :: NextAbove(ps, current).value <= l
    ensures NextAbove(ps, current).None? <==> forall l | StartsRun(signs, l) :: l <= current
  {
    NextAboveFirst(ps, current);
    NextAboveNearest(ps, current);
    if NextAbove(ps, current).None? {
      forall l | StartsRun(signs, l) ensures l <= current {
        var k :| 0 <= k < |ps| && ps[k] == l;
      }
    } else {
      var j :| 0 <= j < |ps| && ps[j] == NextAbove(ps, current).value && ps[j] > current
        && forall k | 0 <= k < j :: ps[k] <= current;
      assert ps[j] in ps;
    }
  }

  /** The cursor move for the next problem, if there is one: to its line, column 0. */
  function CursorMove(next: Option<int>): seq<Event> {
    match next
    case Some(l) => [Cursor(l, 0)]
    case None => []
  }

  /** The loop of `move_to_next_problem` over the stored index. */
  method NextProblem(ps: seq<int>, current: int) returns (r: Option<int>)
    ensures r == NextAbove(ps, current)
  {
    var i := 0;
    while i < |ps|
      invariant 0 <= i <= |ps|
      invariant NextAbove(ps[i..], current) == NextAbove(ps, current)
    {
      assert ps[i..][1..] == ps[i + 1..];
      if ps[i] > current {
        return Some(ps[i]);
      }
      i := i + 1;
    }
    return None;
  }

  // ---------------------------------------------------------------------
  // The editor
  // ---------------------------------------------------------------------

  class Editor {
    /** True for the grouped-sign editor, false for the older-Vim fallback. */
    const groupedSigns: bool
    var signOffset: int
    /** Files that show signs, each with its problem index. */
    var linesWithProblems: map<string, seq<int>>
    /**
     * The fallback's `_sign_ids`: the set of lines it placed per file, held
     * as a duplicate-free sequence in the order the set is walked; empty
     * for the grouped editor.
     */
    var signIds: map<string, seq<int>>
    var log: seq<Event>
    /** The signs each shown file displays. */
    ghost var shown: map<string, seq<Sign>>

    ghost predicate Valid()
      reads this`shown, this`linesWithProblems, this`signIds
    {
      && shown.Keys == linesWithProblems.Keys
      && (forall f | f in shown :: shown[f] != [] && DistinctLines(shown[f]))
      && (forall f | f in shown :: IsProblemIndex(shown[f], linesWithProblems[f]))
      && (if groupedSigns then signIds == map[]
          else signIds.Keys == shown.Keys && forall f | f in shown :: signIds[f] == LineSeq(shown[f]))
    }

    constructor (groupedSigns: bool, signOffset: int)
      ensures Valid()
      ensures this.groupedSigns == groupedSigns && this.signOffset == signOffset
      ensures linesWithProblems == map[] && signIds == map[] && shown == map[] && log == []
    {
      this.groupedSigns := groupedSigns;
      this.signOffset := signOffset;
      linesWithProblems := map[];
      signIds := map[];
      shown := map[];
      log := [];
    }

    /** `is_sign_shown`. */
    predicate IsSignShown(f: string): (b: bool)
      reads this
      ensures Valid() ==> (b <==> f in shown)
    {
      f in linesWithProblems
    }

    /** The `sign_offset` setter. */
    method SetSignOffset(val: int)
      modifies this`signOffset
      ensures signOffset == val
    {
      signOffset := val;
    }

    /** `message`: a line for the user. */
    method ShowMessage(text: string)
      modifies this`log
      ensures log == old(log) + [Message(text)]
    {
      log := log + [Message(text)];
    }

    /** `show_list_of_tests`: fills the quickfix list and opens it. */
    method ShowListOfTests(tests: seq<TestEntry>)
      modifies this`log
      ensures log == old(log) + [ShowTests(tests)]
    {
      log := log + [ShowTests(tests)];
    }

    /** `_place_sign`, with the group only in the grouped editor. */
    method PlaceSign(s: Sign, f: string)
      modifies this`log
      ensures log == old(log) + [PlaceOf(s, signOffset, f, groupedSigns)]
    {
      log := log + [Place(s.line + signOffset, s.line, s.kind, f, groupedSigns)];
    }

    /**
     * `_unplace_signs`: one group-wide command, or one command per stored
     * line in the fallback (whose `_sign_ids[f]` lookup needs a stored entry).
     */
    method UnplaceSigns(f: string) returns (ghost evs: seq<Event>)
      requires !groupedSigns ==> f in signIds
      modifies this`log
      ensures log == old(log) + evs
      ensures evs == if groupedSigns then [UnplaceGroup(f)] else UnplacesFor(signIds[f], signOffset, f)
    {
      if groupedSigns {
        evs := [UnplaceGroup(f)];
        log := log + [UnplaceGroup(f)];
        return;
      }
      var lines := signIds[f];
      var i := 0;
      while i < |lines|
        invariant 0 <= i <= |lines|
        invariant log == old(log) + UnplacesFor(lines[..i], signOffset, f)
      {
        UnplaceStep(old(log), log, lines, i, signOffset, f);
        log := log + [Unplace(lines[i] + signOffset, f)];
        i := i + 1;
      }
      assert lines[..i] == lines;
      evs := UnplacesFor(lines, signOffset, f);
    }

    /**
     * `clear_signs`. A file that shows no signs is left alone; the fallback
     * then fails on `del self._sign_ids[f]` with a KeyError.
     */
    method ClearSigns(f: string) returns (outcome: Outcome, ghost evs: seq<Event>)
      requires Valid()
      modifies this`linesWithProblems, this`signIds, this`log, this`shown
      ensures Valid()
      ensures log == old(log) + evs
      ensures old(IsSignShown(f)) ==>
        && outcome == Done
        && ClearEvents(evs, groupedSigns, LinesOf(old(shown)[f]), signOffset, f)
        && linesWithProblems == old(linesWithProblems) - {f}
        && signIds == old(signIds) - {f}
        && shown == old(shown) - {f}
      ensures !old(IsSignShown(f)) ==>
        && outcome == (if groupedSigns then Done else KeyError(f))
        && evs == []
        && linesWithProblems == old(linesWithProblems) && signIds == old(signIds) && shown == old(shown)
    {
      if !IsSignShown(f) {
        evs := [];
        return if groupedSigns then Done else KeyError(f), evs;
      }
      evs := UnplaceSigns(f);
      if !groupedSigns {
        LineSeqLists(shown[f]);
      }
      linesWithProblems := linesWithProblems - {f};
      shown := shown - {f};
      signIds := signIds - {f};
      outcome := Done;
    }

    /** `_store_signs`: records the problem index, and in the fallback the placed lines. */
    method StoreSigns(f: string, signs: seq<Sign>)
      requires Valid() && signs != [] && DistinctLines(signs)
      modifies this`linesWithProblems, this`signIds, this`shown
      ensures Valid()
      ensures f in linesWithProblems && IsProblemIndex(signs, linesWithProblems[f])
      ensures linesWithProblems == old(linesWithProblems)[f := linesWithProblems[f]]
      ensures signIds == if groupedSigns then old(signIds) else old(signIds)[f := LineSeq(signs)]
      ensures shown == old(shown)[f := signs]
    {
      var problems := ProblemLines(signs);
      linesWithProblems := linesWithProblems[f := problems];
      if !groupedSigns {
        signIds := signIds[f := LineSeq(signs)];
      }
      shown := shown[f := signs];
    }

    /** The placing loop of `show_coverage`: one `sign place` per sign, in order. */
    method PlaceSigns(f: string, signs: seq<Sign>)
      modifies this`log
      ensures log == old(log) + PlacesFor(signs, signOffset, f, groupedSigns)
    {
      var i := 0;
      while i < |signs|
        invariant 0 <= i <= |signs|
        invariant log == old(log) + PlacesFor(signs[..i], signOffset, f, groupedSigns)
      {
        PlaceStep(old(log), log, signs, i, signOffset, f, groupedSigns);
        PlaceSign(signs[i], f);
        i := i + 1;
      }
      assert signs[..i] == signs;
    }

    /**
     * `show_coverage`: with signs, removes the file's old signs if it shows
     * any, stores the new index and places one sign per entry in order.
     * Without signs nothing happens, and old signs stay.
     */
    method ShowCoverage(f: string, signs: seq<Sign>) returns (ghost cleared: seq<Event>)
      requires Valid() && DistinctLines(signs)
      modifies this`linesWithProblems, this`signIds, this`log, this`shown
      ensures Valid()
      ensures signs == [] ==>
        && cleared == [] && log == old(log)
        && linesWithProblems == old(linesWithProblems) && signIds == old(signIds) && shown == old(shown)
      ensures signs != [] ==>
        && log == old(log) + cleared + PlacesFor(signs, signOffset, f, groupedSigns)
        && (if f in old(shown) then ClearEvents(cleared, groupedSigns, LinesOf(old(shown)[f]), signOffset, f)
            else cleared == [])
        && IsSignShown(f) && IsProblemIndex(signs, linesWithProblems[f])
        && linesWithProblems == old(linesWithProblems)[f := linesWithProblems[f]]
        && signIds == (if groupedSigns then old(signIds) else old(signIds)[f := LineSeq(signs)])
        && shown == old(shown)[f := signs]
    {
      cleared := [];
      if signs == [] {
        return;
      }
      ghost var lwp0, ids0, shown0 := linesWithProblems, signIds, shown;
      if IsSignShown(f) {
        var _, evs := ClearSigns(f);
        cleared := evs;
      }
      assert if f in shown0 then ClearEvents(cleared, groupedSigns, LinesOf(shown0[f]), signOffset, f) else cleared == [];
      ghost var log1 := log;
      assert log1 == old(log) + cleared;
      StoreSigns(f, signs);
      RemoveThenUpdate(lwp0, f, linesWithProblems[f]);
      RemoveThenUpdate(ids0, f, LineSeq(signs));
      RemoveThenUpdate(shown0, f, signs);
      PlaceSigns(f, signs);
      assert log == log1 + PlacesFor(signs, signOffset, f, groupedSigns);
    }

    /**
     * `move_to_next_problem`: moves the cursor to the first stored problem
     * after the current line, if there is one; a file that shows no signs
     * fails the `_lines_with_problems[f]` lookup with a KeyError.
     */
    method MoveToNextProblem(f: string, current: int) returns (outcome: Outcome)
      modifies this`log
      ensures !IsSignShown(f) ==> outcome == KeyError(f) && log == old(log)
      ensures IsSignShown(f) ==>
        && outcome == Done
        && log == old(log) + CursorMove(NextAbove(linesWithProblems[f], current))
    {
      if !IsSignShown(f) {
        return KeyError(f);
      }
      var next := NextProblem(linesWithProblems[f], current);
      if next.Some? {
        log := log + [Cursor(next.value, 0)];
      }
      outcome := Done;
    }
  }

  /** Storing the same signs again stores the same index: showing coverage twice changes nothing more. */
  lemma StoredIndexIdempotent(signs: seq<Sign>, m: map<string, seq<int>>, f: string, a: seq<int>, b: seq<int>)
    requires IsProblemIndex(signs, a) && IsProblemIndex(signs, b)
    ensures m[f := a][f := b] == m[f := a]
  {
    ProblemIndexUnique(signs, a, b);
  }
}
