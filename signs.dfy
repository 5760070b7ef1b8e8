/**
 * Coverage signs and the problem index derived from them.
 *
 * A sign is one line's coverage status. The problem index of a file is the
 * ascending list of lines that start a maximal run of problem signs
 * (missed statements or missed branches) when the signs are taken in line
 * order. It is what `_store_signs` computes and what navigation walks.
 */
module Signs {

  /** The three sign names: SIGN_OK, SIGN_ERROR and SIGN_WARNING. */
  datatype Kind = SignOk | SignError | SignWarning

  /** One sign to place: a line and the name of the sign drawn there. */
  datatype Sign = Sign(line: int, kind: Kind)

  /** Missed statements and missed branches are problems. */
  predicate IsProblem(k: Kind): (b: bool)
    ensures b <==> k != SignOk
  {
    k == SignError || k == SignWarning
  }

  /** No two signs share a line. */
  predicate DistinctLines(signs: seq<Sign>) {
    forall i, j | 0 <= i < j < |signs| :: signs[i].line != signs[j].line
  }

  predicate AscendingLines(s: seq<Sign>) {
    forall i, j | 0 <= i < j < |s| :: s[i].line <= s[j].line
  }

  predicate StrictLines(s: seq<Sign>) {
    forall i, j | 0 <= i < j < |s| :: s[i].line < s[j].line
  }

  predicate StrictlyAscending(ps: seq<int>) {
    forall i, j | 0 <= i < j < |ps| :: ps[i] < ps[j]
  }

  /** The set of lines that carry a sign. */
  function LinesOf(signs: seq<Sign>): set<int> {
    if signs == [] then {} else LinesOf(signs[..|signs| - 1]) + {signs[|signs| - 1].line}
  }

  /** A line is in LinesOf(signs) exactly when some sign sits on it. */
  lemma {:induction false} LinesOfMembers(signs: seq<Sign>)
    ensures forall l :: l in LinesOf(signs) <==> exists i :: 0 <= i < |signs| && signs[i].line == l
  {
    if signs != [] {
      var init := signs[..|signs| - 1];
      LinesOfMembers(init);
      forall l ensures l in LinesOf(signs) <==> exists i :: 0 <= i < |signs| && signs[i].line == l {
        if exists i :: 0 <= i < |signs| && signs[i].line == l {
          var i :| 0 <= i < |signs| && signs[i].line == l;
          if i < |init| {
            assert init[i].line == l;
          }
        }
        if l in LinesOf(init) {
          var i :| 0 <= i < |init| && init[i].line == l;
          assert signs[i].line == l;
        }
      }
    }
  }

  /** Signs on distinct lines have as many lines as signs. */
  lemma {:induction false} LinesOfCard(signs: seq<Sign>)
    requires DistinctLines(signs)
    ensures |LinesOf(signs)| == |signs|
  {
    if signs != [] {
      var init := signs[..|signs| - 1];
      LinesOfCard(init);
      LinesOfMembers(init);
      assert signs[|signs| - 1].line !in LinesOf(init);
    }
  }

  // ---------------------------------------------------------------------
  // Sorting by line (Python's stable `sorted(signs, key=line)`)
  // ---------------------------------------------------------------------

  /** Inserts x into a line-sorted sequence, before every sign with an equal or larger line. */
  function InsertByLine(x: Sign, s: seq<Sign>): (r: seq<Sign>)
    requires AscendingLines(s)
    ensures AscendingLines(r)
    ensures multiset(r) == multiset(s) + multiset{x}
    ensures |r| == |s| + 1
    ensures r[0] == x || (|s| > 0 && r[0] == s[0])
  {
    if s == [] || x.line <= s[0].line then
      [x] + s
    else
      var rest := InsertByLine(x, s[1..]);
      InsertCons(x, s, rest);
      [s[0]] + rest
  }

  /** The recursive step of InsertByLine: the head of s stays in front of the insertion into its tail. */
  lemma InsertCons(x: Sign, s: seq<Sign>, rest: seq<Sign>)
    requires s != [] && AscendingLines(s) && s[0].line < x.line
    requires AscendingLines(rest) && |rest| == |s|
    requires multiset(rest) == multiset(s[1..]) + multiset{x}
    requires rest[0] == x || (|s| > 1 && rest[0] == s[1])
    ensures AscendingLines([s[0]] + rest)
    ensures multiset([s[0]] + rest) == multiset(s) + multiset{x}
  {
    assert s == [s[0]] + s[1..];
    assert forall k | 0 <= k < |rest| :: s[0].line <= rest[k].line by {
      assert s[0].line <= rest[0].line;
    }
  }

  lemma {:induction false} InsertStrict(x: Sign, s: seq<Sign>)
    requires AscendingLines(s) && StrictLines(s)
    requires forall y | y in s :: y.line != x.line
    ensures StrictLines(InsertByLine(x, s))
  {
    if s == [] || x.line <= s[0].line {
    } else {
      InsertStrict(x, s[1..]);
      var rest := InsertByLine(x, s[1..]);
      assert s[0].line < rest[0].line;
      assert InsertByLine(x, s) == [s[0]] + rest;
    }
  }

  /** The signs in ascending line order; a permutation of the input. */
  function SortByLine(s: seq<Sign>): (r: seq<Sign>)
    ensures AscendingLines(r)
    ensures multiset(r) == multiset(s)
  {
    if s == [] then
      []
    else
      assert s == [s[0]] + s[1..];
      InsertByLine(s[0], SortByLine(s[1..]))
  }

  /** With one sign per line the sorted signs have strictly ascending lines. */
  lemma {:induction false} SortStrict(s: seq<Sign>)
    requires DistinctLines(s)
    ensures StrictLines(SortByLine(s))
  {
    if s != [] {
      assert s == [s[0]] + s[1..];
      SortStrict(s[1..]);
      var rest := SortByLine(s[1..]);
      forall y | y in rest ensures y.line != s[0].line {
        assert y in multiset(s[1..]);
        assert y in s[1..];
      }
      InsertStrict(s[0], rest);
    }
  }

  // ---------------------------------------------------------------------
  // What the problem index is
  // ---------------------------------------------------------------------

  /** Some problem sign comes immediately before line l in line order. */
  ghost predicate ProblemBefore(signs: seq<Sign>, l: int) {
    exists y :: y in signs && y.line < l && IsProblem(y.kind) &&
      forall z | z in signs :: !(y.line < z.line < l)
  }

  /**
   * Line l starts a problem streak: it carries a problem sign, and the sign
   * just before it in line order is an OK sign or there is none.
   */
  ghost predicate StartsRun(signs: seq<Sign>, l: int) {
    (exists x :: x in signs && x.line == l && IsProblem(x.kind)) && !ProblemBefore(signs, l)
  }

  /** ps is THE problem index of signs: ascending, and holding exactly the streak starts. */
  ghost predicate IsProblemIndex(signs: seq<Sign>, ps: seq<int>) {
    StrictlyAscending(ps) && forall l :: l in ps <==> StartsRun(signs, l)
  }

  /** Position j of a line-sorted sequence starts a run of problem signs. */
  predicate RunStart(s: seq<Sign>, j: int)
    requires 0 <= j < |s|
  {
    IsProblem(s[j].kind) && (j == 0 || !IsProblem(s[j - 1].kind))
  }

  /**
   * On a strictly line-sorted permutation of the signs, "starts a run" is a
   * property of adjacent positions: a problem sign whose left neighbour is
   * not a problem sign (or which has no left neighbour).
   */
  lemma RunStartsInSorted(signs: seq<Sign>, s: seq<Sign>)
    requires StrictLines(s) && multiset(s) == multiset(signs)
    ensures forall j | 0 <= j < |s| :: RunStart(s, j) <==> StartsRun(signs, s[j].line)
    ensures forall l | StartsRun(signs, l) :: exists j :: 0 <= j < |s| && s[j].line == l
  {
    assert forall x :: x in s <==> x in signs by {
      forall x ensures x in s <==> x in signs {
        assert x in s <==> x in multiset(s);
        assert x in signs <==> x in multiset(signs);
      }
    }
    forall j | 0 <= j < |s| ensures RunStart(s, j) <==> StartsRun(signs, s[j].line) {
      RunStartAt(signs, s, j);
    }
    forall l | StartsRun(signs, l) ensures exists j :: 0 <= j < |s| && s[j].line == l {
      var x :| x in signs && x.line == l && IsProblem(x.kind);
      assert x in s;
      var j :| 0 <= j < |s| && s[j] == x;
    }
  }

  /** One position of RunStartsInSorted. */
  lemma RunStartAt(signs: seq<Sign>, s: seq<Sign>, j: int)
    requires StrictLines(s) && forall x :: x in s <==> x in signs
    requires 0 <= j < |s|
    ensures RunStart(s, j) <==> StartsRun(signs, s[j].line)
  {
    var l := s[j].line;
    assert s[j] in signs;
    assert (exists x :: x in signs && x.line == l && IsProblem(x.kind)) <==> IsProblem(s[j].kind) by {
      if x :| x in signs && x.line == l && IsProblem(x.kind) {
        var k :| 0 <= k < |s| && s[k] == x;
        assert k == j;
      }
    }
    ProblemBeforeAt(signs, s, j);
  }

  /** On a strictly line-sorted permutation, a problem sign just below line s[j] is the left neighbour. */
  lemma ProblemBeforeAt(signs: seq<Sign>, s: seq<Sign>, j: int)
    requires StrictLines(s) && forall x :: x in s <==> x in signs
    requires 0 <= j < |s|
    ensures ProblemBefore(signs, s[j].line) <==> j > 0 && IsProblem(s[j - 1].kind)
  {
    var l := s[j].line;
    if j > 0 && IsProblem(s[j - 1].kind) {
      var y := s[j - 1];
      assert y in signs;
      forall z | z in signs ensures !(y.line < z.line < l) {
        var m :| 0 <= m < |s| && s[m] == z;
      }
      assert ProblemBefore(signs, l);
    }
    if ProblemBefore(signs, l) {
      var y :| y in signs && y.line < l && IsProblem(y.kind) &&
        forall z | z in signs :: !(y.line < z.line < l);
      var k :| 0 <= k < |s| && s[k] == y;
      assert k < j;
      assert k == j - 1;
    }
  }

  /** Two ascending lists with the same elements are the same list. */
  lemma {:induction false} AscendingUnique(a: seq<int>, b: seq<int>)
    requires StrictlyAscending(a) && StrictlyAscending(b)
    requires forall l :: l in a <==> l in b
    ensures a == b
  {
    assert a != [] ==> a[0] in a;
    assert b != [] ==> b[0] in b;
    if a != [] && b != [] {
      assert a[0] in a;
      assert a[0] in b;
      assert b != [];
      assert b[0] in b;
      assert b[0] in a;
      assert a[0] == b[0];
      forall l ensures l in a[1..] <==> l in b[1..] {
        if l in a[1..] {
          assert l in a && l != a[0];
          assert l in b;
          assert l in b[1..] by { assert b == [b[0]] + b[1..]; }
        }
        if l in b[1..] {
          assert l in b && l != b[0];
          assert l in a;
          assert l in a[1..] by { assert a == [a[0]] + a[1..]; }
        }
      }
      AscendingUnique(a[1..], b[1..]);
      assert a == [a[0]] + a[1..];
      assert b == [b[0]] + b[1..];
    }
  }

  /** The problem index of a set of signs is unique, so storing it again stores the same list. */
  lemma ProblemIndexUnique(signs: seq<Sign>, a: seq<int>, b: seq<int>)
    requires IsProblemIndex(signs, a) && IsProblemIndex(signs, b)
    ensures a == b
  {
    AscendingUnique(a, b);
  }

  /** Lines of the run starts among the first n signs of s, in order. */
  function RunStartLines(s: seq<Sign>, n: nat): (r: seq<int>)
    requires n <= |s|
    ensures |r| <= n
  {
    if n == 0 then []
    else RunStartLines(s, n - 1) + (if RunStart(s, n - 1) then [s[n - 1].line] else [])
  }

  lemma {:induction false} RunStartLinesMembers(s: seq<Sign>, n: nat)
    requires n <= |s|
    ensures forall l :: l in RunStartLines(s, n) <==> exists j :: 0 <= j < n && RunStart(s, j) && s[j].line == l
  {
    if n > 0 {
      RunStartLinesMembers(s, n - 1);
    }
  }

  lemma {:induction false} RunStartLinesAscending(s: seq<Sign>, n: nat)
    requires n <= |s| && StrictLines(s)
    ensures StrictlyAscending(RunStartLines(s, n))
    ensures n < |s| ==> forall k | 0 <= k < |RunStartLines(s, n)| :: RunStartLines(s, n)[k] < s[n].line
  {
    if n > 0 {
      RunStartLinesAscending(s, n - 1);
      RunStartLinesMembers(s, n - 1);
      var r := RunStartLines(s, n);
      forall k | 0 <= k < |r| && n < |s|
        ensures r[k] < s[n].line
      {
        assert r[k] in r;
        RunStartLinesMembers(s, n);
      }
    }
  }

  /**
   * `_store_signs`: sorts the signs by line and records the first line of
   * every run of problem signs, tracking with `in_covered_range` whether the
   * previous sign was a problem.
   */
  method ProblemLines(signs: seq<Sign>) returns (problems: seq<int>)
    requires DistinctLines(signs)
    ensures IsProblemIndex(signs, problems)
  {
    var sorted := SortByLine(signs);
    SortStrict(signs);
    problems := [];
    var inCoveredRange := true;
    var i := 0;
    while i < |sorted|
      invariant 0 <= i <= |sorted|
      invariant inCoveredRange == (i == 0 || !IsProblem(sorted[i - 1].kind))
      invariant problems == RunStartLines(sorted, i)
    {
      var sign := sorted[i];
      if IsProblem(sign.kind) {
        if inCoveredRange {
          problems := problems + [sign.line];
          inCoveredRange := false;
        }
      } else {
        inCoveredRange := true;
      }
      i := i + 1;
    }
    RunStartLinesAscending(sorted, |sorted|);
    RunStartLinesMembers(sorted, |sorted|);
    IndexOfRunStarts(signs, sorted, problems);
  }

  /** Collecting the lines of the run starts of a sorted copy gives the problem index. */
  lemma IndexOfRunStarts(signs: seq<Sign>, sorted: seq<Sign>, problems: seq<int>)
    requires StrictLines(sorted) && multiset(sorted) == multiset(signs)
    requires StrictlyAscending(problems)
    requires forall l :: l in problems <==> exists j :: 0 <= j < |sorted| && RunStart(sorted, j) && sorted[j].line == l
    ensures IsProblemIndex(signs, problems)
  {
    RunStartsInSorted(signs, sorted);
    forall l ensures l in problems <==> StartsRun(signs, l) {
      if StartsRun(signs, l) {
        var j :| 0 <= j < |sorted| && sorted[j].line == l;
        assert RunStart(sorted, j);
      }
    }
  }
}
