/** What the shown log means: the full history of a task's results, with every maximal run of
    adjacent equal coalesceable failures collapsed into one line. */
module BorrowLog {
  import opened Options
  import opened BorrowStore

  /** Two adjacent results that share one log line. */
  predicate Joins(a: Attempt, b: Attempt) {
    && a.category.Some? && Coalesceable(a.category.value)
    && b.category == a.category && b.reason == a.reason && b.businessCode == a.businessCode
  }

  /** Length of the maximal joined run that `h` starts with. */
  function RunLength(h: seq<Attempt>): (n: nat)
    requires h != []
    ensures 1 <= n <= |h|
  {
    if |h| > 1 && Joins(h[0], h[1]) then 1 + RunLength(h[1..]) else 1
  }

  /** The run is joined throughout and cannot be extended. */
  lemma {:induction false} RunIsMaximal(h: seq<Attempt>, k: nat)
    requires h != [] && k + 1 < |h|
    ensures k + 1 < RunLength(h) ==> Joins(h[k], h[k + 1])
    ensures k + 1 == RunLength(h) ==> !Joins(h[k], h[k + 1])
  {
    if k > 0 && Joins(h[0], h[1]) {
      RunIsMaximal(h[1..], k - 1);
    }
  }

  /** The first row of a run, carrying the finish time and latency of its last row. */
  function Merged(first: Attempt, last: Attempt): Attempt {
    first.(finishedAt := last.finishedAt, latencyMs := last.latencyMs)
  }

  function Collapse(h: seq<Attempt>): (r: seq<Attempt>)
    ensures h != [] ==> r != []
  {
    if h == [] then []
    else
      var n := RunLength(h);
      [Merged(h[0], h[n - 1])] + Collapse(h[n..])
  }

  lemma RunLengthSnoc(h: seq<Attempt>, e: Attempt)
    requires h != []
    ensures RunLength(h) < |h| ==> RunLength(h + [e]) == RunLength(h)
    ensures RunLength(h) == |h| ==>
      RunLength(h + [e]) == if Joins(h[|h| - 1], e) then |h| + 1 else |h|
  {
    if |h| > 1 {
      assert (h + [e])[1..] == h[1..] + [e];
      RunLengthSnoc(h[1..], e);
    } else {
      assert (h + [e])[1..] == [e];
    }
  }

  /** The line at the end of the collapsed log speaks for the newest result. */
  lemma {:induction false} CollapseLast(h: seq<Attempt>)
    requires h != []
    ensures var c := Collapse(h)[|Collapse(h)| - 1];
      && c.category == h[|h| - 1].category && c.reason == h[|h| - 1].reason
      && c.businessCode == h[|h| - 1].businessCode
  {
    var n := RunLength(h);
    SameSignature(h, n - 1);
    if n < |h| {
      CollapseLast(h[n..]);
    }
  }

  lemma {:induction false} SameSignature(h: seq<Attempt>, k: nat)
    requires h != [] && k < RunLength(h)
    ensures h[k].category == h[0].category && h[k].reason == h[0].reason && h[k].businessCode == h[0].businessCode
  {
    if k > 0 {
      SameSignature(h, k - 1);
      RunIsMaximal(h, k - 1);
    }
  }

  /** A history that is one single run collapses to one line. */
  lemma {:induction false} CollapseOneRun(h: seq<Attempt>)
    requires h != [] && RunLength(h) == |h|
    ensures Collapse(h) == [Merged(h[0], h[|h| - 1])]
  {
    assert h[|h|..] == [];
  }

  /** A log with one more result: the last line's finish rewritten, or a line added. */
  function Extend(c: seq<Attempt>, joins: bool, e: Attempt): seq<Attempt> {
    if joins && c != [] then c[..|c| - 1] + [Merged(c[|c| - 1], e)] else c + [e]
  }

  /** Rewriting or extending the end of a log does not touch a line put in front of it. */
  lemma {:induction false} Prepended(x: Attempt, c: seq<Attempt>, joins: bool, e: Attempt)
    requires c != []
    ensures [x] + Extend(c, joins, e) == Extend([x] + c, joins, e)
  {
  }

  lemma {:induction false} ExtendOneRun(h: seq<Attempt>, e: Attempt)
    requires h != [] && RunLength(h) == |h|
    ensures Collapse(h + [e]) == Extend(Collapse(h), Joins(h[|h| - 1], e), e)
  {
    CollapseOneRun(h);
    RunLengthSnoc(h, e);
    if Joins(h[|h| - 1], e) {
      CollapseOneRun(h + [e]);
    } else {
      assert (h + [e])[|h|..] == [e];
      CollapseOneRun([e]);
    }
  }

  lemma {:induction false} FirstRun(h: seq<Attempt>, e: Attempt)
    requires h != [] && RunLength(h) < |h|
    ensures
      var n := RunLength(h);
      var line := Merged(h[0], h[n - 1]);
      Collapse(h) == [line] + Collapse(h[n..]) && Collapse(h + [e]) == [line] + Collapse(h[n..] + [e])
  {
    RunLengthSnoc(h, e);
    assert (h + [e])[RunLength(h)..] == h[RunLength(h)..] + [e];
  }

  /** Appending one result either rewrites the last line's finish or adds a line. */
  lemma {:induction false} CollapseSnoc(h: seq<Attempt>, e: Attempt)
    ensures Collapse(h + [e]) == Extend(Collapse(h), h != [] && Joins(h[|h| - 1], e), e)
  {
    if h == [] {
      assert h + [e] == [e];
      CollapseOneRun([e]);
    } else if RunLength(h) < |h| {
      var rest := h[RunLength(h)..];
      FirstRun(h, e);
      CollapseSnoc(rest, e);
      Prepended(Merged(h[0], h[RunLength(h) - 1]), Collapse(rest), Joins(h[|h| - 1], e), e);
    } else {
      ExtendOneRun(h, e);
    }
  }

  // ------------------------------------------------------------ rows of one task

  /** The task's resolved rows, in id order: what the log page shows for it. */
  function Shown(rows: seq<Attempt>, t: TaskId): seq<Attempt> {
    if rows == [] then []
    else
      var n := |rows| - 1;
      if ResolvedFor(rows[n], t) then Shown(rows[..n], t) + [rows[n]] else Shown(rows[..n], t)
  }

  lemma ShownIn(rows: seq<Attempt>, t: TaskId, a: Attempt)
    ensures a in Shown(rows, t) <==> a in rows && ResolvedFor(a, t)
  {
    if rows != [] {
      ShownIn(rows[..|rows| - 1], t, a);
      assert rows == rows[..|rows| - 1] + [rows[|rows| - 1]];
    }
  }

  lemma ShownSnoc(rows: seq<Attempt>, a: Attempt, t: TaskId)
    ensures Shown(rows + [a], t) == if ResolvedFor(a, t) then Shown(rows, t) + [a] else Shown(rows, t)
  {
    assert (rows + [a])[..|rows|] == rows;
  }

  lemma {:induction false} ShownConcat(a: seq<Attempt>, b: seq<Attempt>, t: TaskId)
    ensures Shown(a + b, t) == Shown(a, t) + Shown(b, t)
  {
    if b == [] {
      assert a + b == a;
    } else {
      var n := |b| - 1;
      assert (a + b)[..|a + b| - 1] == a + b[..n];
      ShownConcat(a, b[..n], t);
    }
  }

  lemma ShownNone(rows: seq<Attempt>, t: TaskId)
    requires forall a | a in rows :: !ResolvedFor(a, t)
    ensures Shown(rows, t) == []
  {
  }

  /** Rewriting one row, seen through the rows of a task. */
  lemma ShownUpdate(rows: seq<Attempt>, i: nat, a: Attempt, t: TaskId)
    requires i < |rows|
    ensures Shown(rows[i := a], t) ==
      Shown(rows[..i], t) + (if ResolvedFor(a, t) then [a] else []) + Shown(rows[i + 1..], t)
    ensures Shown(rows, t) ==
      Shown(rows[..i], t) + (if ResolvedFor(rows[i], t) then [rows[i]] else []) + Shown(rows[i + 1..], t)
  {
    assert rows[i := a] == (rows[..i] + [a]) + rows[i + 1..];
    assert rows == (rows[..i] + [rows[i]]) + rows[i + 1..];
    ShownSnoc(rows[..i], a, t);
    ShownSnoc(rows[..i], rows[i], t);
    ShownConcat(rows[..i] + [a], rows[i + 1..], t);
    ShownConcat(rows[..i] + [rows[i]], rows[i + 1..], t);
  }

  /** Dropping a row that the task does not show. */
  lemma ShownWithout(rows: seq<Attempt>, i: nat, t: TaskId)
    requires i < |rows| && !ResolvedFor(rows[i], t)
    ensures Shown(Without(rows, i), t) == Shown(rows, t)
  {
    ShownUpdate(rows, i, rows[i], t);
    ShownConcat(rows[..i], rows[i + 1..], t);
  }

  /** When nothing shown follows position `i`, the shown row there is the task's last line. */
  lemma ShownLast(rows: seq<Attempt>, i: nat, t: TaskId)
    requires i < |rows| && ResolvedFor(rows[i], t)
    requires forall k | i < k < |rows| :: !ResolvedFor(rows[k], t)
    ensures Shown(rows, t) == Shown(rows[..i], t) + [rows[i]]
  {
    ShownUpdate(rows, i, rows[i], t);
    ShownNone(rows[i + 1..], t);
  }
}
