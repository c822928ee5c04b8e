/** The shown log refines the full history: for every run and every task, the resolved rows are
    the collapsed history of the task's results since its log was last cleared. */
module BorrowLogRefines {
  import opened Options
  import opened BorrowStore
  import opened BorrowLog
  import opened BorrowProtocol

  /** A task's history `h` after one more event. */
  function Extended(h: seq<Attempt>, e: Event, t: TaskId): seq<Attempt> {
    if e.Recorded? then (if e.t == t then h + [e.row] else h)
    else if e.OrphansRecorded? then h + Shown(e.rows, t)
    else if e.LogsCleared? then []
    else h
  }

  /** Every result recorded for the task since the last clear, one full row each. */
  function History(trace: seq<Event>, t: TaskId): seq<Attempt> {
    if trace == [] then [] else Extended(History(trace[..|trace| - 1], t), trace[|trace| - 1], t)
  }

  lemma HistorySnoc(trace: seq<Event>, e: Event, t: TaskId)
    ensures History(trace + [e], t) == Extended(History(trace, t), e, t)
  {
    assert (trace + [e])[..|trace|] == trace;
  }

  ghost predicate LatestAgrees(task: Task, h: seq<Attempt>) {
    h != [] && h[|h| - 1].category.Some? && Coalesceable(h[|h| - 1].category.value) ==>
      && task.latest.Some?
      && h[|h| - 1].category == Some(task.latest.value.category)
      && h[|h| - 1].reason == task.latest.value.reason
      && h[|h| - 1].businessCode == task.latest.value.businessCode
  }

  ghost predicate Logged(w: World, t: TaskId) {
    && Shown(w.db.attempts, t) == Collapse(History(w.trace, t))
    && (t in w.db.tasks ==> LatestAgrees(w.db.tasks[t], History(w.trace, t)))
  }

  lemma {:induction false} NothingLoggedYet(w: World, t: TaskId)
    requires Structured(w) && Logged(w, t) && t !in w.db.tasks
    ensures History(w.trace, t) == []
  {
    ShownNone(w.db.attempts, t);
  }

  /** The log stays when rows shown, history and latest result do. */
  lemma {:induction false} SameLog(w: World, w': World, t: TaskId)
    requires Logged(w, t)
    requires Shown(w'.db.attempts, t) == Shown(w.db.attempts, t) && History(w'.trace, t) == History(w.trace, t)
    requires t in w'.db.tasks ==> t in w.db.tasks && w'.db.tasks[t].latest == w.db.tasks[t].latest
    ensures Logged(w', t)
  {
  }

  lemma {:induction false} InsertLogged(w: World, u: TaskId, asset: string, amount: string, scheduledAt: int, dispatchedAt: int, t: TaskId)
    requires Logged(w, t)
    ensures Logged(InsertDb(w, u, asset, amount, scheduledAt, dispatchedAt), t)
  {
    var w' := InsertDb(w, u, asset, amount, scheduledAt, dispatchedAt);
    if w' != w {
      ShownSnoc(w.db.attempts, NewAttempt(w.db, u, asset, amount, scheduledAt, dispatchedAt), t);
      HistorySnoc(w.trace, Inserted(w.db.nextAttemptId, u, w.live, dispatchedAt, w.db.tasks[u]), t);
      SameLog(w, w', t);
    }
  }

  /** The task's resolved rows before row `i` are all there are. */
  ghost predicate NewestIs(rows: seq<Attempt>, t: TaskId, i: nat) {
    && i < |rows| && rows[i].taskId == t && rows[i].outcome == Pending
    && (forall k | 0 <= k < i :: rows[k].id < rows[i].id)
    && (forall k | i < k < |rows| :: !ResolvedFor(rows[k], t))
  }

  lemma LastLine(rows: seq<Attempt>, t: TaskId, i: nat)
    requires NewestIs(rows, t, i)
    ensures
      var last := LastResolved(rows, t, rows[i].id);
      && (last.None? ==> Shown(rows, t) == [])
      && (last.Some? ==>
            && last.value < i && ResolvedFor(rows[last.value], t)
            && Shown(rows, t) == Shown(rows[..last.value], t) + [rows[last.value]]
            && (forall k | last.value < k < |rows| :: !ResolvedFor(rows[k], t)))
  {
    var last := LastResolved(rows, t, rows[i].id);
    if last.None? {
      forall k | 0 <= k < |rows| ensures !ResolvedFor(rows[k], t) {
        assert rows[k] in rows;
      }
      ShownNone(rows, t);
    } else {
      ShownLast(rows, last.value, t);
    }
  }

  /** A repeated failure folds into the last shown line exactly when the history's last result
      has the same signature. */
  lemma {:induction false} FoldsExactly(w: World, t: TaskId, i: nat, result: ExecutorResult, e: Attempt)
    requires Structured(w) && Logged(w, t) && w.flight.Some? && w.flight.value.t == t
    requires i < |w.db.attempts| && IndexOf(w.db.attempts, w.flight.value.id) == Some(i)
    requires w.db.attempts[i].taskId == t && w.db.attempts[i].outcome == Pending
    requires e.category == Some(result.category) && e.reason == result.reason && e.businessCode == result.businessCode
    ensures
      var h := History(w.trace, t);
      var fold := FoldTarget(w.db, w.db.attempts[i], result);
      && (fold.Some? <==> h != [] && Joins(h[|h| - 1], e))
      && (fold.Some? ==> fold.value < i && ResolvedFor(w.db.attempts[fold.value], t)
                         && Shown(w.db.attempts, t) == Shown(w.db.attempts[..fold.value], t) + [w.db.attempts[fold.value]]
                         && (forall k | fold.value < k < |w.db.attempts| :: !ResolvedFor(w.db.attempts[k], t)))
  {
    assert w.db.attempts[i] in w.db.attempts;
    assert NewestIs(w.db.attempts, t, i);
    LastLine(w.db.attempts, t, i);
    FoldDecision(w.db, t, i, result, e, History(w.trace, t));
  }

  /** The stored summary and the last line decide as the history's last result does. */
  lemma {:induction false} FoldDecision(db: Tables, t: TaskId, i: nat, result: ExecutorResult, e: Attempt, h: seq<Attempt>)
    requires i < |db.attempts| && db.attempts[i].taskId == t && t in db.tasks
    requires LatestAgrees(db.tasks[t], h) && Shown(db.attempts, t) == Collapse(h)
    requires e.category == Some(result.category) && e.reason == result.reason && e.businessCode == result.businessCode
    requires
      var last := LastResolved(db.attempts, t, db.attempts[i].id);
      && (last.None? ==> Shown(db.attempts, t) == [])
      && (last.Some? ==> Shown(db.attempts, t) == Shown(db.attempts[..last.value], t) + [db.attempts[last.value]])
    ensures FoldTarget(db, db.attempts[i], result).Some? <==> h != [] && Joins(h[|h| - 1], e)
  {
    if h != [] {
      CollapseLast(h);
    }
  }

  /** The rows that a resolution leaves show the history with the new result. */
  lemma {:induction false} OwnRows(w: World, result: ExecutorResult, finishedAt: int, t: TaskId, i: nat, e: Attempt)
    requires Structured(w) && Logged(w, t) && w.flight.Some? && w.flight.value.t == t
    requires i < |w.db.attempts| && IndexOf(w.db.attempts, w.flight.value.id) == Some(i)
    requires w.db.attempts[i].taskId == t && w.db.attempts[i].outcome == Pending
    requires forall k | i < k < |w.db.attempts| :: w.db.attempts[k].taskId != t
    requires e == ResolvedRow(w.db.attempts, w.db.attempts[i], result, finishedAt)
    ensures
      var rows := w.db.attempts;
      var fold := FoldTarget(w.db, rows[i], result);
      Collapse(History(w.trace, t) + [e]) ==
        Shown(if fold.Some? then Without(rows[fold.value := Merged(rows[fold.value], e)], i) else rows[i := e], t)
  {
    var fold := FoldTarget(w.db, w.db.attempts[i], result);
    FoldsExactly(w, t, i, result, e);
    if fold.Some? {
      FoldedLog(w.db.attempts, fold.value, i, e, t, History(w.trace, t));
    } else {
      KeptLog(w.db.attempts, i, e, t, History(w.trace, t));
    }
  }

  lemma {:induction false} FinishLoggedOwn(w: World, result: ExecutorResult, finishedAt: int, t: TaskId)
    requires Structured(w) && Logged(w, t) && w.flight.Some? && w.flight.value.t == t
    requires w.flight.value.called && Possible(w.live, result)
    ensures Logged(FinishDb(w, result, finishedAt), t)
  {
    var i := FlightRow(w);
    var e := ResolvedRow(w.db.attempts, w.db.attempts[i], result, finishedAt);
    OwnRows(w, result, finishedAt, t, i, e);
    HistorySnoc(w.trace, Recorded(t, e, Banned(result), LimitOf(result, finishedAt)), t);
  }

  lemma {:induction false} FoldedLog(rows: seq<Attempt>, j: nat, i: nat, e: Attempt, t: TaskId, h: seq<Attempt>)
    requires j < i < |rows| && ResolvedFor(rows[j], t) && !ResolvedFor(rows[i], t)
    requires forall k | j < k < |rows| :: !ResolvedFor(rows[k], t)
    requires Shown(rows, t) == Collapse(h) == Shown(rows[..j], t) + [rows[j]]
    requires h != [] && Joins(h[|h| - 1], e)
    ensures Shown(Without(rows[j := Merged(rows[j], e)], i), t) == Collapse(h + [e])
  {
    FoldShown(rows, j, i, e, t);
    CollapseSnoc(h, e);
  }

  lemma {:induction false} KeptLog(rows: seq<Attempt>, i: nat, e: Attempt, t: TaskId, h: seq<Attempt>)
    requires i < |rows| && !ResolvedFor(rows[i], t) && ResolvedFor(e, t)
    requires forall k | i < k < |rows| :: !ResolvedFor(rows[k], t)
    requires Shown(rows, t) == Collapse(h) && !(h != [] && Joins(h[|h| - 1], e))
    ensures Shown(rows[i := e], t) == Collapse(h + [e])
  {
    KeepShown(rows, i, e, t);
    CollapseSnoc(h, e);
  }

  lemma {:induction false} FoldShown(rows: seq<Attempt>, j: nat, i: nat, e: Attempt, t: TaskId)
    requires j < i < |rows| && ResolvedFor(rows[j], t) && !ResolvedFor(rows[i], t)
    requires forall k | j < k < |rows| :: !ResolvedFor(rows[k], t)
    ensures Shown(Without(rows[j := Merged(rows[j], e)], i), t) == Shown(rows[..j], t) + [Merged(rows[j], e)]
  {
    var rows' := rows[j := Merged(rows[j], e)];
    ShownWithout(rows', i, t);
    ShownLast(rows', j, t);
    assert rows'[..j] == rows[..j];
  }

  lemma {:induction false} KeepShown(rows: seq<Attempt>, i: nat, e: Attempt, t: TaskId)
    requires i < |rows| && !ResolvedFor(rows[i], t) && ResolvedFor(e, t)
    requires forall k | i < k < |rows| :: !ResolvedFor(rows[k], t)
    ensures Shown(rows[i := e], t) == Shown(rows, t) + [e]
  {
    ShownUpdate(rows, i, e, t);
    ShownNone(rows[i + 1..], t);
  }

  lemma {:induction false} FinishLoggedOther(w: World, result: ExecutorResult, finishedAt: int, t: TaskId)
    requires Structured(w) && Logged(w, t) && w.flight.Some? && w.flight.value.t != t
    requires w.flight.value.called && Possible(w.live, result)
    ensures Logged(FinishDb(w, result, finishedAt), t)
  {
    var rows := w.db.attempts;
    var i := FlightRow(w);
    var a := rows[i];
    var e := ResolvedRow(rows, a, result, finishedAt);
    var fold := FoldTarget(w.db, a, result);
    HistorySnoc(w.trace, Recorded(w.flight.value.t, e, Banned(result), LimitOf(result, finishedAt)), t);
    if fold.Some? {
      OthersUnchangedByFold(rows, fold.value, i, Merged(rows[fold.value], e), t);
    } else {
      ShownUpdate(rows, i, e, t);
    }
  }

  lemma {:induction false} OthersUnchangedByFold(rows: seq<Attempt>, j: nat, i: nat, kept: Attempt, t: TaskId)
    requires j < |rows| && i < |rows| && i != j
    requires rows[j].taskId != t && kept.taskId != t && rows[i].taskId != t
    ensures Shown(Without(rows[j := kept], i), t) == Shown(rows, t)
  {
    ShownUpdate(rows, j, kept, t);
    ShownWithout(rows[j := kept], i, t);
  }

  lemma {:induction false} ClearLogged(w: World, t: TaskId)
    requires Structured(w)
    ensures Logged(Apply(w, ClearLog), t)
  {
    var rows := KeepReferenced(w.db.attempts, w.db.tasks);
    HistorySnoc(w.trace, LogsCleared, t);
    forall a | a in rows ensures !ResolvedFor(a, t) {
      KeptRows(w.db.attempts, w.db.tasks, a);
      var u :| u in w.db.tasks && w.db.tasks[u].unresolved == Some(a.id);
      var p :| p in w.db.attempts && p.id == a.id && p.taskId == u && p.outcome == Pending;
    }
    ShownNone(rows, t);
  }

  lemma {:induction false} NoPendingNoOrphan(rows: seq<Attempt>, now: int, t: TaskId)
    requires forall k | 0 <= k < |rows| && rows[k].taskId == t :: rows[k].outcome == Resolved
    ensures Shown(PendingAsOrphans(rows, now), t) == []
  {
    if rows != [] {
      var n := |rows| - 1;
      NoPendingNoOrphan(rows[..n], now, t);
      if rows[n].outcome == Pending {
        ShownSnoc(PendingAsOrphans(rows[..n], now), Orphaned(rows[n], now), t);
      }
    }
  }

  lemma {:induction false} RecoverOther(init: seq<Attempt>, a: Attempt, now: int, t: TaskId)
    requires a.taskId != t
    ensures Shown(RecoverRows(init + [a], now), t) == Shown(RecoverRows(init, now), t)
    ensures Shown(init + [a], t) == Shown(init, t)
    ensures Shown(PendingAsOrphans(init + [a], now), t) == Shown(PendingAsOrphans(init, now), t)
  {
    assert RecoverRows(init + [a], now) == RecoverRows(init, now) + [Orphaned(a, now)];
    ShownSnoc(RecoverRows(init, now), Orphaned(a, now), t);
    ShownSnoc(init, a, t);
    assert (init + [a])[..|init|] == init;
    ShownSnoc(PendingAsOrphans(init, now), Orphaned(a, now), t);
  }

  lemma {:induction false} RecoverOwn(init: seq<Attempt>, a: Attempt, now: int, t: TaskId)
    requires a.taskId == t && Shown(PendingAsOrphans(init, now), t) == []
    ensures Shown(RecoverRows(init + [a], now), t) == Shown(RecoverRows(init, now), t) + [Orphaned(a, now)]
    ensures Shown(init + [a], t) + Shown(PendingAsOrphans(init + [a], now), t) == Shown(init, t) + [Orphaned(a, now)]
  {
    assert RecoverRows(init + [a], now) == RecoverRows(init, now) + [Orphaned(a, now)];
    ShownSnoc(RecoverRows(init, now), Orphaned(a, now), t);
    ShownSnoc(init, a, t);
    assert (init + [a])[..|init|] == init;
    ShownSnoc(PendingAsOrphans(init, now), Orphaned(a, now), t);
    if a.outcome == Pending {
      assert Shown(init + [a], t) == Shown(init, t);
      assert Shown(PendingAsOrphans(init + [a], now), t) == [Orphaned(a, now)];
    } else {
      assert Shown(PendingAsOrphans(init + [a], now), t) == [];
    }
  }

  /** Recovery adds the task's orphan, if any, after everything already shown. */
  lemma {:induction false} RecoverShown(rows: seq<Attempt>, next: nat, now: int, t: TaskId)
    requires Ordered(rows, next)
    ensures Shown(RecoverRows(rows, now), t) == Shown(rows, t) + Shown(PendingAsOrphans(rows, now), t)
  {
    if rows == [] {
      assert RecoverRows(rows, now) == [];
    } else {
      var init, a := rows[..|rows| - 1], rows[|rows| - 1];
      assert rows == init + [a];
      RecoverShown(init, next, now, t);
      if a.taskId == t {
        NoPendingNoOrphan(init, now, t);
        RecoverOwn(init, a, now, t);
      } else {
        RecoverOther(init, a, now, t);
      }
    }
  }

  lemma {:induction false} CollapseUnknowns(h: seq<Attempt>, tail: seq<Attempt>)
    requires forall a | a in tail :: a.category == Some(Unknown)
    ensures Collapse(h + tail) == Collapse(h) + tail
  {
    if tail == [] {
      assert h + tail == h;
    } else {
      var n := |tail| - 1;
      assert h + tail == (h + tail[..n]) + [tail[n]];
      CollapseUnknowns(h, tail[..n]);
      assert tail[n] in tail;
      CollapseSnoc(h + tail[..n], tail[n]);
      assert Collapse(h) + tail == (Collapse(h) + tail[..n]) + [tail[n]];
    }
  }

  lemma OrphansAreUnknown(rows: seq<Attempt>, now: int)
    ensures forall a | a in PendingAsOrphans(rows, now) :: a.category == Some(Unknown)
  {
  }

  /** Orphans of a restart, read as results, each add one line of their own. */
  lemma {:induction false} OrphansAddLines(rows: seq<Attempt>, h: seq<Attempt>, now: int, t: TaskId)
    ensures
      var tail := Shown(PendingAsOrphans(rows, now), t);
      && Collapse(h + tail) == Collapse(h) + tail
      && (tail == [] || tail[|tail| - 1].category == Some(Unknown))
      && (tail == [] ==> h + tail == h)
  {
    var orphans := PendingAsOrphans(rows, now);
    OrphansAreUnknown(rows, now);
    forall a | a in Shown(orphans, t) ensures a.category == Some(Unknown) {
      ShownIn(orphans, t, a);
    }
    CollapseUnknowns(h, Shown(orphans, t));
  }

  /** An unknown result is never folded, so the stored summary need not speak for it. */
  lemma UnknownTailAgrees(task: Task, recovered: Task, h: seq<Attempt>, tail: seq<Attempt>)
    requires LatestAgrees(task, h) && recovered.latest == task.latest
    requires tail == [] || tail[|tail| - 1].category == Some(Unknown)
    requires tail == [] ==> h + tail == h
    ensures LatestAgrees(recovered, h + tail)
  {
    if tail != [] {
      assert (h + tail)[|h + tail| - 1] == tail[|tail| - 1];
    }
  }

  lemma {:induction false} RestartLogged(w: World, now: int, live: bool, t: TaskId)
    requires Structured(w) && Logged(w, t)
    ensures Logged(RestartDb(w, now, live), t)
  {
    var h, tail := History(w.trace, t), Shown(PendingAsOrphans(w.db.attempts, now), t);
    HistorySnoc(w.trace, OrphansRecorded(PendingAsOrphans(w.db.attempts, now)), t);
    OrphansAddLines(w.db.attempts, h, now, t);
    assert Shown(Recover(w.db, now).attempts, t) == Collapse(h + tail) by {
      RecoverShown(w.db.attempts, w.db.nextAttemptId, now, t);
    }
    if t in w.db.tasks {
      UnknownTailAgrees(w.db.tasks[t], Recover(w.db, now).tasks[t], h, tail);
    }
  }

  lemma {:induction false} CreateLogged(w: World, id: TaskId, asset: string, amount: string, target: int, t: TaskId)
    requires Structured(w) && Logged(w, t)
    ensures Logged(Apply(w, Create(id, asset, amount, target)), t)
  {
    if t !in w.db.tasks {
      NothingLoggedYet(w, t);
    }
  }

  lemma {:induction false} FinishLogged(w: World, result: ExecutorResult, finishedAt: int, t: TaskId)
    requires Structured(w) && Logged(w, t)
    ensures Logged(FinishDb(w, result, finishedAt), t)
  {
    if w.flight.Some? && w.flight.value.called && Possible(w.live, result) {
      if w.flight.value.t == t {
        FinishLoggedOwn(w, result, finishedAt, t);
      } else {
        FinishLoggedOther(w, result, finishedAt, t);
      }
    }
  }

  /** Steps that write neither attempt rows nor results keep the log as it is. */
  lemma {:induction false} QuietLogged(w: World, step: Step, t: TaskId)
    requires Logged(w, t)
    requires step.WriteStatus? || step.CheckEdit? || step.WriteEdit? || step.PutInterval? || step.LoseResult?
    ensures Logged(Apply(w, step), t)
  {
    var w' := Apply(w, step);
    assert w'.db.attempts == w.db.attempts && w'.trace == w.trace;
    assert t in w'.db.tasks ==> t in w.db.tasks && w'.db.tasks[t].latest == w.db.tasks[t].latest;
  }

  lemma {:induction false} CallLogged(w: World, t: TaskId)
    requires Logged(w, t)
    ensures Logged(Apply(w, Call), t)
  {
    if w.flight.Some? {
      HistorySnoc(w.trace, Called(w.flight.value.id, w.live), t);
    }
  }

  lemma {:induction false} PressLogged(w: World, step: Step, e: Event, t: TaskId)
    requires Logged(w, t) && (step.PressStart? || step.PressStop?) && (e.Started? || e.Stopped?)
    requires Apply(w, step).trace == w.trace + [e]
    ensures Logged(Apply(w, step), t)
  {
    HistorySnoc(w.trace, e, t);
    SameLog(w, Apply(w, step), t);
  }

  lemma {:induction false} StepLogged(w: World, step: Step, t: TaskId)
    requires Structured(w) && Logged(w, t)
    ensures Logged(Apply(w, step), t)
  {
    match step
    case Create(id, asset, amount, target) => CreateLogged(w, id, asset, amount, target, t);
    case ClearLog => ClearLogged(w, t);
    case PressStart(now) => PressLogged(w, step, Started(now, w.db.settings.cooldownUntil), t);
    case PressStop => PressLogged(w, step, Stopped, t);
    case Insert(u, asset, amount, scheduledAt, dispatchedAt) => InsertLogged(w, u, asset, amount, scheduledAt, dispatchedAt, t);
    case Call => CallLogged(w, t);
    case Finish(result, finishedAt) => FinishLogged(w, result, finishedAt, t);
    case Restart(now, live) => RestartLogged(w, now, live, t);
    case _ => QuietLogged(w, step, t);
  }

  lemma {:induction false} RunLogged(live: bool, gap: int, steps: seq<Step>, t: TaskId)
    ensures Logged(Run(Fresh(live, gap), steps), t)
  {
    if steps != [] {
      var n := |steps| - 1;
      RunLogged(live, gap, steps[..n], t);
      RunStructured(live, gap, steps[..n]);
      StepLogged(Run(Fresh(live, gap), steps[..n]), steps[n], t);
    }
  }

  /** After every run, a task's resolved rows are its history since the last clear with each
      maximal run of equal coalesceable failures collapsed to one line. */
  lemma {:induction false} LogRefinesHistory(live: bool, gap: int, steps: seq<Step>, t: TaskId)
    ensures
      var w := Run(Fresh(live, gap), steps);
      Shown(w.db.attempts, t) == Collapse(History(w.trace, t))
  {
    RunLogged(live, gap, steps, t);
  }
}
