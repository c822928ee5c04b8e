/** The borrow protocol as a state machine: every transaction of the store, the executor call
    between insert and resolve, and process restarts, in any order. The trace records what
    happened; it is never read by a step. */
module BorrowProtocol {
  import opened Options
  import BorrowDomain
  import opened BorrowStore
  import opened BorrowLog

  /** The one dispatch that can be under way: insert, then executor call, then resolve. */
  datatype Flight = Flight(id: nat, t: TaskId, dispatchedAt: int, called: bool)

  /** An edit request between its check and its versioned write. */
  datatype EditRequest = EditRequest(
    id: TaskId, amount: string, target: int, expected: int, seenVersion: int, seenCount: int)

  /** What happened. An insert records the task row it was made for; a result the end of the
      cooldown it asks for. */
  datatype Event =
    | Inserted(id: nat, t: TaskId, live: bool, dispatchedAt: int, task: Task)
    | Called(id: nat, live: bool)
    | Recorded(t: TaskId, row: Attempt, banned: bool, limit: Option<int>)
    | OrphansRecorded(rows: seq<Attempt>)
    | LogsCleared
    | Started(now: int, cooldown: Option<int>)
    | Stopped

  /** `gap` bounds how far a client's edit version may run ahead of the row it is checked against. */
  datatype World = World(
    db: Tables, live: bool, flight: Option<Flight>, edits: seq<EditRequest>, gap: int, trace: seq<Event>)

  datatype Step =
    | Create(id: TaskId, asset: string, amount: string, target: int)
    | WriteStatus(id: TaskId, status: TaskStatus, authorize: Option<bool>)
    | CheckEdit(id: TaskId, amount: string, target: int, expected: int)
    | WriteEdit(k: nat)
    | ClearLog
    | PutInterval(text: string)
    | PressStart(now: int)
    | PressStop
    | Insert(t: TaskId, asset: string, amount: string, scheduledAt: int, dispatchedAt: int)
    | Call
    | Finish(result: ExecutorResult, finishedAt: int)
    | LoseResult
    | Restart(now: int, live: bool)

  function Fresh(live: bool, gap: int): World {
    World(EMPTY, live, None, [], gap, [])
  }

  function WithDb(w: World, db: Option<Tables>): World {
    if db.Some? then w.(db := db.value) else w
  }

  function RestartDb(w: World, now: int, live: bool): World {
    w.(db := Recover(w.db, now), live := live, flight := None,
       trace := w.trace + [OrphansRecorded(PendingAsOrphans(w.db.attempts, now))])
  }

  /** The rows recovery finalizes, as finalized, in id order. */
  function PendingAsOrphans(attempts: seq<Attempt>, now: int): seq<Attempt> {
    if attempts == [] then []
    else
      var n := |attempts| - 1;
      var rest := PendingAsOrphans(attempts[..n], now);
      if attempts[n].outcome == Pending then rest + [Orphaned(attempts[n], now)] else rest
  }

  function InsertDb(w: World, t: TaskId, asset: string, amount: string, scheduledAt: int, dispatchedAt: int): World {
    var after := InsertPending(w.db, t, asset, amount, scheduledAt, dispatchedAt, t, w.live);
    if after.None? || w.flight.Some? then w
    else w.(db := after.value, flight := Some(Flight(w.db.nextAttemptId, t, dispatchedAt, false)),
            trace := w.trace + [Inserted(w.db.nextAttemptId, t, w.live, dispatchedAt, w.db.tasks[t])])
  }

  /** Only a live executor reports a rate limit; the disabled one makes no call. */
  predicate Possible(live: bool, result: ExecutorResult) {
    live || result.category != RateLimited
  }

  predicate Banned(result: ExecutorResult) {
    result.category == RateLimited && result.httpStatus == Some(418)
  }

  /** The end of the cooldown that a rate-limited result with a retry delay asks for. */
  function LimitOf(result: ExecutorResult, finishedAt: int): Option<int> {
    if result.category == RateLimited && result.retryAfterUs.Some? then Some(finishedAt + result.retryAfterUs.value) else None
  }

  function FinishDb(w: World, result: ExecutorResult, finishedAt: int): World {
    if w.flight.None? || !w.flight.value.called || !Possible(w.live, result) then w
    else
      var id := w.flight.value.id;
      var after := ResolveAttempt(w.db, id, result, finishedAt);
      if after.None? then w.(flight := None)
      else
        var a := w.db.attempts[IndexOf(w.db.attempts, id).value];
        w.(db := after.value, flight := None,
           trace := w.trace + [Recorded(a.taskId, ResolvedRow(w.db.attempts, a, result, finishedAt), Banned(result),
                                        LimitOf(result, finishedAt))])
  }

  function CheckEditIn(w: World, id: TaskId, amount: string, target: int, expected: int): World {
    if id !in w.db.tasks then w
    else
      var task := w.db.tasks[id];
      if task.status !in {Borrowing, Paused} || target <= task.successCount || expected > task.version + w.gap then w
      else w.(edits := w.edits + [EditRequest(id, amount, target, expected, task.version, task.successCount)])
  }

  function WriteEditIn(w: World, k: nat): World {
    if k >= |w.edits| then w
    else
      var e := w.edits[k];
      WithDb(w, EditTask(w.db, e.id, e.amount, e.target, e.expected)).(edits := w.edits[..k] + w.edits[k + 1..])
  }

  /** A rejected text changes nothing. */
  function PutIntervalIn(w: World, text: string): World {
    var us := BorrowDomain.ParseInterval(text);
    if us.None? then w else w.(db := w.db.(settings := w.db.settings.(intervalUs := us.value)))
  }

  function Apply(w: World, step: Step): World {
    match step
    case Create(id, asset, amount, target) => if target < 1 then w else WithDb(w, CreateTask(w.db, id, asset, amount, target))
    case WriteStatus(id, status, authorize) => WithDb(w, SetTaskStatus(w.db, id, status, authorize))
    case CheckEdit(id, amount, target, expected) => CheckEditIn(w, id, amount, target, expected)
    case WriteEdit(k) => WriteEditIn(w, k)
    case ClearLog => w.(db := ClearLogs(w.db), trace := w.trace + [LogsCleared])
    case PutInterval(text) => PutIntervalIn(w, text)
    case PressStart(now) => w.(db := w.db.(settings := SetExecutionEnabled(w.db.settings, true, now)),
                               trace := w.trace + [Started(now, w.db.settings.cooldownUntil)])
    case PressStop => w.(db := w.db.(settings := SetExecutionEnabled(w.db.settings, false, 0)), trace := w.trace + [Stopped])
    case Insert(t, asset, amount, scheduledAt, dispatchedAt) => InsertDb(w, t, asset, amount, scheduledAt, dispatchedAt)
    case Call => if w.flight.None? || w.flight.value.called then w
                 else w.(flight := Some(w.flight.value.(called := true)),
                         trace := w.trace + [Called(w.flight.value.id, w.live)])
    case Finish(result, finishedAt) => FinishDb(w, result, finishedAt)
    case LoseResult => if w.flight.Some? && w.flight.value.called then w.(flight := None) else w
    case Restart(now, live) => RestartDb(w, now, live)
  }

  // ------------------------------------------------------- structural invariant

  /** Rows are in id order below the counter; per task, sequence numbers rise with the id and
      only the newest row can still be pending. */
  ghost predicate Ordered(attempts: seq<Attempt>, next: nat) {
    && (forall i | 0 <= i < |attempts| :: attempts[i].id < next)
    && (forall i, j | 0 <= i < j < |attempts| :: attempts[i].id < attempts[j].id)
    && (forall i, j | 0 <= i < j < |attempts| && attempts[i].taskId == attempts[j].taskId ::
          attempts[i].outcome == Resolved && attempts[i].sequence < attempts[j].sequence)
  }

  ghost predicate PendingOf(attempts: seq<Attempt>, id: nat, t: TaskId) {
    exists a | a in attempts :: a.id == id && a.taskId == t && a.outcome == Pending
  }

  /** In-flight markers and pending rows name each other, task by task. */
  ghost predicate Marked(attempts: seq<Attempt>, tasks: map<TaskId, Task>) {
    && (forall a | a in attempts :: a.taskId in tasks)
    && (forall a | a in attempts && a.outcome == Pending :: a.taskId in tasks && tasks[a.taskId].unresolved == Some(a.id))
    && (forall t | t in tasks && tasks[t].unresolved.Some? :: PendingOf(attempts, tasks[t].unresolved.value, t))
  }

  ghost predicate FlightMarked(w: World) {
    w.flight.Some? ==>
      var f := w.flight.value;
      && f.t in w.db.tasks && w.db.tasks[f.t].unresolved == Some(f.id)
      && (forall a | a in w.db.attempts && a.id == f.id :: a.dispatchedAt == Some(f.dispatchedAt))
  }

  ghost predicate Structured(w: World) {
    && RowsPresent(w.db)
    && Ordered(w.db.attempts, w.db.nextAttemptId)
    && Marked(w.db.attempts, w.db.tasks)
    && FlightMarked(w)
  }

  lemma FreshStructured(live: bool, gap: int)
    ensures Structured(Fresh(live, gap))
  {
  }

  lemma InsertOrdered(attempts: seq<Attempt>, next: nat, row: Attempt)
    requires Ordered(attempts, next) && row.id == next && row.sequence == MaxSequence(attempts, row.taskId) + 1
    requires forall a | a in attempts && a.taskId == row.taskId :: a.outcome == Resolved
    ensures Ordered(attempts + [row], next + 1)
  {
    MaxSequenceIsMax(attempts, row.taskId);
    forall i | 0 <= i < |attempts| && attempts[i].taskId == row.taskId ensures attempts[i].outcome == Resolved {
      assert attempts[i] in attempts;
    }
  }

  lemma InsertMarked(attempts: seq<Attempt>, tasks: map<TaskId, Task>, row: Attempt, task: Task)
    requires Marked(attempts, tasks) && row.taskId in tasks && tasks[row.taskId].unresolved.None?
    requires task.unresolved == Some(row.id) && row.outcome == Pending
    ensures Marked(attempts + [row], tasks[row.taskId := task])
  {
    var rows, tasks' := attempts + [row], tasks[row.taskId := task];
    assert row in rows;
    forall u | u in tasks' && tasks'[u].unresolved.Some? ensures PendingOf(rows, tasks'[u].unresolved.value, u) {
      if u != row.taskId {
        var a :| a in attempts && a.id == tasks[u].unresolved.value && a.taskId == u && a.outcome == Pending;
        assert a in rows;
      }
    }
  }

  lemma InsertStructured(w: World, t: TaskId, asset: string, amount: string, scheduledAt: int, dispatchedAt: int)
    requires Structured(w)
    ensures Structured(InsertDb(w, t, asset, amount, scheduledAt, dispatchedAt))
  {
    var w' := InsertDb(w, t, asset, amount, scheduledAt, dispatchedAt);
    if w' != w {
      var row := NewAttempt(w.db, t, asset, amount, scheduledAt, dispatchedAt);
      InsertOrdered(w.db.attempts, w.db.nextAttemptId, row);
      InsertMarked(w.db.attempts, w.db.tasks, row, w'.db.tasks[t]);
      forall a | a in w.db.attempts ensures a.id != row.id {
        var k :| 0 <= k < |w.db.attempts| && w.db.attempts[k] == a;
      }
    }
  }

  /** The flight names the task's one pending row, and no row of the task follows it. */
  lemma FlightRow(w: World) returns (i: nat)
    requires Structured(w) && w.flight.Some?
    ensures i < |w.db.attempts| && IndexOf(w.db.attempts, w.flight.value.id) == Some(i)
    ensures
      var a := w.db.attempts[i];
      a.taskId == w.flight.value.t && a.outcome == Pending && a.id == w.flight.value.id
    ensures forall k | i < k < |w.db.attempts| :: w.db.attempts[k].taskId != w.flight.value.t
  {
    var f := w.flight.value;
    var a :| a in w.db.attempts && a.id == f.id && a.taskId == f.t && a.outcome == Pending;
    var at := IndexOf(w.db.attempts, f.id);
    i := at.value;
    var k :| 0 <= k < |w.db.attempts| && w.db.attempts[k] == a;
    assert k == i;
  }

  lemma OrderedUpdate(attempts: seq<Attempt>, next: nat, i: nat, a: Attempt)
    requires Ordered(attempts, next) && i < |attempts|
    requires a.id == attempts[i].id && a.taskId == attempts[i].taskId && a.sequence == attempts[i].sequence
    requires a.outcome == Resolved
    ensures Ordered(attempts[i := a], next)
  {
  }

  lemma OrderedWithout(attempts: seq<Attempt>, next: nat, i: nat)
    requires Ordered(attempts, next) && i < |attempts|
    ensures Ordered(Without(attempts, i), next)
    ensures forall a :: a in Without(attempts, i) <==> a in attempts && a != attempts[i]
  {
    var r := Without(attempts, i);
    forall k | 0 <= k < |r| ensures r[k] == attempts[if k < i then k else k + 1] {}
    forall a | a in attempts && a != attempts[i] ensures a in r {
      var k :| 0 <= k < |attempts| && attempts[k] == a;
      assert r[if k < i then k else k - 1] == a;
    }
  }

  /** A row other than the pending one of `t` keeps its place among the marked rows. */
  lemma MarkedAfterRelease(attempts: seq<Attempt>, attempts': seq<Attempt>, tasks: map<TaskId, Task>,
                           tasks': map<TaskId, Task>, t: TaskId)
    requires Marked(attempts, tasks) && t in tasks
    requires tasks'.Keys == tasks.Keys && tasks'[t].unresolved.None?
    requires forall u | u in tasks && u != t :: tasks'[u] == tasks[u]
    requires forall a | a in attempts' :: a.taskId in tasks
    requires forall a | a in attempts' && a.outcome == Pending :: a in attempts && a.taskId != t
    requires forall a | a in attempts && a.outcome == Pending && a.taskId != t :: a in attempts'
    ensures Marked(attempts', tasks')
  {
    forall u | u in tasks' && tasks'[u].unresolved.Some? ensures PendingOf(attempts', tasks'[u].unresolved.value, u) {
      var a :| a in attempts && a.id == tasks[u].unresolved.value && a.taskId == u && a.outcome == Pending;
      assert a in attempts';
    }
  }

  lemma FoldedRows(w: World, i: nat, j: nat, kept: Attempt)
    requires Structured(w) && w.flight.Some?
    requires j < i < |w.db.attempts| && w.db.attempts[i].outcome == Pending
    requires w.db.attempts[j].outcome == Resolved
    requires kept == w.db.attempts[j].(finishedAt := kept.finishedAt, latencyMs := kept.latencyMs)
    ensures
      var rows := Without(w.db.attempts[j := kept], i);
      && Ordered(rows, w.db.nextAttemptId)
      && (forall a | a in rows :: a == kept || (a in w.db.attempts && a != w.db.attempts[i]))
      && (forall a | a in w.db.attempts && a.outcome == Pending && a != w.db.attempts[i] :: a in rows)
  {
    var rows := w.db.attempts[j := kept];
    OrderedUpdate(w.db.attempts, w.db.nextAttemptId, j, kept);
    OrderedWithout(rows, w.db.nextAttemptId, i);
    forall a | a in w.db.attempts && a.outcome == Pending && a != w.db.attempts[i] ensures a in rows {
      var k :| 0 <= k < |w.db.attempts| && w.db.attempts[k] == a;
      assert rows[k] == a;
    }
  }

  lemma FoldStructured(w: World, i: nat, j: nat, kept: Attempt, task: Task)
    requires Structured(w) && w.flight.Some?
    requires j < i < |w.db.attempts| && w.db.attempts[i].outcome == Pending && w.db.attempts[j].outcome == Resolved
    requires w.db.attempts[i].taskId == w.flight.value.t && task.unresolved.None?
    requires kept == w.db.attempts[j].(finishedAt := kept.finishedAt, latencyMs := kept.latencyMs)
    ensures
      var rows := Without(w.db.attempts[j := kept], i);
      Ordered(rows, w.db.nextAttemptId) && Marked(rows, w.db.tasks[w.flight.value.t := task])
  {
    var t := w.flight.value.t;
    FoldedRows(w, i, j, kept);
    assert w.db.attempts[j] in w.db.attempts && w.db.attempts[i] in w.db.attempts;
    MarkedAfterRelease(w.db.attempts, Without(w.db.attempts[j := kept], i), w.db.tasks, w.db.tasks[t := task], t);
  }

  lemma KeepStructured(w: World, i: nat, row: Attempt, task: Task)
    requires Structured(w) && w.flight.Some?
    requires i < |w.db.attempts| && w.db.attempts[i].outcome == Pending
    requires w.db.attempts[i].taskId == w.flight.value.t && task.unresolved.None?
    requires row.id == w.db.attempts[i].id && row.taskId == w.flight.value.t
    requires row.sequence == w.db.attempts[i].sequence && row.outcome == Resolved
    ensures
      var rows := w.db.attempts[i := row];
      Ordered(rows, w.db.nextAttemptId) && Marked(rows, w.db.tasks[w.flight.value.t := task])
  {
    var t := w.flight.value.t;
    var rows := w.db.attempts[i := row];
    OrderedUpdate(w.db.attempts, w.db.nextAttemptId, i, row);
    assert w.db.attempts[i] in w.db.attempts;
    forall b | b in w.db.attempts && b.outcome == Pending && b.taskId != t ensures b in rows {
      var k :| 0 <= k < |w.db.attempts| && w.db.attempts[k] == b;
      assert rows[k] == b;
    }
    MarkedAfterRelease(w.db.attempts, rows, w.db.tasks, w.db.tasks[t := task], t);
  }

  /** The structure of a world whose flight has just ended. */
  lemma Landed(w: World, w': World, t: TaskId, task: Task)
    requires Structured(w) && t in w.db.tasks
    requires w'.db.tasks == w.db.tasks[t := task] && w'.db.order == w.db.order && w'.flight.None?
    requires Ordered(w'.db.attempts, w'.db.nextAttemptId) && Marked(w'.db.attempts, w'.db.tasks)
    ensures Structured(w')
  {
  }

  lemma FinishStructured(w: World, result: ExecutorResult, finishedAt: int)
    requires Structured(w)
    ensures Structured(FinishDb(w, result, finishedAt))
  {
    if w.flight.Some? && w.flight.value.called && Possible(w.live, result) {
      var t := w.flight.value.t;
      var i := FlightRow(w);
      var a := w.db.attempts[i];
      var fold := FoldTarget(w.db, a, result);
      var task := TaskAfter(w.db.tasks[t], result, finishedAt, fold.Some?);
      if fold.Some? {
        var kept := w.db.attempts[fold.value].(finishedAt := Some(finishedAt), latencyMs := Latency(a.dispatchedAt, finishedAt));
        FoldStructured(w, i, fold.value, kept, task);
      } else {
        KeepStructured(w, i, ResolvedRow(w.db.attempts, a, result, finishedAt), task);
      }
      Landed(w, FinishDb(w, result, finishedAt), t, task);
    }
  }

  lemma {:induction false} KeptOrdered(attempts: seq<Attempt>, next: nat, tasks: map<TaskId, Task>)
    requires Ordered(attempts, next)
    ensures Ordered(KeepReferenced(attempts, tasks), next)
  {
    if attempts != [] {
      var n := |attempts| - 1;
      var rest := KeepReferenced(attempts[..n], tasks);
      KeptOrdered(attempts[..n], next, tasks);
      forall k | 0 <= k < |rest|
        ensures rest[k].id < attempts[n].id
        ensures rest[k].taskId == attempts[n].taskId ==> rest[k].outcome == Resolved && rest[k].sequence < attempts[n].sequence
      {
        KeptRows(attempts[..n], tasks, rest[k]);
      }
    }
  }

  lemma ClearStructured(w: World)
    requires Structured(w)
    ensures Structured(Apply(w, ClearLog))
  {
    var rows := KeepReferenced(w.db.attempts, w.db.tasks);
    KeptOrdered(w.db.attempts, w.db.nextAttemptId, w.db.tasks);
    forall t | t in w.db.tasks && w.db.tasks[t].unresolved.Some? ensures PendingOf(rows, w.db.tasks[t].unresolved.value, t) {
      var a :| a in w.db.attempts && a.id == w.db.tasks[t].unresolved.value && a.taskId == t && a.outcome == Pending;
      KeptRows(w.db.attempts, w.db.tasks, a);
    }
    forall a | a in rows ensures a in w.db.attempts {
      KeptRows(w.db.attempts, w.db.tasks, a);
    }
  }

  lemma RecoverMarked(attempts: seq<Attempt>, tasks: map<TaskId, Task>, next: nat, now: int)
    requires Ordered(attempts, next) && Marked(attempts, tasks)
    ensures Ordered(RecoverRows(attempts, now), next)
    ensures Marked(RecoverRows(attempts, now), map t | t in tasks :: tasks[t].(unresolved := None))
  {
    var rows := RecoverRows(attempts, now);
    forall i | 0 <= i < |rows| ensures rows[i].taskId in tasks && rows[i].outcome == Resolved {
      assert attempts[i] in attempts;
    }
  }

  lemma RestartStructured(w: World, now: int, live: bool)
    requires Structured(w)
    ensures Structured(RestartDb(w, now, live))
  {
    RecoverMarked(w.db.attempts, w.db.tasks, w.db.nextAttemptId, now);
  }

  /** Writing task columns other than the marker keeps the structure. */
  lemma TaskWriteStructured(w: World, tasks: map<TaskId, Task>)
    requires Structured(w)
    requires tasks.Keys == w.db.tasks.Keys
    requires forall t | t in tasks :: tasks[t].unresolved == w.db.tasks[t].unresolved
    ensures Structured(w.(db := w.db.(tasks := tasks)))
  {
  }

  lemma CreateStructured(w: World, id: TaskId, asset: string, amount: string, target: int)
    requires Structured(w)
    ensures Structured(Apply(w, Create(id, asset, amount, target)))
  {
    var w' := Apply(w, Create(id, asset, amount, target));
    if w' != w {
      forall t ensures t in w'.db.order <==> t in w'.db.tasks {
        assert t in w'.db.order <==> t in w.db.order || t == id;
      }
    }
  }

  lemma {:induction false} StepStructured(w: World, step: Step)
    requires Structured(w)
    ensures Structured(Apply(w, step))
  {
    match step
    case Create(id, asset, amount, target) => CreateStructured(w, id, asset, amount, target);
    case WriteStatus(id, status, authorize) =>
      if id in w.db.tasks {
        TaskWriteStructured(w, SetTaskStatus(w.db, id, status, authorize).value.tasks);
      }
    case CheckEdit(id, amount, target, expected) =>
    case WriteEdit(k) =>
      if k < |w.edits| {
        var e := w.edits[k];
        var after := EditTask(w.db, e.id, e.amount, e.target, e.expected);
        if after.Some? {
          TaskWriteStructured(w, after.value.tasks);
        }
      }
    case ClearLog => ClearStructured(w);
    case PutInterval(text) =>
    case PressStart(now) =>
    case PressStop =>
    case Insert(t, asset, amount, scheduledAt, dispatchedAt) => InsertStructured(w, t, asset, amount, scheduledAt, dispatchedAt);
    case Call =>
    case Finish(result, finishedAt) => FinishStructured(w, result, finishedAt);
    case LoseResult =>
    case Restart(now, live) => RestartStructured(w, now, live);
  }

  // ---------------------------------------------------------------------- runs

  /** The world after any sequence of steps; a step that is not enabled changes nothing. */
  function Run(w: World, steps: seq<Step>): World {
    if steps == [] then w else Apply(Run(w, steps[..|steps| - 1]), steps[|steps| - 1])
  }

  lemma RunSnoc(w: World, steps: seq<Step>, step: Step)
    ensures Run(w, steps + [step]) == Apply(Run(w, steps), step)
  {
    assert (steps + [step])[..|steps|] == steps;
  }

  lemma {:induction false} RunStructured(live: bool, gap: int, steps: seq<Step>)
    ensures Structured(Run(Fresh(live, gap), steps))
  {
    if steps != [] {
      var n := |steps| - 1;
      RunStructured(live, gap, steps[..n]);
      StepStructured(Run(Fresh(live, gap), steps[..n]), steps[n]);
    }
  }
}
