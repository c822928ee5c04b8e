/** The durable borrow-task tables: rows, the queries the store runs on them, the effect of
    every transaction as a function on table values, and the store object whose methods
    perform those transactions in place. One call of a method is one SQL transaction. */
module BorrowStore {
  import opened Options

  type TaskId = string

  datatype TaskStatus = Borrowing | Paused | Deleted | Completed
  datatype Outcome = Pending | Resolved
  datatype Category = Success | KnownRejection | RateLimited | Unknown | ExecutionDisabled

  const CRASH_ORPHAN := "crash_orphan_responseless"
  const DEFAULT_INTERVAL_US := 2_000_000

  datatype ExecutorResult = ExecutorResult(
    category: Category, businessCode: Option<string>, reason: Option<string>,
    httpStatus: Option<int>, tranId: Option<string>, retryAfterUs: Option<int>)

  datatype LatestResult = LatestResult(
    category: Category, businessCode: Option<string>, reason: Option<string>,
    tranId: Option<string>, finishedAt: int)

  datatype Task = Task(
    asset: string, amount: string, successTarget: int, successCount: int, status: TaskStatus,
    version: int, creationSeq: int, liveAuthorized: bool, unresolved: Option<nat>,
    latest: Option<LatestResult>)

  datatype Attempt = Attempt(
    id: nat, taskId: TaskId, asset: string, sequence: int, outcome: Outcome,
    category: Option<Category>, businessCode: Option<string>, reason: Option<string>,
    httpStatus: Option<int>, tranId: Option<string>, requestedAmount: string,
    scheduledAt: int, dispatchedAt: Option<int>, finishedAt: Option<int>,
    latencyMs: Option<int>, effectiveGapUs: Option<int>)

  datatype Settings = Settings(
    intervalUs: int, cursor: Option<TaskId>, cooldownUntil: Option<int>,
    executionEnabled: bool, requiresRearm: bool)

  /** The three tables. `order` lists the task keys in row order, `attempts` holds the attempt
      rows in primary-key order and `nextAttemptId` is the AUTOINCREMENT counter. */
  datatype Tables = Tables(
    order: seq<TaskId>, tasks: map<TaskId, Task>, attempts: seq<Attempt>, nextAttemptId: nat,
    settings: Settings)

  const EMPTY: Tables :=
    Tables([], map[], [], 1, Settings(DEFAULT_INTERVAL_US, None, None, false, false))

  predicate Coalesceable(c: Category) {
    c in {KnownRejection, RateLimited, ExecutionDisabled}
  }

  // ------------------------------------------------------------------ queries

  /** `COALESCE(MAX(creation_seq), 0)` over the task rows named in `order`. */
  function MaxCreationSeq(order: seq<TaskId>, tasks: map<TaskId, Task>): int {
    if order == [] then 0
    else
      var rest := MaxCreationSeq(order[..|order| - 1], tasks);
      var last := order[|order| - 1];
      if last in tasks && tasks[last].creationSeq > rest then tasks[last].creationSeq else rest
  }

  lemma MaxCreationSeqIsMax(order: seq<TaskId>, tasks: map<TaskId, Task>)
    requires forall t | t in order :: t in tasks
    ensures forall i | 0 <= i < |order| :: tasks[order[i]].creationSeq <= MaxCreationSeq(order, tasks)
    ensures MaxCreationSeq(order, tasks) == 0
      || exists i | 0 <= i < |order| :: tasks[order[i]].creationSeq == MaxCreationSeq(order, tasks)
  {
    if order != [] {
      MaxCreationSeqIsMax(order[..|order| - 1], tasks);
    }
  }

  /** `COALESCE(MAX(sequence), 0)` over the attempt rows of one task. */
  function MaxSequence(attempts: seq<Attempt>, t: TaskId): int {
    if attempts == [] then 0
    else
      var rest := MaxSequence(attempts[..|attempts| - 1], t);
      var last := attempts[|attempts| - 1];
      if last.taskId == t && last.sequence > rest then last.sequence else rest
  }

  lemma MaxSequenceIsMax(attempts: seq<Attempt>, t: TaskId)
    ensures forall i | 0 <= i < |attempts| && attempts[i].taskId == t :: attempts[i].sequence <= MaxSequence(attempts, t)
    ensures MaxSequence(attempts, t) == 0
      || exists i | 0 <= i < |attempts| :: attempts[i].taskId == t && attempts[i].sequence == MaxSequence(attempts, t)
  {
    if attempts != [] {
      MaxSequenceIsMax(attempts[..|attempts| - 1], t);
    }
  }

  /** `SELECT * FROM borrow_attempt WHERE id = ?`, as a row position. */
  function IndexOf(attempts: seq<Attempt>, id: nat): (r: Option<nat>)
    ensures r.Some? ==> r.value < |attempts| && attempts[r.value].id == id
    ensures r.None? ==> forall a | a in attempts :: a.id != id
  {
    if attempts == [] then None
    else if attempts[|attempts| - 1].id == id then Some(|attempts| - 1)
    else IndexOf(attempts[..|attempts| - 1], id)
  }

  /** The task's last resolved row before `id`: `... AND id < ? ORDER BY id DESC LIMIT 1`. */
  function LastResolved(attempts: seq<Attempt>, t: TaskId, id: nat): (r: Option<nat>)
    ensures r.Some? ==>
      && r.value < |attempts|
      && ResolvedFor(attempts[r.value], t) && attempts[r.value].id < id
      && forall k | r.value < k < |attempts| :: !(ResolvedFor(attempts[k], t) && attempts[k].id < id)
    ensures r.None? ==> forall a | a in attempts :: !(ResolvedFor(a, t) && a.id < id)
  {
    if attempts == [] then None
    else
      var n := |attempts| - 1;
      if ResolvedFor(attempts[n], t) && attempts[n].id < id then Some(n)
      else LastResolved(attempts[..n], t, id)
  }

  predicate ResolvedFor(a: Attempt, t: TaskId) {
    a.taskId == t && a.outcome == Resolved
  }

  /** The dispatch time of the newest dispatched row before `id`, of any task. */
  function PreviousDispatch(attempts: seq<Attempt>, id: nat): Option<int> {
    if attempts == [] then None
    else
      var last := attempts[|attempts| - 1];
      if last.dispatchedAt.Some? && last.id < id then last.dispatchedAt
      else PreviousDispatch(attempts[..|attempts| - 1], id)
  }

  predicate Eligible(task: Task) {
    && task.status == Borrowing && task.unresolved.None? && task.liveAuthorized
    && task.successCount < task.successTarget
  }

  /** Ids of the eligible tasks in row order, which is creation order. */
  function ListEligible(order: seq<TaskId>, tasks: map<TaskId, Task>): seq<TaskId> {
    if order == [] then []
    else
      var rest := ListEligible(order[..|order| - 1], tasks);
      var last := order[|order| - 1];
      if last in tasks && Eligible(tasks[last]) then rest + [last] else rest
  }

  // ------------------------------------------------- transactions as functions

  /** The row order names exactly the task rows. */
  ghost predicate RowsPresent(db: Tables) {
    forall t :: t in db.order <==> t in db.tasks
  }

  function CreateTask(db: Tables, id: TaskId, asset: string, amount: string, target: int): Option<Tables> {
    if id in db.tasks then None   // PRIMARY KEY conflict
    else
      var task := Task(asset, amount, target, 0, Borrowing, 1,
                       MaxCreationSeq(db.order, db.tasks) + 1, true, None, None);
      Some(db.(order := db.order + [id], tasks := db.tasks[id := task]))
  }

  function SetTaskStatus(db: Tables, id: TaskId, status: TaskStatus, live: Option<bool>): Option<Tables> {
    if id !in db.tasks then None
    else
      var task := db.tasks[id];
      Some(db.(tasks := db.tasks[id := task.(status := status, version := task.version + 1,
                                             liveAuthorized := if live.Some? then live.value else task.liveAuthorized)]))
  }

  function EditTask(db: Tables, id: TaskId, amount: string, target: int, expected: int): Option<Tables> {
    if id !in db.tasks || db.tasks[id].version != expected then None
    else
      var task := db.tasks[id];
      Some(db.(tasks := db.tasks[id := task.(amount := amount, successTarget := target,
                                             version := task.version + 1)]))
  }

  /** Start clears a ban and a cooldown only once the cooldown has elapsed. */
  function SetExecutionEnabled(s: Settings, enabled: bool, now: int): Settings {
    if !enabled then s.(executionEnabled := false)
    else if s.cooldownUntil.Some? && s.cooldownUntil.value > now then s.(executionEnabled := true)
    else s.(executionEnabled := true, requiresRearm := false, cooldownUntil := None)
  }

  predicate LiveGatesOpen(task: Task, s: Settings, dispatchedAt: int) {
    && task.liveAuthorized && s.executionEnabled && !s.requiresRearm
    && !(s.cooldownUntil.Some? && s.cooldownUntil.value > dispatchedAt)
  }

  predicate MayInsert(db: Tables, t: TaskId, dispatchedAt: int, live: bool) {
    && t in db.tasks
    && db.tasks[t].status == Borrowing
    && db.tasks[t].unresolved.None?
    && db.tasks[t].successCount < db.tasks[t].successTarget
    && (live ==> LiveGatesOpen(db.tasks[t], db.settings, dispatchedAt))
  }

  function NewAttempt(db: Tables, t: TaskId, asset: string, amount: string, scheduledAt: int, dispatchedAt: int): Attempt {
    Attempt(db.nextAttemptId, t, asset, MaxSequence(db.attempts, t) + 1, Pending, None, None, None,
            None, None, amount, scheduledAt, Some(dispatchedAt), None, None, None)
  }

  /** `None` when a gate fails: no row is written. */
  function InsertPending(db: Tables, t: TaskId, asset: string, amount: string, scheduledAt: int,
                         dispatchedAt: int, cursor: TaskId, live: bool): Option<Tables>
  {
    if !MayInsert(db, t, dispatchedAt, live) then None
    else
      var task := db.tasks[t];
      Some(db.(attempts := db.attempts + [NewAttempt(db, t, asset, amount, scheduledAt, dispatchedAt)],
               nextAttemptId := db.nextAttemptId + 1,
               settings := db.settings.(cursor := Some(cursor)),
               tasks := db.tasks[t := task.(unresolved := Some(db.nextAttemptId), version := task.version + 1)]))
  }

  function Latency(dispatchedAt: Option<int>, finishedAt: int): Option<int> {
    if dispatchedAt.Some? then Some((finishedAt - dispatchedAt.value) / 1000) else None
  }

  /** The row an attempt becomes when it is kept as its own log line. */
  function ResolvedRow(attempts: seq<Attempt>, a: Attempt, result: ExecutorResult, finishedAt: int): Attempt {
    var prev := PreviousDispatch(attempts, a.id);
    a.(outcome := Resolved, category := Some(result.category), businessCode := result.businessCode,
       reason := result.reason, httpStatus := result.httpStatus, tranId := result.tranId,
       finishedAt := Some(finishedAt), latencyMs := Latency(a.dispatchedAt, finishedAt),
       effectiveGapUs := if a.dispatchedAt.Some? && prev.Some? then Some(a.dispatchedAt.value - prev.value) else None)
  }

  predicate SameAsLatest(latest: Option<LatestResult>, result: ExecutorResult) {
    && latest.Some? && latest.value.category == result.category
    && latest.value.reason == result.reason && latest.value.businessCode == result.businessCode
  }

  predicate SameAsRow(a: Attempt, result: ExecutorResult) {
    a.category == Some(result.category) && a.reason == result.reason && a.businessCode == result.businessCode
  }

  /** The row position the new failure folds into, when it repeats the task's last result. */
  function FoldTarget(db: Tables, a: Attempt, result: ExecutorResult): (r: Option<nat>)
    ensures r.Some? ==> r == LastResolved(db.attempts, a.taskId, a.id) && r.value < |db.attempts|
  {
    if Coalesceable(result.category) && a.taskId in db.tasks && SameAsLatest(db.tasks[a.taskId].latest, result) then
      var last := LastResolved(db.attempts, a.taskId, a.id);
      if last.Some? && SameAsRow(db.attempts[last.value], result) then last else None
    else None
  }

  function ResolveStatus(current: TaskStatus, newCount: int, target: int): TaskStatus {
    if current == Deleted then Deleted
    else if current == Completed then Completed
    else if newCount >= target then Completed
    else current
  }

  function ApplyRateLimit(s: Settings, result: ExecutorResult, finishedAt: int): Settings {
    var s1 := if result.retryAfterUs.Some? then s.(cooldownUntil := Some(finishedAt + result.retryAfterUs.value)) else s;
    if result.httpStatus == Some(418) then s1.(requiresRearm := true) else s1
  }

  function SettingsAfter(s: Settings, result: ExecutorResult, finishedAt: int): Settings {
    if result.category == RateLimited then ApplyRateLimit(s, result, finishedAt) else s
  }

  function TaskAfter(task: Task, result: ExecutorResult, finishedAt: int, folded: bool): Task {
    if folded then
      task.(latest := if task.latest.Some? then Some(task.latest.value.(finishedAt := finishedAt)) else None,
            unresolved := None, version := task.version + 1)
    else
      var newCount := if result.category == Success then task.successCount + 1 else task.successCount;
      task.(latest := Some(LatestResult(result.category, result.businessCode, result.reason, result.tranId, finishedAt)),
            successCount := newCount,
            status := if result.category == Success then ResolveStatus(task.status, newCount, task.successTarget) else task.status,
            unresolved := None, version := task.version + 1)
  }

  function Without(attempts: seq<Attempt>, i: nat): seq<Attempt>
    requires i < |attempts|
  {
    attempts[..i] + attempts[i + 1..]
  }

  /** `None` when the attempt row does not exist (the source raises). */
  function ResolveAttempt(db: Tables, id: nat, result: ExecutorResult, finishedAt: int): Option<Tables> {
    var at := IndexOf(db.attempts, id);
    if at.None? then None
    else
      var a := db.attempts[at.value];
      var fold := FoldTarget(db, a, result);
      var tasks := if a.taskId in db.tasks
                   then db.tasks[a.taskId := TaskAfter(db.tasks[a.taskId], result, finishedAt, fold.Some?)]
                   else db.tasks;
      var attempts :=
        if fold.Some? then
          var kept := db.attempts[fold.value].(finishedAt := Some(finishedAt), latencyMs := Latency(a.dispatchedAt, finishedAt));
          Without(db.attempts[fold.value := kept], at.value)
        else db.attempts[at.value := ResolvedRow(db.attempts, a, result, finishedAt)];
      Some(db.(attempts := attempts, tasks := tasks, settings := SettingsAfter(db.settings, result, finishedAt)))
  }

  predicate Referenced(tasks: map<TaskId, Task>, id: nat) {
    exists t | t in tasks :: tasks[t].unresolved == Some(id)
  }

  /** Keeps exactly the rows some in-flight marker still names. */
  function KeepReferenced(attempts: seq<Attempt>, tasks: map<TaskId, Task>): seq<Attempt> {
    if attempts == [] then []
    else
      var n := |attempts| - 1;
      var rest := KeepReferenced(attempts[..n], tasks);
      if Referenced(tasks, attempts[n].id) then rest + [attempts[n]] else rest
  }

  lemma KeptRows(attempts: seq<Attempt>, tasks: map<TaskId, Task>, a: Attempt)
    ensures a in KeepReferenced(attempts, tasks) <==> a in attempts && Referenced(tasks, a.id)
  {
    if attempts != [] {
      KeptRows(attempts[..|attempts| - 1], tasks, a);
      assert attempts == attempts[..|attempts| - 1] + [attempts[|attempts| - 1]];
    }
  }

  function ClearLogs(db: Tables): Tables {
    db.(attempts := KeepReferenced(db.attempts, db.tasks))
  }

  function Orphaned(a: Attempt, now: int): Attempt {
    if a.outcome != Pending then a
    else a.(outcome := Resolved, category := Some(Unknown), reason := Some(CRASH_ORPHAN),
            finishedAt := if a.finishedAt.Some? then a.finishedAt else Some(now))
  }

  function RecoverRows(attempts: seq<Attempt>, now: int): (r: seq<Attempt>)
    ensures |r| == |attempts| && forall i | 0 <= i < |r| :: r[i] == Orphaned(attempts[i], now)
  {
    seq(|attempts|, i requires 0 <= i < |attempts| => Orphaned(attempts[i], now))
  }

  /** Owner start-up: every marker is cleared, every pending row becomes a response-less unknown. */
  function Recover(db: Tables, now: int): Tables {
    db.(tasks := map t | t in db.tasks :: db.tasks[t].(unresolved := None),
        attempts := RecoverRows(db.attempts, now))
  }

  // ----------------------------------------------------------------- the store

  /** The open store. Each method is one transaction: it updates the tables in place, and its
      contract gives the whole new content of the tables as a function of the old. */
  class BorrowTaskStore {
    var order: seq<TaskId>
    var tasks: map<TaskId, Task>
    var attempts: seq<Attempt>
    var nextAttemptId: nat
    var settings: Settings

    ghost function Contents(): Tables
      reads this
    {
      Tables(order, tasks, attempts, nextAttemptId, settings)
    }

    /** A fresh database. */
    constructor ()
      ensures Contents() == EMPTY
    {
      order, tasks, attempts, nextAttemptId := [], map[], [], 1;
      settings := Settings(DEFAULT_INTERVAL_US, None, None, false, false);
    }

    /** Owner start-up on an existing database. */
    method RecoverOrphans(now: int)
      modifies this
      ensures Contents() == Recover(old(Contents()), now)
    {
      tasks := map t | t in tasks :: tasks[t].(unresolved := None);
      attempts := RecoverRows(attempts, now);
    }

    method Create(id: TaskId, asset: string, amount: string, target: int) returns (ok: bool)
      modifies this
      ensures ok == CreateTask(old(Contents()), id, asset, amount, target).Some?
      ensures Contents() == if ok then CreateTask(old(Contents()), id, asset, amount, target).value else old(Contents())
    {
      if id in tasks {
        return false;
      }
      var creationSeq := MaxCreationSeq(order, tasks) + 1;
      order := order + [id];
      tasks := tasks[id := Task(asset, amount, target, 0, Borrowing, 1, creationSeq, true, None, None)];
      return true;
    }

    method SetStatus(id: TaskId, status: TaskStatus, live: Option<bool>) returns (ok: bool)
      modifies this
      ensures ok == SetTaskStatus(old(Contents()), id, status, live).Some?
      ensures Contents() == if ok then SetTaskStatus(old(Contents()), id, status, live).value else old(Contents())
    {
      if id !in tasks {
        return false;
      }
      var task := tasks[id].(status := status, version := tasks[id].version + 1);
      if live.Some? {
        task := task.(liveAuthorized := live.value);
      }
      tasks := tasks[id := task];
      return true;
    }

    method Edit(id: TaskId, amount: string, target: int, expected: int) returns (ok: bool)
      modifies this
      ensures ok == EditTask(old(Contents()), id, amount, target, expected).Some?
      ensures Contents() == if ok then EditTask(old(Contents()), id, amount, target, expected).value else old(Contents())
    {
      if id !in tasks || tasks[id].version != expected {
        return false;
      }
      tasks := tasks[id := tasks[id].(amount := amount, successTarget := target, version := expected + 1)];
      return true;
    }

    method ClearAttemptLogs() returns (deleted: int, retained: int)
      modifies this
      ensures Contents() == ClearLogs(old(Contents()))
      ensures retained == |attempts| && deleted == old(|attempts|) - |attempts|
    {
      var before := |attempts|;
      attempts := KeepReferenced(attempts, tasks);
      deleted, retained := before - |attempts|, |attempts|;
    }

    method UpdateInterval(intervalUs: int)
      modifies this
      ensures Contents() == old(Contents()).(settings := old(settings).(intervalUs := intervalUs))
    {
      settings := settings.(intervalUs := intervalUs);
    }

    method SetExecution(enabled: bool, now: int)
      modifies this
      ensures Contents() == old(Contents()).(settings := SetExecutionEnabled(old(settings), enabled, now))
    {
      if enabled {
        settings := settings.(executionEnabled := true);
        if settings.cooldownUntil.None? || settings.cooldownUntil.value <= now {
          settings := settings.(requiresRearm := false, cooldownUntil := None);
        }
      } else {
        settings := settings.(executionEnabled := false);
      }
    }

    method InsertPendingAttempt(t: TaskId, asset: string, amount: string, scheduledAt: int, dispatchedAt: int,
                                cursor: TaskId, live: bool)
      returns (inserted: Option<Attempt>)
      modifies this
      ensures
        var after := InsertPending(old(Contents()), t, asset, amount, scheduledAt, dispatchedAt, cursor, live);
        && inserted.Some? == after.Some?
        && Contents() == (if after.Some? then after.value else old(Contents()))
        && (inserted.Some? ==> |attempts| == |old(attempts)| + 1 && inserted.value == attempts[|old(attempts)|])
    {
      if t !in tasks || tasks[t].status != Borrowing || tasks[t].unresolved.Some?
         || tasks[t].successCount >= tasks[t].successTarget
      {
        return None;
      }
      if live && !LiveGatesOpen(tasks[t], settings, dispatchedAt) {
        return None;
      }
      var sequence := MaxSequence(attempts, t) + 1;
      var row := Attempt(nextAttemptId, t, asset, sequence, Pending, None, None, None, None, None,
                         amount, scheduledAt, Some(dispatchedAt), None, None, None);
      attempts := attempts + [row];
      settings := settings.(cursor := Some(cursor));
      tasks := tasks[t := tasks[t].(unresolved := Some(nextAttemptId), version := tasks[t].version + 1)];
      nextAttemptId := nextAttemptId + 1;
      return Some(row);
    }

    method Resolve(id: nat, result: ExecutorResult, finishedAt: int) returns (ok: bool)
      modifies this
      ensures ok == ResolveAttempt(old(Contents()), id, result, finishedAt).Some?
      ensures Contents() == if ok then ResolveAttempt(old(Contents()), id, result, finishedAt).value else old(Contents())
    {
      var at := IndexOf(attempts, id);
      if at.None? {
        return false;
      }
      var a := attempts[at.value];
      var latency := Latency(a.dispatchedAt, finishedAt);
      if Coalesceable(result.category) && a.taskId in tasks && SameAsLatest(tasks[a.taskId].latest, result) {
        var last := LastResolved(attempts, a.taskId, a.id);
        if last.Some? && SameAsRow(attempts[last.value], result) {
          attempts := attempts[last.value := attempts[last.value].(finishedAt := Some(finishedAt), latencyMs := latency)];
          attempts := Without(attempts, at.value);
          var task := tasks[a.taskId];
          tasks := tasks[a.taskId := task.(latest := Some(task.latest.value.(finishedAt := finishedAt)),
                                           unresolved := None, version := task.version + 1)];
          RecordRateLimit(result, finishedAt);
          return true;
        }
      }
      attempts := attempts[at.value := ResolvedRow(attempts, a, result, finishedAt)];
      if a.taskId in tasks {
        var task := tasks[a.taskId];
        var newCount, newStatus := task.successCount, task.status;
        if result.category == Success {
          newCount := task.successCount + 1;
          newStatus := ResolveStatus(task.status, newCount, task.successTarget);
        }
        tasks := tasks[a.taskId := task.(
          latest := Some(LatestResult(result.category, result.businessCode, result.reason, result.tranId, finishedAt)),
          successCount := newCount, status := newStatus, unresolved := None, version := task.version + 1)];
      }
      RecordRateLimit(result, finishedAt);
      return true;
    }

    method RecordRateLimit(result: ExecutorResult, finishedAt: int)
      modifies this`settings
      ensures settings == SettingsAfter(old(settings), result, finishedAt)
    {
      if result.category == RateLimited {
        if result.retryAfterUs.Some? {
          settings := settings.(cooldownUntil := Some(finishedAt + result.retryAfterUs.value));
        }
        if result.httpStatus == Some(418) {
          settings := settings.(requiresRearm := true);
        }
      }
    }
  }
}
