/** What holds after every run of the borrow protocol: in-flight markers, success counts, the
    rate-limit ban and the cooldown. */
module BorrowRuns {
  import opened Options
  import opened BorrowStore
  import opened BorrowProtocol

  // ---------------------------------------------------------- markers and rows

  /** Row `i` is the task's pending row with this id. */
  predicate PendingAt(rows: seq<Attempt>, i: int, t: TaskId, id: nat) {
    0 <= i < |rows| && rows[i].taskId == t && rows[i].outcome == Pending && rows[i].id == id
  }

  /** A task is marked in flight with `id` exactly when `id` is a pending row of it, and a task
      never has two pending rows. */
  lemma MarkersAreThePendingRows(live: bool, gap: int, steps: seq<Step>, t: TaskId, id: nat)
    ensures
      var db := Run(Fresh(live, gap), steps).db;
      && (t in db.tasks && db.tasks[t].unresolved == Some(id) <==> exists i :: PendingAt(db.attempts, i, t, id))
      && (forall i, j, other | PendingAt(db.attempts, i, t, id) && PendingAt(db.attempts, j, t, other) :: i == j)
  {
    RunStructured(live, gap, steps);
    var db := Run(Fresh(live, gap), steps).db;
    if t in db.tasks && db.tasks[t].unresolved == Some(id) {
      var a :| a in db.attempts && a.id == id && a.taskId == t && a.outcome == Pending;
      var i :| 0 <= i < |db.attempts| && db.attempts[i] == a;
      assert PendingAt(db.attempts, i, t, id);
    }
    if i :| PendingAt(db.attempts, i, t, id) {
      assert db.attempts[i] in db.attempts;
    }
  }

  /** Deleted rows leave no disorder: sequence numbers rise with the id within a task. */
  lemma SequencesRiseWithIds(live: bool, gap: int, steps: seq<Step>, i: nat, j: nat)
    ensures
      var rows := Run(Fresh(live, gap), steps).db.attempts;
      i < |rows| && j < |rows| && rows[i].taskId == rows[j].taskId ==>
        (rows[i].id < rows[j].id <==> rows[i].sequence < rows[j].sequence)
  {
    RunStructured(live, gap, steps);
    var db := Run(Fresh(live, gap), steps).db;
    assert Ordered(db.attempts, db.nextAttemptId);
  }

  // ------------------------------------------------------------ success counts

  function Successes(trace: seq<Event>, t: TaskId): nat {
    if trace == [] then 0
    else
      var n := |trace| - 1;
      Successes(trace[..n], t)
      + if trace[n].Recorded? && trace[n].t == t && trace[n].row.category == Some(Success) then 1 else 0
  }

  lemma SuccessesSnoc(trace: seq<Event>, e: Event, t: TaskId)
    ensures Successes(trace + [e], t) ==
      Successes(trace, t) + if e.Recorded? && e.t == t && e.row.category == Some(Success) then 1 else 0
  {
    assert (trace + [e])[..|trace|] == trace;
  }

  /** Successes held or still possible: the count plus the attempt in flight. */
  function Load(task: Task): int {
    task.successCount + if task.unresolved.Some? then 1 else 0
  }

  /** The stated bound, on one task. */
  ghost predicate CountsOk(w: World, t: TaskId) {
    t in w.db.tasks ==>
      var task := w.db.tasks[t];
      && task.successCount == Successes(w.trace, t)
      && task.successCount <= task.successTarget
      && (task.unresolved.Some? ==> task.successCount < task.successTarget)
  }

  ghost predicate Counted(w: World, t: TaskId) {
    && (t in w.db.tasks ==> w.db.tasks[t].successCount == Successes(w.trace, t) && Load(w.db.tasks[t]) <= w.db.tasks[t].successTarget)
    && (t !in w.db.tasks ==> Successes(w.trace, t) == 0)
  }

  /** How one step can move a task: without a version bump the count stands and the load cannot
      rise; with a bump the new load is at most one above the old count. */
  predicate Moves(a: Task, b: Task) {
    || (b.version == a.version && b.successCount == a.successCount && Load(b) <= Load(a))
    || (b.version == a.version + 1 && Load(b) <= a.successCount + 1)
  }

  ghost predicate EditOk(db: Tables, e: EditRequest) {
    && e.id in db.tasks
    && e.seenCount < e.target && e.expected <= e.seenVersion + 1
    && var task := db.tasks[e.id];
       && e.seenVersion <= task.version
       && (task.version == e.seenVersion ==> task.successCount == e.seenCount)
       && (task.version <= e.seenVersion + 1 ==> Load(task) <= e.seenCount + 1)
  }

  lemma FinishMoves(w: World, result: ExecutorResult, finishedAt: int, t: TaskId)
    requires Structured(w) && t in w.db.tasks
    ensures
      var w' := FinishDb(w, result, finishedAt);
      t in w'.db.tasks && Moves(w.db.tasks[t], w'.db.tasks[t])
  {
    if w.flight.Some? {
      var i := FlightRow(w);
    }
  }

  lemma StepMoves(w: World, step: Step, t: TaskId)
    requires Structured(w) && t in w.db.tasks
    ensures t in Apply(w, step).db.tasks && Moves(w.db.tasks[t], Apply(w, step).db.tasks[t])
  {
    if step.Finish? {
      FinishMoves(w, step.result, step.finishedAt, t);
    }
  }

  lemma StepEdits(w: World, step: Step)
    requires Structured(w) && w.gap <= 1
    requires forall e | e in w.edits :: EditOk(w.db, e)
    ensures forall e | e in Apply(w, step).edits :: EditOk(Apply(w, step).db, e)
  {
    forall e | e in Apply(w, step).edits ensures EditOk(Apply(w, step).db, e) {
      if e in w.edits {
        StepMoves(w, step, e.id);
      }
    }
  }

  lemma FinishCounted(w: World, result: ExecutorResult, finishedAt: int, t: TaskId)
    requires Structured(w) && Counted(w, t)
    ensures Counted(FinishDb(w, result, finishedAt), t)
  {
    if w.flight.Some? && w.flight.value.called && Possible(w.live, result) {
      var i := FlightRow(w);
      var a := w.db.attempts[i];
      SuccessesSnoc(w.trace, Recorded(a.taskId, ResolvedRow(w.db.attempts, a, result, finishedAt), Banned(result),
                                        LimitOf(result, finishedAt)), t);
    }
  }

  /** An event that records no result of its own leaves the counts as they were. */
  lemma EventCounted(w: World, w': World, e: Event, t: TaskId)
    requires Counted(w, t) && !e.Recorded? && w'.trace == w.trace + [e]
    requires t in w'.db.tasks <==> t in w.db.tasks
    requires t in w.db.tasks ==>
      && w'.db.tasks[t].successCount == w.db.tasks[t].successCount
      && w'.db.tasks[t].successTarget == w.db.tasks[t].successTarget
      && Load(w'.db.tasks[t]) <= w'.db.tasks[t].successTarget
    ensures Counted(w', t)
  {
    SuccessesSnoc(w.trace, e, t);
  }

  lemma EventStepCounted(w: World, step: Step, t: TaskId)
    requires Structured(w) && Counted(w, t)
    requires step.ClearLog? || step.PressStart? || step.PressStop? || step.Insert? || step.Call? || step.Restart?
    ensures Counted(Apply(w, step), t)
  {
    var w' := Apply(w, step);
    match step
    case ClearLog => EventCounted(w, w', LogsCleared, t);
    case PressStart(now) => EventCounted(w, w', Started(now, w.db.settings.cooldownUntil), t);
    case PressStop => EventCounted(w, w', Stopped, t);
    case Insert(u, _, _, _, dispatchedAt) =>
      if w'.trace != w.trace {
        EventCounted(w, w', Inserted(w.db.nextAttemptId, u, w.live, dispatchedAt, w.db.tasks[u]), t);
      }
    case Call =>
      if w'.trace != w.trace {
        EventCounted(w, w', Called(w.flight.value.id, w.live), t);
      }
    case Restart(now, live) =>
      if w'.trace != w.trace {
        EventCounted(w, w', OrphansRecorded(PendingAsOrphans(w.db.attempts, now)), t);
      }
  }

  lemma StepCounted(w: World, step: Step, t: TaskId)
    requires Structured(w) && Counted(w, t)
    requires forall e | e in w.edits :: EditOk(w.db, e)
    ensures Counted(Apply(w, step), t)
  {
    if step.ClearLog? || step.PressStart? || step.PressStop? || step.Insert? || step.Call? || step.Restart? {
      EventStepCounted(w, step, t);
    } else if step.Finish? {
      FinishCounted(w, step.result, step.finishedAt, t);
    } else if step.WriteEdit? && step.k < |w.edits| {
      assert w.edits[step.k] in w.edits;
    }
  }

  lemma {:induction false} RunCounted(live: bool, gap: int, steps: seq<Step>, t: TaskId)
    requires gap <= 1
    ensures
      var w := Run(Fresh(live, gap), steps);
      w.gap == gap && Counted(w, t) && forall e | e in w.edits :: EditOk(w.db, e)
  {
    if steps != [] {
      var n := |steps| - 1;
      var w := Run(Fresh(live, gap), steps[..n]);
      RunCounted(live, gap, steps[..n], t);
      RunStructured(live, gap, steps[..n]);
      StepCounted(w, steps[n], t);
      StepEdits(w, steps[n]);
    }
  }

  lemma {:induction false} CountsHold(live: bool, gap: int, steps: seq<Step>, t: TaskId)
    requires gap <= 1
    ensures CountsOk(Run(Fresh(live, gap), steps), t)
  {
    RunCounted(live, gap, steps, t);
  }

  // --------------------------------------------- how far ahead a version may run

  const T: TaskId := "t"

  predicate StagedTask(task: Task, flight: Option<Flight>, version: int, count: int, inFlight: bool) {
    && task.version == version && task.successCount == count && task.successTarget == 3
    && (task.status == Borrowing || (inFlight && task.status == Paused)) && task.liveAuthorized
    && task.unresolved.Some? == inFlight
    && flight == if inFlight then Some(Flight(task.unresolved.value, T, 0, false)) else None
  }

  /** The task `T` is borrowing below its target, or paused with an attempt still in flight. */
  ghost predicate Staged(w: World, version: int, count: int, inFlight: bool) {
    && Structured(w)
    && T in w.db.tasks
    && StagedTask(w.db.tasks[T], w.flight, version, count, inFlight)
    && w.db.settings.executionEnabled && !w.db.settings.requiresRearm && w.db.settings.cooldownUntil.None?
  }

  const BORROWED: ExecutorResult := ExecutorResult(Success, None, None, Some(200), Some("1"), None)

  lemma Staging(w: World, version: int, count: int)
    requires Staged(w, version, count, false) && count < 3
    ensures Staged(Apply(w, Insert(T, "A", "1", 0, 0)), version + 1, count, true)
    ensures Apply(w, Insert(T, "A", "1", 0, 0)).db.tasks[T].status == Borrowing
    ensures Apply(w, Insert(T, "A", "1", 0, 0)).edits == w.edits
    ensures Apply(w, Insert(T, "A", "1", 0, 0)).gap == w.gap
  {
    StepStructured(w, Insert(T, "A", "1", 0, 0));
  }

  /** A success is recorded on the task and leaves the settings alone. */
  lemma SuccessRecorded(w: World)
    requires Structured(w) && w.flight.Some? && w.flight.value.called
    ensures
      var w' := FinishDb(w, BORROWED, 1);
      var t := w.flight.value.t;
      && t in w.db.tasks && w'.db.tasks == w.db.tasks[t := TaskAfter(w.db.tasks[t], BORROWED, 1, false)]
      && w'.db.settings == w.db.settings && w'.flight.None? && w'.edits == w.edits && w'.gap == w.gap
  {
    var i := FlightRow(w);
  }

  lemma CallStaged(w: World)
    requires w.flight.Some? && !w.flight.value.called
    ensures
      var w' := Apply(w, Call);
      && w'.db == w.db && w'.edits == w.edits && w'.gap == w.gap && w'.live == w.live
      && w'.flight == Some(w.flight.value.(called := true))
  {
  }

  lemma CountedUp(task: Task, version: int, count: int)
    requires task.status == Borrowing
    requires task.unresolved.Some? && StagedTask(task, Some(Flight(task.unresolved.value, T, 0, false)), version, count, true)
    requires count + 1 < 3
    ensures StagedTask(TaskAfter(task, BORROWED, 1, false), None, version + 1, count + 1, false)
  {
  }

  lemma OneSuccess(w: World, version: int, count: int)
    requires Staged(w, version, count, true) && w.db.tasks[T].status == Borrowing && count + 1 < 3
    ensures
      var w' := Apply(Apply(w, Call), Finish(BORROWED, 1));
      Staged(w', version + 1, count + 1, false) && w'.edits == w.edits && w'.gap == w.gap
  {
    var called := Apply(w, Call);
    StepStructured(w, Call);
    CallStaged(w);
    SuccessRecorded(called);
    StepStructured(called, Finish(BORROWED, 1));
    CountedUp(w.db.tasks[T], version, count);
    assert Apply(called, Finish(BORROWED, 1)) == FinishDb(called, BORROWED, 1);
  }

  /** The write of the user's next status request: pause a borrowing task, start a paused one. */
  function Toggle(task: Task): Step {
    if task.status == Borrowing then WriteStatus(T, Paused, None) else WriteStatus(T, Borrowing, Some(true))
  }

  lemma Bumping(w: World, version: int, count: int)
    requires Staged(w, version, count, true)
    ensures
      var w' := Apply(w, Toggle(w.db.tasks[T]));
      Staged(w', version + 1, count, true) && w'.edits == w.edits && w'.gap == w.gap
  {
    StepStructured(w, Toggle(w.db.tasks[T]));
  }

  /** Pausing and starting by turns raises the version as far as one likes. */
  lemma {:induction false} BumpedRun(live: bool, gap: int, steps: seq<Step>, version: int, count: int, n: nat)
    returns (longer: seq<Step>)
    requires Staged(Run(Fresh(live, gap), steps), version, count, true)
    ensures Staged(Run(Fresh(live, gap), longer), version + n, count, true)
    ensures Run(Fresh(live, gap), longer).edits == Run(Fresh(live, gap), steps).edits
  {
    longer := steps;
    if n > 0 {
      longer := BumpedRun(live, gap, steps, version, count, n - 1);
      var w := Run(Fresh(live, gap), longer);
      Bumping(w, version + n - 1, count);
      RunSnoc(Fresh(live, gap), longer, Toggle(w.db.tasks[T]));
      longer := longer + [Toggle(w.db.tasks[T])];
    }
  }

  lemma StagedStart(live: bool, gap: int) returns (steps: seq<Step>)
    ensures Staged(Run(Fresh(live, gap), steps), 1, 0, false)
    ensures Run(Fresh(live, gap), steps).edits == [] && Run(Fresh(live, gap), steps).gap == gap
  {
    var w := Fresh(live, gap);
    RunSnoc(w, [], PressStart(0));
    RunSnoc(w, [PressStart(0)], Create(T, "A", "1", 3));
    steps := [PressStart(0)] + [Create(T, "A", "1", 3)];
    assert [PressStart(0)] == [] + [PressStart(0)];
    assert w.db.order == [];
  }

  /** An edit is checked against the first attempt's row; a success and a second insert overtake it. */
  lemma {:induction false} EditOvertaken(live: bool, gap: int) returns (steps: seq<Step>)
    requires gap >= 2
    ensures Staged(Run(Fresh(live, gap), steps), 4, 1, true)
    ensures Run(Fresh(live, gap), steps).edits == [EditRequest(T, "1", 1, 2 + gap, 2, 0)]
  {
    var w := Fresh(live, gap);
    steps := StagedStart(live, gap);
    var s := Run(w, steps);
    Staging(s, 1, 0);
    RunSnoc(w, steps, Insert(T, "A", "1", 0, 0));
    steps := steps + [Insert(T, "A", "1", 0, 0)];
    var edit := CheckEdit(T, "1", 1, 2 + gap);
    s := Run(w, steps);
    RunSnoc(w, steps, edit);
    steps := steps + [edit];
    StepStructured(s, edit);
    OneSuccess(Run(w, steps), 2, 0);
    RunSnoc(w, steps, Call);
    RunSnoc(w, steps + [Call], Finish(BORROWED, 1));
    steps := steps + [Call] + [Finish(BORROWED, 1)];
    Staging(Run(w, steps), 3, 1);
    RunSnoc(w, steps, Insert(T, "A", "1", 0, 0));
    steps := steps + [Insert(T, "A", "1", 0, 0)];
  }

  /** An edit checked while an attempt is in flight, with a version `gap >= 2` ahead of the row,
      lands on a task that already holds as many successes as the new target and has another
      attempt in flight. Every step is one a handler or the dispatcher takes. */
  lemma {:induction false} VersionTooFarAheadBreaks(live: bool, gap: int) returns (steps: seq<Step>)
    requires gap >= 2
    ensures !CountsOk(Run(Fresh(live, gap), steps), T)
  {
    steps := EditOvertaken(live, gap);
    steps := BumpedRun(live, gap, steps, 4, 1, gap - 2);
    RunSnoc(Fresh(live, gap), steps, WriteEdit(0));
    steps := steps + [WriteEdit(0)];
  }

  /** The bound holds in every run exactly when no client's edit version runs more than one ahead
      of the row the edit was checked against. */
  lemma CountsHoldExactly(live: bool, gap: int)
    ensures (forall steps: seq<Step>, t: TaskId :: CountsOk(Run(Fresh(live, gap), steps), t)) <==> gap <= 1
  {
    if gap <= 1 {
      forall steps: seq<Step>, t: TaskId ensures CountsOk(Run(Fresh(live, gap), steps), t) {
        CountsHold(live, gap, steps, t);
      }
    } else {
      var steps := VersionTooFarAheadBreaks(live, gap);
    }
  }

  // ---------------------------------------------------- ban, re-arm and cooldown

  /** A Start pressed when no cooldown is in force any more. */
  predicate Rearms(e: Event) {
    e.Started? && (e.cooldown.None? || e.cooldown.value <= e.now)
  }

  predicate IsBan(e: Event) {
    e.Recorded? && e.banned
  }

  /** A 418 result has been recorded and no effective Start has come after it. */
  predicate RearmDue(trace: seq<Event>) {
    trace != []
    && var e := trace[|trace| - 1];
       IsBan(e) || (!Rearms(e) && RearmDue(trace[..|trace| - 1]))
  }

  lemma RearmDueSnoc(trace: seq<Event>, e: Event)
    ensures RearmDue(trace + [e]) <==> IsBan(e) || (!Rearms(e) && RearmDue(trace))
  {
    assert (trace + [e])[..|trace|] == trace;
  }

  predicate LiveSend(e: Event) {
    (e.Inserted? || e.Called?) && e.live
  }

  ghost predicate BanRespected(w: World) {
    && (RearmDue(w.trace) ==> w.db.settings.requiresRearm)
    && (w.live && w.flight.Some? ==> !RearmDue(w.trace))
    && (forall j | 0 <= j < |w.trace| && LiveSend(w.trace[j]) :: !RearmDue(w.trace[..j]))
  }

  /** One more event on the trace keeps earlier verdicts. */
  lemma BanRespectedSnoc(trace: seq<Event>, e: Event)
    requires forall j | 0 <= j < |trace| && LiveSend(trace[j]) :: !RearmDue(trace[..j])
    requires LiveSend(e) ==> !RearmDue(trace)
    ensures
      var trace' := trace + [e];
      forall j | 0 <= j < |trace'| && LiveSend(trace'[j]) :: !RearmDue(trace'[..j])
  {
    var trace' := trace + [e];
    forall j | 0 <= j < |trace'| && LiveSend(trace'[j]) ensures !RearmDue(trace'[..j]) {
      assert trace'[..j] == trace[..j];
      if j == |trace| {
        assert trace[..j] == trace;
      } else {
        assert trace'[j] == trace[j];
      }
    }
  }

  lemma EventBan(w: World, w': World, e: Event)
    requires BanRespected(w) && w'.trace == w.trace + [e]
    requires IsBan(e) ==> w'.db.settings.requiresRearm
    requires !IsBan(e) && !Rearms(e) && w.db.settings.requiresRearm ==> w'.db.settings.requiresRearm
    requires LiveSend(e) ==> !RearmDue(w.trace)
    requires w'.live && w'.flight.Some? ==> !IsBan(e) && (Rearms(e) || !RearmDue(w.trace))
    ensures BanRespected(w')
  {
    RearmDueSnoc(w.trace, e);
    BanRespectedSnoc(w.trace, e);
  }

  lemma FinishBan(w: World, result: ExecutorResult, finishedAt: int)
    requires BanRespected(w)
    ensures BanRespected(FinishDb(w, result, finishedAt))
  {
    var w' := FinishDb(w, result, finishedAt);
    if w'.trace != w.trace {
      EventBan(w, w', w'.trace[|w.trace|]);
    }
  }

  lemma InsertBan(w: World, t: TaskId, asset: string, amount: string, scheduledAt: int, dispatchedAt: int)
    requires BanRespected(w)
    ensures BanRespected(InsertDb(w, t, asset, amount, scheduledAt, dispatchedAt))
  {
    var w' := InsertDb(w, t, asset, amount, scheduledAt, dispatchedAt);
    if w' != w {
      EventBan(w, w', Inserted(w.db.nextAttemptId, t, w.live, dispatchedAt, w.db.tasks[t]));
    }
  }

  lemma StepBan(w: World, step: Step)
    requires BanRespected(w)
    ensures BanRespected(Apply(w, step))
  {
    match step
    case ClearLog => EventBan(w, Apply(w, step), LogsCleared);
    case PressStart(now) => EventBan(w, Apply(w, step), Started(now, w.db.settings.cooldownUntil));
    case PressStop => EventBan(w, Apply(w, step), Stopped);
    case Insert(t, asset, amount, scheduledAt, dispatchedAt) => InsertBan(w, t, asset, amount, scheduledAt, dispatchedAt);
    case Call =>
      if w.flight.Some? && !w.flight.value.called {
        EventBan(w, Apply(w, step), Called(w.flight.value.id, w.live));
      }
    case Finish(result, finishedAt) => FinishBan(w, result, finishedAt);
    case Restart(now, live) => EventBan(w, Apply(w, step), OrphansRecorded(PendingAsOrphans(w.db.attempts, now)));
    case _ =>
  }

  lemma {:induction false} RunBan(live: bool, gap: int, steps: seq<Step>)
    ensures BanRespected(Run(Fresh(live, gap), steps))
  {
    if steps != [] {
      var n := |steps| - 1;
      RunBan(live, gap, steps[..n]);
      StepBan(Run(Fresh(live, gap), steps[..n]), steps[n]);
    }
  }

  lemma {:induction false} RearmFound(trace: seq<Event>, i: nat) returns (k: nat)
    requires i < |trace| && IsBan(trace[i]) && !RearmDue(trace)
    ensures i < k < |trace| && Rearms(trace[k])
  {
    var n := |trace| - 1;
    if Rearms(trace[n]) {
      k := n;
    } else {
      k := RearmFound(trace[..n], i);
    }
  }

  /** In live mode nothing is inserted and no executor call is made after a 418 result until a
      Start pressed at or after the cooldown then in force. */
  lemma NothingSentUntilRearmed(live: bool, gap: int, steps: seq<Step>, i: nat, j: nat) returns (k: nat)
    requires
      var trace := Run(Fresh(live, gap), steps).trace;
      i < j < |trace| && IsBan(trace[i]) && LiveSend(trace[j])
    ensures
      var trace := Run(Fresh(live, gap), steps).trace;
      i < k < j && Rearms(trace[k])
  {
    RunBan(live, gap, steps);
    var trace := Run(Fresh(live, gap), steps).trace;
    k := RearmFound(trace[..j], i);
  }

  /** The clock does not run backwards between a dispatch and its result, and a retry delay is
      not negative. */
  predicate Sane(w: World, step: Step) {
    step.Finish? && w.flight.Some? ==>
      w.flight.value.dispatchedAt <= step.finishedAt
      && (step.result.retryAfterUs.Some? ==> step.result.retryAfterUs.value >= 0)
  }

  /** Every step of the run is sane where it is taken. */
  predicate SaneRun(w: World, steps: seq<Step>) {
    steps == []
    || var n := |steps| - 1;
       SaneRun(w, steps[..n]) && Sane(Run(w, steps[..n]), steps[n])
  }

  predicate CooldownPassed(w: World) {
    w.live && w.flight.Some? && w.db.settings.cooldownUntil.Some? ==>
      w.db.settings.cooldownUntil.value <= w.flight.value.dispatchedAt
  }

  /** Across one step a cooldown is neither cleared early, nor moved earlier, nor bypassed. */
  predicate CooldownKept(w: World, step: Step, w': World) {
    w.db.settings.cooldownUntil.Some? ==>
      var until := w.db.settings.cooldownUntil.value;
      && (w'.db.settings.cooldownUntil.None? ==> step.PressStart? && until <= step.now)
      && (w'.db.settings.cooldownUntil.Some? ==> until <= w'.db.settings.cooldownUntil.value)
      && (w.live && w'.flight != w.flight && w'.flight.Some? && step.Insert? ==> until <= step.dispatchedAt)
  }

  lemma StepCooldown(w: World, step: Step)
    requires CooldownPassed(w) && Sane(w, step)
    ensures CooldownPassed(Apply(w, step)) && CooldownKept(w, step, Apply(w, step))
  {
  }

  lemma {:induction false} RunCooldown(live: bool, gap: int, steps: seq<Step>)
    requires SaneRun(Fresh(live, gap), steps)
    ensures CooldownPassed(Run(Fresh(live, gap), steps))
  {
    if steps != [] {
      var n := |steps| - 1;
      var w := Fresh(live, gap);
      RunCooldown(live, gap, steps[..n]);
      StepCooldown(Run(w, steps[..n]), steps[n]);
    }
  }

  lemma {:induction false} CooldownNeverShortened(live: bool, gap: int, steps: seq<Step>, step: Step)
    requires SaneRun(Fresh(live, gap), steps) && Sane(Run(Fresh(live, gap), steps), step)
    ensures
      var w := Run(Fresh(live, gap), steps);
      CooldownKept(w, step, Apply(w, step))
  {
    RunCooldown(live, gap, steps);
    StepCooldown(Run(Fresh(live, gap), steps), step);
  }
}
