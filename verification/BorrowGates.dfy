/** What the gates do: what a rate limit stores, what a live insert needs, and what Start, Stop and
    the cooldown mean over whole runs. Everything is said over fields and recorded events. */
module BorrowGates {
  import opened Options
  import opened BorrowStore
  import opened BorrowProtocol
  import opened BorrowRuns
  import opened BorrowLog
  import opened BorrowScheduler

  // -------------------------------------------------------- one result, one insert

  predicate Enabled(w: World, result: ExecutorResult) {
    w.flight.Some? && w.flight.value.called && Possible(w.live, result)
  }

  /** What a result does to the settings: with a retry delay, a rate limit puts the cooldown at the
      finish plus the delay; a 418 demands re-arming; everything else stays. */
  ghost predicate LimitApplied(s: Settings, s': Settings, result: ExecutorResult, finishedAt: int) {
    && s'.cooldownUntil == (if result.category == RateLimited && result.retryAfterUs.Some?
                            then Some(finishedAt + result.retryAfterUs.value) else s.cooldownUntil)
    && s'.requiresRearm == (s.requiresRearm || (result.category == RateLimited && result.httpStatus == Some(418)))
    && s'.executionEnabled == s.executionEnabled && s'.intervalUs == s.intervalUs && s'.cursor == s.cursor
  }

  lemma FinishAppliesLimit(w: World, result: ExecutorResult, finishedAt: int)
    requires Structured(w) && Enabled(w, result)
    ensures LimitApplied(w.db.settings, Apply(w, Finish(result, finishedAt)).db.settings, result, finishedAt)
  {
    var i := FlightRow(w);
  }

  /** Every result does exactly this to the settings, whether it folds into the last line or not. */
  lemma RateLimitSetsCooldown(live: bool, gap: int, steps: seq<Step>, result: ExecutorResult, finishedAt: int)
    requires Enabled(Run(Fresh(live, gap), steps), result)
    ensures
      var w := Run(Fresh(live, gap), steps);
      LimitApplied(w.db.settings, Apply(w, Finish(result, finishedAt)).db.settings, result, finishedAt)
  {
    RunStructured(live, gap, steps);
    FinishAppliesLimit(Run(Fresh(live, gap), steps), result, finishedAt);
  }

  /** A finished dispatch rewrites its own task's row, by the folded or the full update. */
  lemma FinishedRow(w: World, result: ExecutorResult, finishedAt: int) returns (folded: bool)
    requires Structured(w) && Enabled(w, result)
    ensures
      var t := w.flight.value.t;
      && t in w.db.tasks
      && FinishDb(w, result, finishedAt).db.tasks == w.db.tasks[t := TaskAfter(w.db.tasks[t], result, finishedAt, folded)]
      && (folded ==> Coalesceable(result.category) && SameAsLatest(w.db.tasks[t].latest, result))
  {
    var i := FlightRow(w);
    folded := FoldTarget(w.db, w.db.attempts[i], result).Some?;
  }

  /** What a result does to its task's row. */
  ghost predicate SettledBy(before: Task, after: Task, result: ExecutorResult, finishedAt: int) {
    && after.unresolved.None? && after.version == before.version + 1 && after.successTarget == before.successTarget
    && (result.category == Success ==>
          && after.successCount == before.successCount + 1
          && after.status == (if before.status == Deleted || before.status == Completed then before.status
                              else if before.successCount + 1 >= before.successTarget then Completed
                              else before.status))
    && (result.category != Success ==> after.successCount == before.successCount && after.status == before.status)
    && after.latest.Some? && after.latest.value.category == result.category
    && after.latest.value.reason == result.reason && after.latest.value.businessCode == result.businessCode
    && after.latest.value.finishedAt == finishedAt
  }

  lemma TaskAfterSettles(task: Task, result: ExecutorResult, finishedAt: int, folded: bool)
    requires folded ==> Coalesceable(result.category) && SameAsLatest(task.latest, result)
    ensures SettledBy(task, TaskAfter(task, result, finishedAt, folded), result, finishedAt)
  {
  }

  /** A success counts once and completes a borrowing or paused task that has reached its target; a
      deleted or completed task keeps its status, and no other result touches count or status. The
      task's latest result is always this one. */
  lemma ResultSettlesTask(live: bool, gap: int, steps: seq<Step>, result: ExecutorResult, finishedAt: int)
    requires Enabled(Run(Fresh(live, gap), steps), result)
    ensures
      var w := Run(Fresh(live, gap), steps);
      var w' := Apply(w, Finish(result, finishedAt));
      var t := w.flight.value.t;
      && t in w.db.tasks && t in w'.db.tasks && SettledBy(w.db.tasks[t], w'.db.tasks[t], result, finishedAt)
      && forall u | u in w.db.tasks && u != t :: u in w'.db.tasks && w'.db.tasks[u] == w.db.tasks[u]
  {
    RunStructured(live, gap, steps);
    var w := Run(Fresh(live, gap), steps);
    var folded := FinishedRow(w, result, finishedAt);
    TaskAfterSettles(w.db.tasks[w.flight.value.t], result, finishedAt, folded);
  }

  /** The task row an insert was made for. */
  predicate Insertable(task: Task, live: bool) {
    && task.status == Borrowing && task.unresolved.None? && task.successCount < task.successTarget
    && (live ==> task.liveAuthorized)
  }

  /** An insert goes through exactly when no attempt is under way, the task is borrowing, idle and
      below its target, and, in live mode, it is authorized, execution is on, no re-arming is due and
      no cooldown reaches past the dispatch. */
  lemma InsertNeeds(w: World, t: TaskId, asset: string, amount: string, scheduledAt: int, dispatchedAt: int)
    ensures
      var s := w.db.settings;
      Apply(w, Insert(t, asset, amount, scheduledAt, dispatchedAt)) != w <==>
        && w.flight.None? && t in w.db.tasks && Insertable(w.db.tasks[t], w.live)
        && (w.live ==>
              && s.executionEnabled && !s.requiresRearm
              && (s.cooldownUntil.Some? ==> s.cooldownUntil.value <= dispatchedAt))
  {
    var w' := Apply(w, Insert(t, asset, amount, scheduledAt, dispatchedAt));
    assert w' != w ==> |w'.trace| == |w.trace| + 1;
    if InsertPending(w.db, t, asset, amount, scheduledAt, dispatchedAt, t, w.live).Some? && w.flight.None? {
      assert w'.flight.Some?;
    }
  }

  // ------------------------------------------------------- the settings as a history

  /** The last Start or Stop on record is a Start. */
  predicate StartedLast(trace: seq<Event>) {
    trace != []
    && var e := trace[|trace| - 1];
       e.Started? || (!e.Stopped? && StartedLast(trace[..|trace| - 1]))
  }

  /** The cooldown that the last limit on record asked for, unless a Start pressed at or after its
      end has cleared it since. */
  function CooldownOf(trace: seq<Event>): Option<int> {
    if trace == [] then None
    else
      var e, before := trace[|trace| - 1], CooldownOf(trace[..|trace| - 1]);
      if e.Recorded? && e.limit.Some? then e.limit
      else if e.Started? && before.Some? && before.value <= e.now then None
      else before
  }

  ghost predicate SettingsMirror(w: World) {
    && w.db.settings.executionEnabled == StartedLast(w.trace)
    && w.db.settings.cooldownUntil == CooldownOf(w.trace)
  }

  lemma MirrorSnoc(trace: seq<Event>, e: Event)
    ensures StartedLast(trace + [e]) == (e.Started? || (!e.Stopped? && StartedLast(trace)))
    ensures CooldownOf(trace + [e]) ==
            if e.Recorded? && e.limit.Some? then e.limit
            else if e.Started? && CooldownOf(trace).Some? && CooldownOf(trace).value <= e.now then None
            else CooldownOf(trace)
  {
    assert (trace + [e])[..|trace|] == trace;
  }

  lemma FinishMirrors(w: World, result: ExecutorResult, finishedAt: int)
    requires Structured(w) && SettingsMirror(w)
    ensures SettingsMirror(FinishDb(w, result, finishedAt))
  {
    if Enabled(w, result) {
      var i := FlightRow(w);
      MirrorSnoc(w.trace, FinishDb(w, result, finishedAt).trace[|w.trace|]);
    }
  }

  /** Steps that record nothing leave both settings alone. */
  lemma QuietMirrors(w: World, step: Step)
    requires SettingsMirror(w)
    requires step.Create? || step.WriteStatus? || step.CheckEdit? || step.WriteEdit? || step.PutInterval? || step.LoseResult?
    ensures SettingsMirror(Apply(w, step))
  {
    assert Apply(w, step).trace == w.trace;
  }

  lemma InsertMirrors(w: World, step: Step)
    requires SettingsMirror(w) && step.Insert?
    ensures SettingsMirror(Apply(w, step))
  {
    if Apply(w, step) != w {
      InsertNeeds(w, step.t, step.asset, step.amount, step.scheduledAt, step.dispatchedAt);
      MirrorSnoc(w.trace, Inserted(w.db.nextAttemptId, step.t, w.live, step.dispatchedAt, w.db.tasks[step.t]));
    }
  }

  lemma StepMirrors(w: World, step: Step)
    requires Structured(w) && SettingsMirror(w)
    ensures SettingsMirror(Apply(w, step))
  {
    match step
    case ClearLog => MirrorSnoc(w.trace, LogsCleared);
    case PressStart(now) => MirrorSnoc(w.trace, Started(now, w.db.settings.cooldownUntil));
    case PressStop => MirrorSnoc(w.trace, Stopped);
    case Insert(t, asset, amount, scheduledAt, dispatchedAt) => InsertMirrors(w, step);
    case Call =>
      if w.flight.Some? {
        MirrorSnoc(w.trace, Called(w.flight.value.id, w.live));
      }
    case Finish(result, finishedAt) => FinishMirrors(w, result, finishedAt);
    case Restart(now, live) => MirrorSnoc(w.trace, OrphansRecorded(PendingAsOrphans(w.db.attempts, now)));
    case _ => QuietMirrors(w, step);
  }

  /** In every reachable state execution is on exactly when the last of Start and Stop was Start, and
      the cooldown in force is exactly the last one asked for and not yet cleared. */
  lemma {:induction false} SettingsMirrorHistory(live: bool, gap: int, steps: seq<Step>)
    ensures SettingsMirror(Run(Fresh(live, gap), steps))
  {
    if steps != [] {
      var n := |steps| - 1;
      SettingsMirrorHistory(live, gap, steps[..n]);
      RunStructured(live, gap, steps[..n]);
      StepMirrors(Run(Fresh(live, gap), steps[..n]), steps[n]);
    }
  }

  // ------------------------------------------------------------ what inserts respect

  /** An insert on record respected the gates as the events before it left them. */
  ghost predicate Respected(before: seq<Event>, e: Event) {
    e.Inserted? ==>
      && Insertable(e.task, e.live)
      && (e.live ==>
            && StartedLast(before)
            && (CooldownOf(before).Some? ==> CooldownOf(before).value <= e.dispatchedAt))
  }

  ghost predicate AllRespected(trace: seq<Event>) {
    forall j | 0 <= j < |trace| :: Respected(trace[..j], trace[j])
  }

  lemma RespectedSnoc(trace: seq<Event>, e: Event)
    requires AllRespected(trace) && Respected(trace, e)
    ensures AllRespected(trace + [e])
  {
    var more := trace + [e];
    forall j | 0 <= j < |more| ensures Respected(more[..j], more[j]) {
      assert more[..j] == trace[..j];
      if j == |trace| {
        assert trace[..j] == trace;
      }
    }
  }

  lemma InsertRespects(w: World, step: Step)
    requires SettingsMirror(w) && AllRespected(w.trace) && step.Insert?
    ensures AllRespected(Apply(w, step).trace)
  {
    InsertNeeds(w, step.t, step.asset, step.amount, step.scheduledAt, step.dispatchedAt);
    if Apply(w, step) != w {
      RespectedSnoc(w.trace, Inserted(w.db.nextAttemptId, step.t, w.live, step.dispatchedAt, w.db.tasks[step.t]));
    }
  }

  lemma StepRespects(w: World, step: Step)
    requires SettingsMirror(w) && AllRespected(w.trace)
    ensures AllRespected(Apply(w, step).trace)
  {
    if step.Insert? {
      InsertRespects(w, step);
    } else if Apply(w, step).trace != w.trace {
      var e := Apply(w, step).trace[|w.trace|];
      assert Apply(w, step).trace == w.trace + [e];
      RespectedSnoc(w.trace, e);
    }
  }

  lemma {:induction false} RunRespects(live: bool, gap: int, steps: seq<Step>)
    ensures AllRespected(Run(Fresh(live, gap), steps).trace)
  {
    if steps != [] {
      var n := |steps| - 1;
      RunRespects(live, gap, steps[..n]);
      SettingsMirrorHistory(live, gap, steps[..n]);
      StepRespects(Run(Fresh(live, gap), steps[..n]), steps[n]);
    }
  }

  lemma {:induction false} LastStart(trace: seq<Event>) returns (k: nat)
    requires StartedLast(trace)
    ensures k < |trace| && trace[k].Started? && forall m | k < m < |trace| :: !trace[m].Stopped?
  {
    var n := |trace| - 1;
    if trace[n].Started? {
      k := n;
    } else {
      k := LastStart(trace[..n]);
    }
  }

  /** Every insert is for a task that was borrowing, idle and below its target when it ran; a live
      one, moreover, for an authorized task, with a Start before it and no Stop since that Start. */
  lemma LiveInsertsFollowStart(live: bool, gap: int, steps: seq<Step>, j: nat)
    requires
      var trace := Run(Fresh(live, gap), steps).trace;
      j < |trace| && trace[j].Inserted?
    ensures
      var trace := Run(Fresh(live, gap), steps).trace;
      var task := trace[j].task;
      && task.status == Borrowing && task.unresolved.None? && task.successCount < task.successTarget
      && (trace[j].live ==>
            && task.liveAuthorized
            && exists k :: 0 <= k < j && trace[k].Started? && forall m | k < m < j :: !trace[m].Stopped?)
  {
    RunRespects(live, gap, steps);
    var trace := Run(Fresh(live, gap), steps).trace;
    assert Respected(trace[..j], trace[j]);
    if trace[j].live {
      var k := LastStart(trace[..j]);
      assert trace[k].Started? && forall m | k < m < j :: !trace[m].Stopped? by {
        forall m | k < m < j ensures !trace[m].Stopped? {
          assert trace[..j][m] == trace[m];
        }
      }
    }
  }

  /** A Start pressed at or after `until`. */
  predicate ClearsAt(e: Event, until: int) {
    e.Started? && e.now >= until
  }

  predicate Limits(e: Event) {
    e.Recorded? && e.limit.Some?
  }

  lemma {:induction false} LimitStands(trace: seq<Event>, i: nat)
    requires i < |trace| && Limits(trace[i])
    requires forall m | i < m < |trace| :: !Limits(trace[m]) && !ClearsAt(trace[m], trace[i].limit.value)
    ensures CooldownOf(trace) == trace[i].limit
  {
    var n := |trace| - 1;
    if i < n {
      LimitStands(trace[..n], i);
    }
  }

  /** After a result that limits the rate until `u`, and until a later limit replaces it, a live
      insert is dispatched at or after `u`, or follows a Start pressed at or after `u`. */
  lemma LimitHoldsBackInserts(live: bool, gap: int, steps: seq<Step>, i: nat, j: nat)
    requires
      var trace := Run(Fresh(live, gap), steps).trace;
      && i < j < |trace| && Limits(trace[i]) && trace[j].Inserted? && trace[j].live
      && forall m | i < m < j :: !Limits(trace[m])
    ensures
      var trace := Run(Fresh(live, gap), steps).trace;
      trace[j].dispatchedAt >= trace[i].limit.value || exists m :: i < m < j && ClearsAt(trace[m], trace[i].limit.value)
  {
    RunRespects(live, gap, steps);
    var trace := Run(Fresh(live, gap), steps).trace;
    assert Respected(trace[..j], trace[j]);
    if forall m | i < m < j :: !ClearsAt(trace[m], trace[i].limit.value) {
      var before := trace[..j];
      assert before[i] == trace[i];
      forall m | i < m < |before| ensures !Limits(before[m]) && !ClearsAt(before[m], before[i].limit.value) {
        assert before[m] == trace[m];
      }
      LimitStands(before, i);
    }
  }

  /** No insert is dispatched earlier on the clock than a Start pressed before it. */
  ghost predicate ClockRuns(trace: seq<Event>) {
    forall m, j | 0 <= m < j < |trace| && trace[m].Started? && trace[j].Inserted? :: trace[m].now <= trace[j].dispatchedAt
  }

  /** With a clock that does not run backwards, a rate-limited result with retry delay `d`, finished
      at `f`, holds every later live insert back to `f + d`, until a later limit replaces it. */
  lemma RetryDelayIsWaitedOut(live: bool, gap: int, steps: seq<Step>, i: nat, j: nat)
    requires
      var trace := Run(Fresh(live, gap), steps).trace;
      && ClockRuns(trace) && i < j < |trace| && Limits(trace[i]) && trace[j].Inserted? && trace[j].live
      && forall m | i < m < j :: !Limits(trace[m])
    ensures
      var trace := Run(Fresh(live, gap), steps).trace;
      trace[j].dispatchedAt >= trace[i].limit.value
  {
    LimitHoldsBackInserts(live, gap, steps, i, j);
  }

  /** The one event a result leaves on record: its own row, with the delay it took in whole
      milliseconds, and the end of the cooldown it asks for. */
  ghost predicate RecordsResult(w: World, w': World, result: ExecutorResult, finishedAt: int)
    requires w.flight.Some?
  {
    && |w'.trace| == |w.trace| + 1 && w'.trace[..|w.trace|] == w.trace
    && var e := w'.trace[|w.trace|];
    && e.Recorded? && e.t == w.flight.value.t && e.row.id == w.flight.value.id
    && e.row.category == Some(result.category) && e.row.reason == result.reason
    && e.row.businessCode == result.businessCode && e.row.tranId == result.tranId && e.row.httpStatus == result.httpStatus
    && e.row.outcome == Resolved && e.row.finishedAt == Some(finishedAt) && e.row.latencyMs.Some?
    && 0 <= finishedAt - w.flight.value.dispatchedAt - 1000 * e.row.latencyMs.value < 1000
    && (var previous := PreviousDispatch(w.db.attempts, w.flight.value.id);
        e.row.effectiveGapUs == if previous.Some? then Some(w.flight.value.dispatchedAt - previous.value) else None)
    && e.banned == (result.category == RateLimited && result.httpStatus == Some(418))
    && e.limit == if result.category == RateLimited && result.retryAfterUs.Some?
                  then Some(finishedAt + result.retryAfterUs.value) else None
  }

  lemma FinishRecords(w: World, result: ExecutorResult, finishedAt: int)
    requires Structured(w) && Enabled(w, result)
    ensures RecordsResult(w, Apply(w, Finish(result, finishedAt)), result, finishedAt)
  {
    var i := FlightRow(w);
    assert w.db.attempts[i] in w.db.attempts;
  }

  /** Every result is put on record as it was. */
  lemma RecordedLimit(live: bool, gap: int, steps: seq<Step>, result: ExecutorResult, finishedAt: int)
    requires Enabled(Run(Fresh(live, gap), steps), result)
    ensures
      var w := Run(Fresh(live, gap), steps);
      RecordsResult(w, Apply(w, Finish(result, finishedAt)), result, finishedAt)
  {
    RunStructured(live, gap, steps);
    FinishRecords(Run(Fresh(live, gap), steps), result, finishedAt);
  }

  // ------------------------------------------------------------------ what a tick needs

  /** A tick inserts exactly when it is due, runs in the owner process, with credentials if it is
      live, meets no cooldown when scheduled, some task is borrowing, authorized, idle and below its
      target, and, in live mode, execution is on, armed and out of cooldown at the dispatch. */
  lemma TickNeeds(db: Tables, last: Option<int>, mode: Mode, now: int, scheduledAt: int, dispatchedAt: int)
    requires RowsPresent(db) && CreationOrdered(db)
    ensures TickInserts(db, last, mode, now, scheduledAt, dispatchedAt) <==>
      && (last.Some? ==> now - last.value >= db.settings.intervalUs)
      && mode.isOwner && (mode.live ==> mode.credentials)
      && (db.settings.cooldownUntil.Some? ==> db.settings.cooldownUntil.value <= scheduledAt)
      && (exists t :: t in db.tasks && Insertable(db.tasks[t], true))
      && (mode.live ==>
            && db.settings.executionEnabled && !db.settings.requiresRearm
            && (db.settings.cooldownUntil.Some? ==> db.settings.cooldownUntil.value <= dispatchedAt))
  {
    EligibleIsListing(db);
    var ids := ListEligible(db.order, db.tasks);
    if ids != [] {
      assert ids[NextPosition(ids, db.settings.cursor)] in ids;
    }
  }

  /** The task a tick serves is one of those, and every such task is listed for it. */
  lemma ListedAreInsertable(live: bool, gap: int, steps: seq<Step>, t: TaskId)
    ensures
      var db := Run(Fresh(live, gap), steps).db;
      t in ListEligible(db.order, db.tasks) <==> t in db.tasks && Insertable(db.tasks[t], true)
  {
    ReachableListing(live, gap, steps);
  }

  /** The dispatch a new row's gap is measured from: the newest dispatched row with a lower id. */
  lemma {:induction false} PreviousIsNewest(rows: seq<Attempt>, id: nat)
    ensures
      var p := PreviousDispatch(rows, id);
      if p.None? then forall k | 0 <= k < |rows| && rows[k].id < id :: rows[k].dispatchedAt.None?
      else exists k :: 0 <= k < |rows| && rows[k].id < id && rows[k].dispatchedAt == p
                       && forall m | k < m < |rows| && rows[m].id < id :: rows[m].dispatchedAt.None?
  {
    if rows != [] {
      var n := |rows| - 1;
      PreviousIsNewest(rows[..n], id);
      var p := PreviousDispatch(rows[..n], id);
      if !(rows[n].dispatchedAt.Some? && rows[n].id < id) {
        if p.Some? {
          var k :| 0 <= k < n && rows[..n][k].id < id && rows[..n][k].dispatchedAt == p
                   && forall m | k < m < n && rows[..n][m].id < id :: rows[..n][m].dispatchedAt.None?;
          assert rows[k] == rows[..n][k];
          forall m | k < m < |rows| && rows[m].id < id ensures rows[m].dispatchedAt.None? {
            if m < n { assert rows[m] == rows[..n][m]; }
          }
        } else {
          forall k | 0 <= k < |rows| && rows[k].id < id ensures rows[k].dispatchedAt.None? {
            if k < n { assert rows[k] == rows[..n][k]; }
          }
        }
      }
    }
  }

  /** Results share a line exactly when both are the same refusal, rate limit or disabled execution,
      with one reason and one business code; successes and unknowns never do. */
  lemma JoinsExactly(a: Attempt, b: Attempt)
    ensures Joins(a, b) <==>
      && a.category in {Some(KnownRejection), Some(RateLimited), Some(ExecutionDisabled)}
      && (a.category, a.reason, a.businessCode) == (b.category, b.reason, b.businessCode)
  {
  }

  /** A restart settles everything: no attempt is under way, no task waits, every row that was pending
      is an unknown result finished then, and nothing else has changed. */
  lemma RestartSettles(w: World, now: int, live: bool)
    ensures
      var w' := Apply(w, Restart(now, live));
      && w'.flight.None? && w'.live == live && w'.db.settings == w.db.settings
      && w'.db.order == w.db.order && w'.db.nextAttemptId == w.db.nextAttemptId && w'.edits == w.edits
      && w'.db.tasks.Keys == w.db.tasks.Keys
      && (forall t | t in w.db.tasks :: w'.db.tasks[t] == w.db.tasks[t].(unresolved := None))
      && |w'.db.attempts| == |w.db.attempts|
      && forall i | 0 <= i < |w.db.attempts| ::
           var a, b := w.db.attempts[i], w'.db.attempts[i];
           if a.outcome == Resolved then b == a
           else b.outcome == Resolved && b.category == Some(Unknown) && b.reason == Some(CRASH_ORPHAN)
                && b.id == a.id && b.taskId == a.taskId && b.sequence == a.sequence && b.dispatchedAt == a.dispatchedAt
                && (a.finishedAt.None? ==> b.finishedAt == Some(now))
  {
  }

  // ------------------------------------------------------------- columns of a task row

  /** What one step may do to a task's row: which step may write which column, and what version and
      count then are. */
  ghost predicate RowMoves(a: Task, b: Task, step: Step) {
    && b.asset == a.asset && b.creationSeq == a.creationSeq
    && (b == a || b.version == a.version + 1 || (step.Restart? && b == a.(unresolved := None)))
    && ((b.amount, b.successTarget) != (a.amount, a.successTarget) ==> step.WriteEdit?)
    && (b.liveAuthorized != a.liveAuthorized ==> step.WriteStatus? && step.authorize == Some(b.liveAuthorized))
    && (b.status != a.status ==>
          || (step.WriteStatus? && b.status == step.status)
          || (step.Finish? && step.result.category == Success && b.status == Completed && b.successCount >= a.successTarget))
    && (b.successCount != a.successCount ==>
          step.Finish? && step.result.category == Success && b.successCount == a.successCount + 1)
    && (b.latest != a.latest ==> step.Finish? && b.latest.Some? && b.latest.value.category == step.result.category)
    && (b.unresolved != a.unresolved ==>
          if step.Insert? then a.unresolved.None? else (step.Finish? || step.Restart?) && b.unresolved.None?)
  }

  lemma StepMovesRow(w: World, step: Step, t: TaskId)
    requires Structured(w) && t in w.db.tasks
    ensures t in Apply(w, step).db.tasks && RowMoves(w.db.tasks[t], Apply(w, step).db.tasks[t], step)
  {
    if step.Finish? {
      if Enabled(w, step.result) {
        var folded := FinishedRow(w, step.result, step.finishedAt);
        TaskAfterSettles(w.db.tasks[w.flight.value.t], step.result, step.finishedAt, folded);
      }
    }
  }

  /** Over any run's next step, every column of every task row changes only by the step that is meant
      to change it, and every written row carries the next version. */
  lemma ColumnsMoveAsMeant(live: bool, gap: int, steps: seq<Step>, step: Step, t: TaskId)
    requires t in Run(Fresh(live, gap), steps).db.tasks
    ensures
      var w := Run(Fresh(live, gap), steps);
      t in Apply(w, step).db.tasks && RowMoves(w.db.tasks[t], Apply(w, step).db.tasks[t], step)
  {
    RunStructured(live, gap, steps);
    StepMovesRow(Run(Fresh(live, gap), steps), step, t);
  }

  /** What a request asked for is what its row gets: a new task starts borrowing, authorized and at
      zero; a status write takes the status; an edit takes amount and target exactly when the row
      still has the version it names. */
  lemma WritesTakeEffect(w: World, step: Step, t: TaskId)
    ensures
      var w' := Apply(w, step);
      && (step.Create? && step.id == t && t !in w.db.tasks && step.target >= 1 ==>
            && t in w'.db.tasks
            && w'.db.tasks[t] == Task(step.asset, step.amount, step.target, 0, Borrowing, 1, w'.db.tasks[t].creationSeq, true, None, None))
      && (step.WriteStatus? && step.id == t && t in w.db.tasks ==>
            && t in w'.db.tasks && w'.db.tasks[t].status == step.status
            && (step.authorize.Some? ==> w'.db.tasks[t].liveAuthorized == step.authorize.value))
      && (step.WriteEdit? && step.k < |w.edits| && w.edits[step.k].id == t && t in w.db.tasks ==>
            && t in w'.db.tasks
            && (if w.db.tasks[t].version == w.edits[step.k].expected
                then (w'.db.tasks[t].amount, w'.db.tasks[t].successTarget) == (w.edits[step.k].amount, w.edits[step.k].target)
                else w'.db.tasks[t] == w.db.tasks[t]))
  {
  }

  /** The row an insert adds: the task's next sequence number and the next id, pending, dispatched
      when it says, for the amount it says; and the cursor moves to the task. */
  lemma InsertedRow(w: World, t: TaskId, asset: string, amount: string, scheduledAt: int, dispatchedAt: int)
    requires Apply(w, Insert(t, asset, amount, scheduledAt, dispatchedAt)) != w
    ensures
      var w' := Apply(w, Insert(t, asset, amount, scheduledAt, dispatchedAt));
      && |w'.db.attempts| == |w.db.attempts| + 1 && w'.db.attempts[..|w.db.attempts|] == w.db.attempts
      && var row := w'.db.attempts[|w.db.attempts|];
      && row.id == w.db.nextAttemptId && w'.db.nextAttemptId == row.id + 1
      && row.taskId == t && row.asset == asset && row.requestedAmount == amount && row.outcome == Pending
      && row.scheduledAt == scheduledAt && row.dispatchedAt == Some(dispatchedAt)
      && (forall i | 0 <= i < |w.db.attempts| && w.db.attempts[i].taskId == t :: w.db.attempts[i].sequence < row.sequence)
      && (row.sequence == 1 || exists i :: 0 <= i < |w.db.attempts| && w.db.attempts[i].taskId == t
                                           && w.db.attempts[i].sequence == row.sequence - 1)
      && w'.db.settings == w.db.settings.(cursor := Some(t))
      && t in w'.db.tasks && w'.db.tasks[t].unresolved == Some(row.id)
  {
    MaxSequenceIsMax(w.db.attempts, t);
  }
}
