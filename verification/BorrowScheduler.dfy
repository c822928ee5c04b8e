/** Round-robin choice, dispatch cadence and the dispatching service of the borrow scheduler. */
module BorrowScheduler {
  import opened Options
  import opened Arithmetic
  import opened BorrowDomain
  import opened BorrowStore
  import opened BorrowProtocol

  // ------------------------------------------------------------- creation order

  /** Row order is creation order: no id twice, creation numbers strictly rising. */
  ghost predicate CreationOrdered(db: Tables) {
    && (forall t | t in db.order :: t in db.tasks)
    && (forall i, j | 0 <= i < j < |db.order| :: db.tasks[db.order[i]].creationSeq < db.tasks[db.order[j]].creationSeq)
  }

  lemma CreateKeepsOrder(db: Tables, id: TaskId, asset: string, amount: string, target: int)
    requires CreationOrdered(db) && id !in db.tasks
    ensures CreationOrdered(CreateTask(db, id, asset, amount, target).value)
  {
    MaxCreationSeqIsMax(db.order, db.tasks);
    forall i | 0 <= i < |db.order| ensures db.order[i] in db.tasks && db.order[i] != id {
    }
  }

  lemma ColumnKeepsOrder(before: Tables, after: Tables)
    requires CreationOrdered(before) && after.order == before.order
    requires forall t | t in before.tasks :: t in after.tasks && after.tasks[t].creationSeq == before.tasks[t].creationSeq
    ensures CreationOrdered(after)
  {
  }

  lemma StepCreationOrdered(w: World, step: Step)
    requires Structured(w) && CreationOrdered(w.db)
    ensures CreationOrdered(Apply(w, step).db)
  {
    if step.Create? {
      if step.id !in w.db.tasks {
        CreateKeepsOrder(w.db, step.id, step.asset, step.amount, step.target);
      }
    } else {
      SeqColumnStays(w, step);
      ColumnKeepsOrder(w.db, Apply(w, step).db);
    }
  }

  lemma SeqColumnStays(w: World, step: Step)
    requires RowsPresent(w.db)
    ensures
      var db := Apply(w, step).db;
      forall t | t in w.db.tasks :: t in db.tasks && db.tasks[t].creationSeq == w.db.tasks[t].creationSeq
    ensures !step.Create? ==> Apply(w, step).db.order == w.db.order
  {
  }

  lemma {:induction false} RunCreationOrdered(live: bool, gap: int, steps: seq<Step>)
    ensures CreationOrdered(Run(Fresh(live, gap), steps).db)
  {
    if steps != [] {
      var n := |steps| - 1;
      RunStructured(live, gap, steps[..n]);
      RunCreationOrdered(live, gap, steps[..n]);
      StepCreationOrdered(Run(Fresh(live, gap), steps[..n]), steps[n]);
    }
  }

  /** A candidate row handed to the selection. */
  datatype Candidate = Candidate(id: TaskId, creationSeq: int)

  /** Candidates as the store lists them: creation numbers strictly rising, ids distinct. */
  ghost predicate Listing(l: seq<Candidate>) {
    && (forall i, j | 0 <= i < j < |l| :: l[i].creationSeq < l[j].creationSeq)
    && (forall i, j | 0 <= i < j < |l| :: l[i].id != l[j].id)
  }

  function Candidates(db: Tables, ids: seq<TaskId>): seq<Candidate>
    requires forall t | t in ids :: t in db.tasks
  {
    seq(|ids|, i requires 0 <= i < |ids| => Candidate(ids[i], db.tasks[ids[i]].creationSeq))
  }

  lemma {:induction false} EligibleFacts(db: Tables, order: seq<TaskId>)
    requires forall t | t in order :: t in db.tasks
    requires forall i, j | 0 <= i < j < |order| :: db.tasks[order[i]].creationSeq < db.tasks[order[j]].creationSeq
    ensures
      var ids := ListEligible(order, db.tasks);
      && (forall t :: t in ids <==> t in order && Eligible(db.tasks[t]))
      && (forall i, j | 0 <= i < j < |ids| :: db.tasks[ids[i]].creationSeq < db.tasks[ids[j]].creationSeq)
  {
    if order != [] {
      var n := |order| - 1;
      EligibleFacts(db, order[..n]);
      var rest := ListEligible(order[..n], db.tasks);
      assert order == order[..n] + [order[n]];
      forall i | 0 <= i < |rest| ensures db.tasks[rest[i]].creationSeq < db.tasks[order[n]].creationSeq {
        assert rest[i] in order[..n];
      }
    }
  }

  ghost predicate Distinct(ids: seq<TaskId>) {
    forall i, j | 0 <= i < j < |ids| :: ids[i] != ids[j]
  }

  /** What the scheduler is handed: exactly the eligible tasks, in creation order. */
  ghost predicate ListsEligible(db: Tables, ids: seq<TaskId>) {
    && (forall t :: t in ids <==> t in db.tasks && Eligible(db.tasks[t]))
    && Distinct(ids)
    && Listing(Candidates(db, ids))
  }

  lemma EligibleIsListing(db: Tables)
    requires RowsPresent(db) && CreationOrdered(db)
    ensures ListsEligible(db, ListEligible(db.order, db.tasks))
  {
    EligibleFacts(db, db.order);
  }

  // ------------------------------------------------------------------ selection

  function Ids(l: seq<Candidate>): (r: seq<TaskId>)
    ensures |r| == |l| && forall i | 0 <= i < |l| :: r[i] == l[i].id
  {
    seq(|l|, i requires 0 <= i < |l| => l[i].id)
  }

  /** Position of the cursor task among the candidates. */
  function Position(ids: seq<TaskId>, id: TaskId): (r: Option<nat>)
    ensures r.Some? ==> r.value < |ids| && ids[r.value] == id
    ensures r.None? ==> id !in ids
  {
    if ids == [] then None
    else if ids[|ids| - 1] == id then Some(|ids| - 1)
    else Position(ids[..|ids| - 1], id)
  }

  /** The cyclic successor of the cursor; the first candidate when the cursor is not among them. */
  function NextPosition(ids: seq<TaskId>, cursor: Option<TaskId>): (p: nat)
    requires ids != []
    ensures p < |ids|
  {
    if cursor.None? || Position(ids, cursor.value).None? then 0
    else if Position(ids, cursor.value).value + 1 < |ids| then Position(ids, cursor.value).value + 1
    else 0
  }

  /** First scan: the creation number of the cursor task, if it is a candidate. */
  method FindCursor(l: seq<Candidate>, cursor: TaskId) returns (cursorSeq: Option<int>)
    requires Listing(l)
    ensures
      var p := Position(Ids(l), cursor);
      cursorSeq == if p.None? then None else Some(l[p.value].creationSeq)
  {
    for i := 0 to |l|
      invariant forall j | 0 <= j < i :: l[j].id != cursor
    {
      if l[i].id == cursor {
        assert Position(Ids(l), cursor) == Some(i) by {
          assert Ids(l)[i] == cursor;
        }
        return Some(l[i].creationSeq);
      }
    }
    return None;
  }

  /** Second scan: the first candidate created after the cursor task, else wrap around. */
  method SelectNextTask(l: seq<Candidate>, cursor: Option<TaskId>) returns (r: Option<Candidate>)
    requires Listing(l)
    ensures l == [] ==> r.None?
    ensures l != [] ==> r == Some(l[NextPosition(Ids(l), cursor)])
  {
    if l == [] {
      return None;
    }
    if cursor.None? {
      return Some(l[0]);
    }
    var cursorSeq := FindCursor(l, cursor.value);
    ghost var p := Position(Ids(l), cursor.value);
    for i := 0 to |l|
      invariant cursorSeq.None? ==> i == 0
      invariant cursorSeq.Some? ==> i <= p.value + 1
    {
      if cursorSeq.None? || l[i].creationSeq > cursorSeq.value {
        return Some(l[i]);
      }
    }
    return Some(l[0]);
  }

  // ------------------------------------------------------------------- fairness

  lemma StepCursor(w: World, step: Step)
    requires !step.Insert?
    ensures Apply(w, step).db.settings.cursor == w.db.settings.cursor
  {
  }

  lemma {:induction false} CursorStays(w: World, steps: seq<Step>)
    requires forall k | 0 <= k < |steps| :: !steps[k].Insert?
    ensures Run(w, steps).db.settings.cursor == w.db.settings.cursor
  {
    if steps != [] {
      var n := |steps| - 1;
      CursorStays(w, steps[..n]);
      StepCursor(Run(w, steps[..n]), steps[n]);
    }
  }

  /** One dispatch and whatever follows it up to the next dispatch. */
  datatype Round = Round(insert: Step, rest: seq<Step>)

  function AfterRounds(w: World, rounds: seq<Round>): World {
    if rounds == [] then w
    else
      var n := |rounds| - 1;
      Run(Apply(AfterRounds(w, rounds[..n]), rounds[n].insert), rounds[n].rest)
  }

  /** Round `k` finds the eligible tasks `ids`, inserts for the selected one, and is followed by
      anything but another dispatch. */
  predicate SteadyRound(before: World, ids: seq<TaskId>, round: Round)
    requires ids != []
  {
    && ListEligible(before.db.order, before.db.tasks) == ids
    && round.insert.Insert?
    && round.insert.t == ids[NextPosition(ids, before.db.settings.cursor)]
    && Apply(before, round.insert) != before
    && forall k | 0 <= k < |round.rest| :: !round.rest[k].Insert?
  }

  predicate SteadyRounds(w: World, ids: seq<TaskId>, rounds: seq<Round>)
    requires ids != []
  {
    rounds == []
    || var n := |rounds| - 1;
       SteadyRounds(w, ids, rounds[..n]) && SteadyRound(AfterRounds(w, rounds[..n]), ids, rounds[n])
  }

  lemma NextAfter(ids: seq<TaskId>, i: nat)
    requires Distinct(ids) && i < |ids|
    ensures NextPosition(ids, Some(ids[i])) == if i + 1 < |ids| then i + 1 else 0
  {
  }

  lemma RoundMovesCursor(before: World, ids: seq<TaskId>, round: Round)
    requires ids != [] && SteadyRound(before, ids, round)
    ensures Run(Apply(before, round.insert), round.rest).db.settings.cursor == Some(round.insert.t)
  {
    CursorStays(Apply(before, round.insert), round.rest);
  }

  lemma {:induction false} RoundAt(w: World, ids: seq<TaskId>, rounds: seq<Round>, k: nat)
    requires ids != [] && SteadyRounds(w, ids, rounds) && k < |rounds|
    ensures SteadyRound(AfterRounds(w, rounds[..k]), ids, rounds[k])
  {
    var n := |rounds| - 1;
    if k < n {
      RoundAt(w, ids, rounds[..n], k);
      assert rounds[..n][..k] == rounds[..k];
    }
  }

  lemma CursorAt(w: World, ids: seq<TaskId>, rounds: seq<Round>, k: nat)
    requires ids != [] && SteadyRounds(w, ids, rounds) && 0 < k <= |rounds|
    ensures rounds[k - 1].insert.Insert?
    ensures AfterRounds(w, rounds[..k]).db.settings.cursor == Some(rounds[k - 1].insert.t)
  {
    RoundAt(w, ids, rounds, k - 1);
    assert rounds[..k][..k - 1] == rounds[..k - 1];
    RoundMovesCursor(AfterRounds(w, rounds[..k - 1]), ids, rounds[k - 1]);
  }

  ghost predicate Serves(round: Round, id: TaskId) {
    round.insert.Insert? && round.insert.t == id
  }

  /** The position in the eligible list that round `k` serves. */
  function Served(w: World, ids: seq<TaskId>, k: nat): (q: nat)
    requires ids != []
    ensures q < |ids|
  {
    (NextPosition(ids, w.db.settings.cursor) + k) % |ids|
  }

  lemma ServedNext(w: World, ids: seq<TaskId>, k: nat)
    requires ids != [] && k > 0
    ensures Served(w, ids, k) == if Served(w, ids, k - 1) + 1 < |ids| then Served(w, ids, k - 1) + 1 else 0
  {
    ModStep(NextPosition(ids, w.db.settings.cursor) + k - 1, |ids|);
  }

  lemma ServedFirst(w: World, ids: seq<TaskId>)
    requires ids != []
    ensures Served(w, ids, 0) == NextPosition(ids, w.db.settings.cursor)
  {
    DivModUnique(NextPosition(ids, w.db.settings.cursor), |ids|, 0, NextPosition(ids, w.db.settings.cursor));
  }

  /** The task dispatched in round `k`: the eligible tasks in cyclic creation order. */
  lemma {:induction false} CyclicOrder(w: World, ids: seq<TaskId>, rounds: seq<Round>, k: nat)
    requires ids != [] && Distinct(ids) && SteadyRounds(w, ids, rounds) && k < |rounds|
    ensures Serves(rounds[k], ids[Served(w, ids, k)])
  {
    RoundAt(w, ids, rounds, k);
    if k == 0 {
      assert rounds[..0] == [];
      ServedFirst(w, ids);
    } else {
      CyclicOrder(w, ids, rounds, k - 1);
      CursorAt(w, ids, rounds, k);
      NextAfter(ids, Served(w, ids, k - 1));
      ServedNext(w, ids, k);
    }
  }

  lemma ServedApart(w: World, ids: seq<TaskId>, k: nat, m: nat)
    requires ids != [] && k != m && m < k + |ids| && k < m + |ids|
    ensures Served(w, ids, k) != Served(w, ids, m)
  {
    ResiduesDiffer(NextPosition(ids, w.db.settings.cursor), |ids|, k, m);
  }

  lemma ServedSomewhere(w: World, ids: seq<TaskId>, start: nat, j: nat) returns (k: nat)
    requires j < |ids|
    ensures start <= k < start + |ids| && Served(w, ids, k) == j
  {
    k := Residue(NextPosition(ids, w.db.settings.cursor) + start, |ids|, j);
    k := start + k;
  }

  lemma ServesOnly(round: Round, ids: seq<TaskId>, q: nat, j: nat)
    requires Distinct(ids) && q < |ids| && j < |ids| && q != j && Serves(round, ids[q])
    ensures !Serves(round, ids[j])
  {
  }

  /** While the eligible set stays `ids`, any |ids| consecutive dispatches from round `start` on
      serve every eligible task exactly once. */
  lemma EveryTaskOncePerCycle(w: World, ids: seq<TaskId>, rounds: seq<Round>, start: nat, j: nat) returns (k: nat)
    requires ids != [] && Distinct(ids) && SteadyRounds(w, ids, rounds)
    requires start + |ids| <= |rounds| && j < |ids|
    ensures start <= k < start + |ids| && Serves(rounds[k], ids[j])
    ensures forall m | start <= m < start + |ids| && m != k :: !Serves(rounds[m], ids[j])
  {
    k := ServedSomewhere(w, ids, start, j);
    CyclicOrder(w, ids, rounds, k);
    forall m | start <= m < start + |ids| && m != k ensures !Serves(rounds[m], ids[j]) {
      CyclicOrder(w, ids, rounds, m);
      ServedApart(w, ids, k, m);
      ServesOnly(rounds[m], ids, Served(w, ids, m), j);
    }
  }

  lemma RunRows(live: bool, gap: int, steps: seq<Step>)
    ensures RowsPresent(Run(Fresh(live, gap), steps).db)
  {
    RunStructured(live, gap, steps);
  }

  /** In every reachable state the eligible list meets what the selection and the fairness
      argument ask of it. */
  lemma ReachableListing(live: bool, gap: int, steps: seq<Step>)
    ensures
      var db := Run(Fresh(live, gap), steps).db;
      ListsEligible(db, ListEligible(db.order, db.tasks))
  {
    RunRows(live, gap, steps);
    RunCreationOrdered(live, gap, steps);
    EligibleIsListing(Run(Fresh(live, gap), steps).db);
  }

  // -------------------------------------------------------------------- cadence

  /** The interval in force is never below the floor. */
  predicate IntervalFloor(db: Tables) {
    db.settings.intervalUs >= MIN_INTERVAL_US
  }

  lemma StepIntervalFloor(w: World, step: Step)
    requires IntervalFloor(w.db)
    ensures IntervalFloor(Apply(w, step).db)
  {
    if step.PutInterval? && ParseInterval(step.text).Some? {
      ParseIntervalExact(step.text, ParseInterval(step.text).value);
    }
  }

  /** Whatever interval texts were sent, every reachable world has an interval of at least 100000
      microseconds in force. */
  lemma {:induction false} ReachableIntervals(live: bool, gap: int, steps: seq<Step>)
    ensures IntervalFloor(Run(Fresh(live, gap), steps).db)
  {
    if steps != [] {
      var n := |steps| - 1;
      ReachableIntervals(live, gap, steps[..n]);
      StepIntervalFloor(Run(Fresh(live, gap), steps[..n]), steps[n]);
    }
  }

  predicate Due(last: Option<int>, now: int, intervalUs: int) {
    last.None? || now >= last.value + intervalUs
  }

  /** What the dispatching process is: fixed when it starts. */
  datatype Mode = Mode(isOwner: bool, live: bool, credentials: bool)

  /** The gates a dispatch passes before it reads the candidate list. */
  predicate MayDispatch(mode: Mode, s: Settings, scheduledAt: int) {
    && mode.isOwner && (mode.live ==> mode.credentials)
    && !(s.cooldownUntil.Some? && s.cooldownUntil.value > scheduledAt)
  }

  /** The task a dispatch would serve. */
  function Chosen(db: Tables): Option<TaskId> {
    var ids := ListEligible(db.order, db.tasks);
    if ids == [] then None else Some(ids[NextPosition(ids, db.settings.cursor)])
  }

  predicate TickInserts(db: Tables, last: Option<int>, mode: Mode, now: int, scheduledAt: int, dispatchedAt: int) {
    && Due(last, now, db.settings.intervalUs)
    && MayDispatch(mode, db.settings, scheduledAt)
    && Chosen(db).Some? && MayInsert(db, Chosen(db).value, dispatchedAt, mode.live)
  }

  /** One dispatching process with the world it works on: its last due tick on the monotonic
      clock, and the times at which it dispatched since it started. */
  datatype Process = Process(w: World, last: Option<int>, times: seq<int>)

  datatype Action =
    | TickAt(mode: Mode, now: int, scheduledAt: int, dispatchedAt: int)
    | Other(step: Step)

  /** A tick holds the service lock through its dispatch, so no tick meets a flight; only ticks
      insert; a restart begins a new process with a clock of its own. */
  function Act(p: Process, a: Action): Process {
    if a.Other? then
      if a.step.Insert? then p
      else if a.step.Restart? then Process(Apply(p.w, a.step), None, [])
      else p.(w := Apply(p.w, a.step))
    else if p.w.flight.Some? || a.mode.live != p.w.live || !Due(p.last, a.now, p.w.db.settings.intervalUs) then p
    else if !TickInserts(p.w.db, p.last, a.mode, a.now, a.scheduledAt, a.dispatchedAt) then p.(last := Some(a.now))
    else
      var t := Chosen(p.w.db).value;
      var task := p.w.db.tasks[t];
      Process(Apply(p.w, Insert(t, task.asset, task.amount, a.scheduledAt, a.dispatchedAt)), Some(a.now), p.times + [a.now])
  }

  function ProcessRun(p: Process, actions: seq<Action>): Process
    decreases |actions|
  {
    if actions == [] then p else Act(ProcessRun(p, actions[..|actions| - 1]), actions[|actions| - 1])
  }

  function Booted(live: bool, gap: int): Process {
    Process(Fresh(live, gap), None, [])
  }

  function CountWithin(times: seq<int>, from: int, to: int): nat {
    if times == [] then 0
    else
      var n := |times| - 1;
      CountWithin(times[..n], from, to) + if from <= times[n] <= to then 1 else 0
  }

  ghost predicate Spaced(times: seq<int>) {
    forall i, j | 0 <= i < j < |times| :: times[i] + MIN_INTERVAL_US <= times[j]
  }

  ghost predicate NoLaterThan(times: seq<int>, last: Option<int>) {
    forall i | 0 <= i < |times| :: last.Some? && times[i] <= last.value
  }

  /** Times spaced by the interval floor, none after the last due tick. */
  ghost predicate Paced(p: Process) {
    IntervalFloor(p.w.db) && Spaced(p.times) && NoLaterThan(p.times, p.last)
  }

  lemma ActPaced(p: Process, a: Action)
    requires Paced(p)
    ensures Paced(Act(p, a))
  {
    if a.Other? {
      StepIntervalFloor(p.w, a.step);
    } else if p.w.flight.None? && TickInserts(p.w.db, p.last, a.mode, a.now, a.scheduledAt, a.dispatchedAt) {
      var t := Chosen(p.w.db).value;
      StepIntervalFloor(p.w, Insert(t, p.w.db.tasks[t].asset, p.w.db.tasks[t].amount, a.scheduledAt, a.dispatchedAt));
    }
  }

  /** Missed ticks are never replayed: whatever the delays, interval changes and other
      transactions, a process's dispatches are at least the interval floor apart. */
  lemma {:induction false} DispatchesSpaced(live: bool, gap: int, actions: seq<Action>)
    ensures Paced(ProcessRun(Booted(live, gap), actions))
  {
    if actions != [] {
      var n := |actions| - 1;
      DispatchesSpaced(live, gap, actions[..n]);
      ActPaced(ProcessRun(Booted(live, gap), actions[..n]), actions[n]);
    }
  }

  lemma {:induction false} SpacedCount(times: seq<int>, from: int, to: int)
    requires Spaced(times)
    ensures from <= to ==> CountWithin(times, from, to) <= (to - from) / MIN_INTERVAL_US + 1
    ensures from > to ==> CountWithin(times, from, to) == 0
  {
    if times != [] {
      var n := |times| - 1;
      if from <= times[n] <= to {
        SameBelow(times[..n], from, to, times[n] - MIN_INTERVAL_US);
        SpacedCount(times[..n], from, times[n] - MIN_INTERVAL_US);
      } else {
        SpacedCount(times[..n], from, to);
      }
    }
  }

  lemma {:induction false} SameBelow(times: seq<int>, from: int, to: int, to': int)
    requires forall i | 0 <= i < |times| :: times[i] <= to'
    requires to' <= to
    ensures CountWithin(times, from, to) == CountWithin(times, from, to')
  {
    if times != [] {
      SameBelow(times[..|times| - 1], from, to, to');
    }
  }

  /** Whatever delays or interval changes happen, a window of `width` microseconds of one
      process's monotonic time holds at most `width / 100000 + 1` dispatches. */
  lemma DispatchRateBound(live: bool, gap: int, actions: seq<Action>, from: int, width: nat)
    ensures CountWithin(ProcessRun(Booted(live, gap), actions).times, from, from + width) <= width / MIN_INTERVAL_US + 1
  {
    DispatchesSpaced(live, gap, actions);
    SpacedCount(ProcessRun(Booted(live, gap), actions).times, from, from + width);
  }

  /** The process's world is always one the protocol reaches, so all that holds after every run of
      the protocol holds here. */
  lemma {:induction false} ProcessFollowsProtocol(live: bool, gap: int, actions: seq<Action>) returns (steps: seq<Step>)
    ensures ProcessRun(Booted(live, gap), actions).w == Run(Fresh(live, gap), steps)
  {
    steps := [];
    if actions != [] {
      var n := |actions| - 1;
      steps := ProcessFollowsProtocol(live, gap, actions[..n]);
      var p, a := ProcessRun(Booted(live, gap), actions[..n]), actions[n];
      if Act(p, a).w != p.w {
        var step := ActStep(p, a);
        RunSnoc(Fresh(live, gap), steps, step);
        steps := steps + [step];
      }
    }
  }

  lemma ActStep(p: Process, a: Action) returns (step: Step)
    requires Act(p, a).w != p.w
    ensures Act(p, a).w == Apply(p.w, step)
  {
    if a.Other? {
      step := a.step;
    } else {
      var t := Chosen(p.w.db).value;
      step := Insert(t, p.w.db.tasks[t].asset, p.w.db.tasks[t].amount, a.scheduledAt, a.dispatchedAt);
    }
  }

  /** A tick action has exactly the outcome `BorrowService.Tick` promises: the due mark, the insert
      and its effect on the tables, and one more dispatch time exactly when it inserts. */
  lemma TickIsTheServicesTick(p: Process, mode: Mode, now: int, scheduledAt: int, dispatchedAt: int)
    requires p.w.flight.None? && mode.live == p.w.live
    ensures
      var q := Act(p, TickAt(mode, now, scheduledAt, dispatchedAt));
      var inserts := TickInserts(p.w.db, p.last, mode, now, scheduledAt, dispatchedAt);
      && q.last == (if Due(p.last, now, p.w.db.settings.intervalUs) then Some(now) else p.last)
      && q.times == (if inserts then p.times + [now] else p.times)
      && (!inserts ==> q.w == p.w)
      && (inserts ==>
            var t := Chosen(p.w.db).value;
            InsertPending(p.w.db, t, p.w.db.tasks[t].asset, p.w.db.tasks[t].amount, scheduledAt, dispatchedAt, t, mode.live)
              == Some(q.w.db))
  {
  }

  // -------------------------------------------------------------------- service

  /** The dispatching side of the service: due-tick check, gates, selection and insert, and the
      resolve after the executor call. Other transactions may run between any two of its calls
      on the store; the protocol model covers those interleavings. */
  class BorrowService {
    const store: BorrowTaskStore
    const mode: Mode
    var lastTick: Option<int>
    var inFlight: Option<nat>

    constructor (store: BorrowTaskStore, mode: Mode)
      ensures this.store == store && this.mode == mode && lastTick.None? && inFlight.None?
    {
      this.store, this.mode, lastTick, inFlight := store, mode, None, None;
    }

    /** Replace the interval, unless the text is rejected. */
    method PutSettings(text: string) returns (ok: bool)
      modifies store
      ensures ok == ParseInterval(text).Some?
      ensures store.Contents() == if ok then old(store.Contents()).(settings := old(store.settings).(intervalUs := ParseInterval(text).value))
                                  else old(store.Contents())
      ensures IntervalFloor(old(store.Contents())) ==> IntervalFloor(store.Contents())
    {
      var us := ParseInterval(text);
      ok := us.Some?;
      if ok {
        ParseIntervalExact(text, us.value);
        store.UpdateInterval(us.value);
      }
    }

    /** One due-tick check: the outcome is that of the process's tick action. */
    method Tick(now: int, scheduledAt: int, dispatchedAt: int) returns (attempt: Option<Attempt>)
      requires RowsPresent(store.Contents()) && CreationOrdered(store.Contents())
      modifies this, store
      ensures
        var before := old(store.Contents());
        && lastTick == (if Due(old(lastTick), now, before.settings.intervalUs) then Some(now) else old(lastTick))
        && (attempt.Some? <==> TickInserts(before, old(lastTick), mode, now, scheduledAt, dispatchedAt))
        && (attempt.None? ==> store.Contents() == before && inFlight == old(inFlight))
        && (attempt.Some? ==>
              var t := Chosen(before).value;
              && inFlight == Some(attempt.value.id) && attempt.value.id == before.nextAttemptId
              && InsertPending(before, t, before.tasks[t].asset, before.tasks[t].amount, scheduledAt, dispatchedAt, t, mode.live)
                 == Some(store.Contents()))
    {
      if lastTick.Some? && now < lastTick.value + store.settings.intervalUs {
        return None;
      }
      lastTick := Some(now);
      if !MayDispatch(mode, store.settings, scheduledAt) {
        return None;
      }
      EligibleIsListing(store.Contents());
      var ids := ListEligible(store.order, store.tasks);
      var candidates := seq(|ids|, i requires 0 <= i < |ids| reads store requires ids[i] in store.tasks =>
                                     Candidate(ids[i], store.tasks[ids[i]].creationSeq));
      assert candidates == Candidates(store.Contents(), ids) && Ids(candidates) == ids;
      var chosen := SelectNextTask(candidates, store.settings.cursor);
      if chosen.None? {
        return None;
      }
      var t := chosen.value.id;
      attempt := store.InsertPendingAttempt(t, store.tasks[t].asset, store.tasks[t].amount, scheduledAt, dispatchedAt, t, mode.live);
      if attempt.Some? {
        inFlight := Some(attempt.value.id);
      }
    }

    /** After the executor call: forget the in-flight id and resolve the attempt. */
    method EndDispatch(id: nat, result: ExecutorResult, finishedAt: int)
      modifies this`inFlight, store
      ensures inFlight.None?
      ensures
        var after := ResolveAttempt(old(store.Contents()), id, result, finishedAt);
        store.Contents() == if after.Some? then after.value else old(store.Contents())
    {
      inFlight := None;
      var ok := store.Resolve(id, result, finishedAt);
    }
  }
}
