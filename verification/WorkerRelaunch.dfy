/** What a relaunch asked of the registered worker is worth: when another thread can take it, when
    it can be lost, and what holds otherwise. */
module WorkerRelaunch {
  import opened Options
  import opened WorkerProtocol

  /** `ensure_worker(relaunch_after_current=True)` in state `s`. */
  function Asked(s: State): State {
    Apply(s, Ensure(true))
  }

  /** A thread that has left the registry and not yet read the flag. */
  ghost predicate LeavingReader(s: State) {
    exists u: nat :: u < |s.threads| && s.threads[u] == ReadingFlag
  }

  predicate FacesSetFlag(s: State, u: nat) {
    s.relaunch && u < |s.threads| && s.threads[u] == ReadingFlag
  }

  // ------------------------------------------------------------ who can take it

  /** Of the first `n` threads only `r` has still to read the flag. */
  ghost predicate OnlyReader(s: State, n: nat, r: nat) {
    n <= |s.threads| && forall t: nat | t < n && t != r :: !WillReadFlag(s.threads[t])
  }

  lemma EnsureKeepsThreads(s: State, relaunch: bool)
    ensures |s.threads| <= |EnsureWorker(s, relaunch).threads|
    ensures forall t: nat | t < |s.threads| :: EnsureWorker(s, relaunch).threads[t] == s.threads[t]
  {
  }

  lemma ExitMovesOn(s: State, step: Step, t: nat)
    requires ExitStepOf(step) && step.t < |s.threads| && t < |s.threads|
    ensures t < |Apply(s, step).threads|
    ensures WillReadFlag(Apply(s, step).threads[t]) ==> WillReadFlag(s.threads[t])
  {
    if step.Launch? && s.threads[step.t] == Launching {
      EnsureKeepsThreads(SetThread(s, step.t, Dead), false);
    }
  }

  /** No thread goes back to before its reading of the flag, and none disappears. */
  lemma NoWayBack(s: State, step: Step, t: nat)
    requires t < |s.threads|
    ensures t < |Apply(s, step).threads|
    ensures WillReadFlag(Apply(s, step).threads[t]) ==> WillReadFlag(s.threads[t])
  {
    if GateStep(step) {
      GateStepOwnership(s, step);
    } else if step.Ensure? {
      EnsureKeepsThreads(s, step.relaunchAfterCurrent);
    } else if ExitStepOf(step) && step.t < |s.threads| {
      ExitMovesOn(s, step, t);
    }
  }

  lemma StepKeepsOnlyReader(s: State, step: Step, n: nat, r: nat)
    requires OnlyReader(s, n, r)
    ensures OnlyReader(Apply(s, step), n, r)
  {
    if n > 0 {
      NoWayBack(s, step, n - 1);
    }
    forall t: nat | t < n && t != r ensures !WillReadFlag(Apply(s, step).threads[t]) {
      NoWayBack(s, step, t);
    }
  }

  lemma {:induction false} RunKeepsOnlyReader(s: State, steps: seq<Step>, n: nat, r: nat)
    requires OnlyReader(s, n, r)
    ensures OnlyReader(Run(s, steps), n, r)
  {
    if steps != [] {
      RunKeepsOnlyReader(s, steps[..|steps| - 1], n, r);
      StepKeepsOnlyReader(Run(s, steps[..|steps| - 1]), steps[|steps| - 1], n, r);
    }
  }

  lemma AskedState(s: State, r: nat)
    requires SingleOwner(s) && s.registered == Some(r)
    ensures Asked(s) == s.(relaunch := true)
    ensures !LeavingReader(s) ==> OnlyReader(Asked(s), |s.threads|, r)
  {
    assert Owner(s.threads[r]);
    if !LeavingReader(s) {
      forall t: nat | t < |s.threads| && t != r ensures !WillReadFlag(s.threads[t]) {
        assert s.threads[t] != ReadingFlag;
      }
    }
  }

  /** Some continuation of the request puts a thread that already existed, other than the worker
      asked, in front of the set flag. */
  ghost predicate OlderMayTake(s: State, r: nat) {
    exists steps: seq<Step>, u: nat :: u < |s.threads| && u != r && FacesSetFlag(Run(Asked(s), steps), u)
  }

  /** An older thread can take a request made to the registered worker exactly when, at the request,
      some thread is out of the registry but has not read the flag. */
  lemma OlderTakesExactly(running: bool, startGate: bool, before: seq<Step>, r: nat)
    requires Run(Initial(running, startGate), before).registered == Some(r)
    ensures
      var s := Run(Initial(running, startGate), before);
      OlderMayTake(s, r) <==> exists u: nat :: u < |s.threads| && s.threads[u] == ReadingFlag
  {
    RunIsValid(running, startGate, before);
    var s := Run(Initial(running, startGate), before);
    AskedState(s, r);
    if u: nat :| u < |s.threads| && s.threads[u] == ReadingFlag {
      assert Owner(s.threads[r]) && u != r;
      assert FacesSetFlag(Run(Asked(s), []), u);
    } else {
      assert !LeavingReader(s);
      forall steps: seq<Step>, u: nat | u < |s.threads| && u != r
        ensures !FacesSetFlag(Run(Asked(s), steps), u)
      {
        RunKeepsOnlyReader(Asked(s), steps, |s.threads|, r);
      }
    }
  }

  // ---------------------------------------------- with no leaving reader: it is served

  /** The worker asked, or a thread started after the request; `n` threads existed then. */
  predicate Entitled(x: nat, n: nat, r: nat) {
    x == r || x >= n
  }

  ghost predicate EntitledDecides(s: State, n: nat, r: nat) {
    exists x: nat :: Entitled(x, n, r) && x < |s.threads| && Deciding(s.threads[x])
  }

  /** The registered worker was started after the request. */
  predicate LaterWorker(s: State, n: nat) {
    s.registered.Some? && s.registered.value >= n
  }

  predicate Serves(s: State, step: Step, n: nat, r: nat) {
    LaunchedBy(s, step) && Entitled(step.t, n, r) && LaterWorker(Apply(s, step), n)
  }

  /** Acting on the request, an entitled thread made sure of a worker that started after it. */
  ghost predicate Served(s: State, steps: seq<Step>, n: nat, r: nat) {
    exists k: nat :: k < |steps| && Serves(Run(s, steps[..k]), steps[k], n, r)
  }

  /** The worker asked is still registered and the flag stands, or it is gone for good. */
  ghost predicate StandsUntilGone(s: State, n: nat, r: nat) {
    && OnlyReader(s, n, r) && r < n
    && (|s.threads| > n ==> s.registered != Some(r))
    && (s.registered == Some(r) ==> s.relaunch)
  }

  /** A worker is registered only when none was, and then it is a new thread. */
  predicate RegistryMoves(s: State, s': State) {
    || (s'.registered == s.registered && |s'.threads| == |s.threads|)
    || (s'.registered == None && |s'.threads| == |s.threads|)
    || (s.registered == None && s'.registered == Some(|s.threads|) && |s'.threads| == |s.threads| + 1)
  }

  lemma EnsureRegisters(s: State, relaunch: bool)
    requires SingleOwner(s)
    ensures RegistryMoves(s, EnsureWorker(s, relaunch))
  {
  }

  lemma ExitRegisters(s: State, step: Step)
    requires SingleOwner(s) && ExitStepOf(step) && step.t < |s.threads|
    ensures RegistryMoves(s, Apply(s, step))
  {
    if step.Launch? && s.threads[step.t] == Launching {
      MoveKeepsOwner(s, step.t, Dead);
      EnsureRegisters(SetThread(s, step.t, Dead), false);
    }
  }

  lemma RegisteredStays(s: State, step: Step)
    requires SingleOwner(s)
    ensures RegistryMoves(s, Apply(s, step))
  {
    if GateStep(step) {
      GateStepOwnership(s, step);
    } else if step.Ensure? {
      EnsureRegisters(s, step.relaunchAfterCurrent);
    } else if ExitStepOf(step) && step.t < |s.threads| {
      ExitRegisters(s, step);
    }
  }

  /** Only a thread at its reading clears the flag, short of a service stop. */
  lemma FlagClearedByReader(s: State, step: Step)
    requires Steady(s) && s.relaunch && !Apply(s, step).relaunch
    ensures step.TakeFlag? && step.t < |s.threads| && s.threads[step.t] == ReadingFlag
    ensures Apply(s, step) == SetThread(s, step.t, CheckingStop).(relaunch := false)
  {
    if GateStep(step) {
      GateStepOwnership(s, step);
      assert false;
    }
  }

  lemma StandsAfterStep(s: State, step: Step, n: nat, r: nat)
    requires SingleOwner(s) && StandsUntilGone(s, n, r) && Steady(s)
    ensures StandsUntilGone(Apply(s, step), n, r)
  {
    StepKeepsOnlyReader(s, step, n, r);
    RegisteredStays(s, step);
    if s.registered == Some(r) && !Apply(s, step).relaunch {
      FlagClearedByReader(s, step);
      assert Owner(s.threads[r]) && step.t != r && WillReadFlag(s.threads[step.t]);
    }
  }

  lemma ReaderIsEntitled(s: State, step: Step, n: nat, r: nat)
    requires StandsUntilGone(s, n, r) && Steady(s) && s.relaunch && !Apply(s, step).relaunch
    ensures EntitledDecides(Apply(s, step), n, r)
  {
    FlagClearedByReader(s, step);
    assert WillReadFlag(s.threads[step.t]) && Entitled(step.t, n, r);
    assert Apply(s, step).threads[step.t] == CheckingStop;
  }

  lemma LaunchServes(s: State, step: Step, n: nat, r: nat)
    requires SingleOwner(s) && StandsUntilGone(s, n, r) && LaunchedBy(s, step) && Entitled(step.t, n, r)
    ensures Serves(s, step, n, r)
  {
    LaunchKeepsOwner(s, step.t);
    RegisteredStays(s, step);
    var s' := Apply(s, step);
    assert s'.registered.Some? by {
      MoveKeepsOwner(s, step.t, Dead);
      EnsureKeepsOwner(SetThread(s, step.t, Dead), false);
    }
    assert s.registered != Some(r);
    if s.registered.Some? {
      assert WillReadFlag(s.threads[s.registered.value]);
    }
  }

  lemma DecidingStays(s: State, step: Step, x: nat)
    requires Steady(s) && x < |s.threads| && Deciding(s.threads[x]) && !(LaunchedBy(s, step) && step.t == x)
    ensures x < |Apply(s, step).threads| && Deciding(Apply(s, step).threads[x])
  {
    if GateStep(step) {
      GateStepOwnership(s, step);
    } else if step.Ensure? {
      EnsureKeepsThreads(s, step.relaunchAfterCurrent);
    } else if step.Launch? && LaunchedBy(s, step) {
      EnsureKeepsThreads(SetThread(s, step.t, Dead), false);
    }
  }

  lemma AliveAfterStep(s: State, step: Step, n: nat, r: nat)
    requires SingleOwner(s) && StandsUntilGone(s, n, r) && Steady(s)
    requires s.relaunch || EntitledDecides(s, n, r)
    ensures Apply(s, step).relaunch || EntitledDecides(Apply(s, step), n, r) || Serves(s, step, n, r)
  {
    if s.relaunch {
      if !Apply(s, step).relaunch {
        ReaderIsEntitled(s, step, n, r);
      }
    } else {
      var x: nat :| Entitled(x, n, r) && x < |s.threads| && Deciding(s.threads[x]);
      if LaunchedBy(s, step) && step.t == x {
        LaunchServes(s, step, n, r);
      } else {
        DecidingStays(s, step, x);
      }
    }
  }

  lemma SteadyPrefix(s: State, steps: seq<Step>)
    requires steps != [] && SteadyRun(s, steps)
    ensures SteadyRun(s, steps[..|steps| - 1]) && Steady(Run(s, steps[..|steps| - 1]))
  {
    var front := steps[..|steps| - 1];
    forall k: nat | k <= |front| ensures Steady(Run(s, front[..k])) {
      assert front[..k] == steps[..k];
    }
    assert front[..|front|] == front;
  }

  lemma ServedStays(s: State, steps: seq<Step>, n: nat, r: nat)
    requires steps != []
    ensures Served(s, steps[..|steps| - 1], n, r) ==> Served(s, steps, n, r)
    ensures Serves(Run(s, steps[..|steps| - 1]), steps[|steps| - 1], n, r) ==> Served(s, steps, n, r)
  {
    var front := steps[..|steps| - 1];
    if Served(s, front, n, r) {
      var k: nat :| k < |front| && Serves(Run(s, front[..k]), front[k], n, r);
      assert front[..k] == steps[..k];
      assert Serves(Run(s, steps[..k]), steps[k], n, r);
    }
  }

  lemma {:induction false} ServedAlong(s: State, steps: seq<Step>, n: nat, r: nat)
    requires Valid(s) && StandsUntilGone(s, n, r) && s.relaunch && SteadyRun(s, steps)
    ensures Valid(Run(s, steps)) && StandsUntilGone(Run(s, steps), n, r)
    ensures Run(s, steps).relaunch || EntitledDecides(Run(s, steps), n, r) || Served(s, steps, n, r)
  {
    if steps != [] {
      var front := steps[..|steps| - 1];
      var f := Run(s, front);
      SteadyPrefix(s, steps);
      ServedAlong(s, front, n, r);
      StepKeepsValid(f, steps[|steps| - 1]);
      StandsAfterStep(f, steps[|steps| - 1], n, r);
      ServedStays(s, steps, n, r);
      if !Served(s, front, n, r) {
        AliveAfterStep(f, steps[|steps| - 1], n, r);
      }
    }
  }

  /** No thread has the flag still to read or is deciding on it. */
  ghost predicate Settled(s: State) {
    forall t: nat | t < |s.threads| :: !WillReadFlag(s.threads[t]) && !Deciding(s.threads[t])
  }

  /** With no leaving reader at the request, and while nothing forbids a relaunch: the flag stands
      until the worker asked has left; from then on it stands for a later thread, or is decided on
      by the worker asked or a later one, or has been served; and once nothing is left to happen it
      has been served, by a worker that started after the request. */
  lemma RequestIsServed(running: bool, startGate: bool, before: seq<Step>, r: nat, steps: seq<Step>)
    requires Run(Initial(running, startGate), before).registered == Some(r)
    requires !LeavingReader(Run(Initial(running, startGate), before))
    requires SteadyRun(Asked(Run(Initial(running, startGate), before)), steps)
    ensures
      var s := Run(Initial(running, startGate), before);
      var f, n := Run(Asked(s), steps), |s.threads|;
      && (f.registered == Some(r) ==> f.relaunch)
      && (f.relaunch || EntitledDecides(f, n, r) || Served(Asked(s), steps, n, r))
      && (Settled(f) ==> Served(Asked(s), steps, n, r))
  {
    RunIsValid(running, startGate, before);
    var s := Run(Initial(running, startGate), before);
    AskedState(s, r);
    StepKeepsValid(s, Ensure(true));
    ServedAlong(Asked(s), steps, |s.threads|, r);
  }

  // ------------------------------------------ with a leaving reader: it can be lost

  /** Every worker has ended and none was started after the request. */
  ghost predicate Lost(s: State, n: nat) {
    |s.threads| == n && forall t: nat | t < n :: s.threads[t] == Dead
  }

  /** The steps that take any exiting thread to its end. */
  function EndOf(t: nat): seq<Step> {
    [TakeFlag(t), Check(t), Check(t)] + [Check(t), Launch(t)]
  }

  /** The steps that take the registered worker out of its loop and to its end, no flag set. */
  function RetirementOf(r: nat): seq<Step> {
    [TimeOut(r), Exit(r), Release(r)] + [Pop(r), TakeFlag(r)]
  }

  predicate ExitOrTimeOut(step: Step) {
    ExitStepOf(step) || step.TimeOut?
  }

  lemma ExitKeepsSteady(s: State, step: Step)
    requires Steady(s) && ExitOrTimeOut(step)
    ensures Steady(Apply(s, step))
  {
    assert Apply(s, step).notifiers == s.notifiers;
  }

  lemma {:induction false} ExitRunIsSteady(s: State, steps: seq<Step>)
    requires Steady(s) && AllExits(steps)
    ensures SteadyRun(s, steps) && Steady(Run(s, steps))
  {
    if steps != [] {
      var front := steps[..|steps| - 1];
      ExitRunIsSteady(s, front);
      ExitKeepsSteady(Run(s, front), steps[|steps| - 1]);
      forall k: nat | k <= |steps| ensures Steady(Run(s, steps[..k])) {
        if k < |steps| {
          assert front[..k] == steps[..k];
        } else {
          assert steps[..k] == steps;
        }
      }
    } else {
      assert forall k: nat | k <= |steps| :: steps[..k] == [];
    }
  }

  /** `s` with thread `t` at `th` and the flag at `flag`. */
  function At(s: State, t: nat, th: Thread, flag: bool): State
    requires t < |s.threads|
  {
    SetThread(s, t, th).(relaunch := flag)
  }

  lemma TakeAt(s: State, t: nat, th: Thread, flag: bool)
    requires t < |s.threads| && !Owner(th)
    ensures Apply(At(s, t, th, flag), TakeFlag(t)) ==
            if th == ReadingFlag then At(s, t, if flag then CheckingStop else Dead, false) else At(s, t, th, flag)
  {
    assert At(s, t, th, flag).threads[t := CheckingStop] == s.threads[t := CheckingStop];
    assert At(s, t, th, flag).threads[t := Dead] == s.threads[t := Dead];
  }

  function Checked(th: Thread): Thread {
    if th.CheckingStop? then CheckingStatus
    else if th.CheckingStatus? then CheckingStartGate
    else if th.CheckingStartGate? then Launching
    else th
  }

  lemma CheckAt(s: State, t: nat, th: Thread, flag: bool)
    requires t < |s.threads| && s.running && s.startGate && s.stopEvent != Some(true)
    ensures Apply(At(s, t, th, flag), Check(t)) == At(s, t, Checked(th), flag)
  {
    assert At(s, t, th, flag).threads[t := Checked(th)] == s.threads[t := Checked(th)];
  }

  lemma LaunchAt(s: State, r: nat, t: nat, th: Thread, flag: bool)
    requires t < |s.threads| && r < |s.threads| && t != r && s.registered == Some(r) && s.threads[r] != Dead
    ensures Apply(At(s, t, th, flag), Launch(t)) == At(s, t, if th == Launching then Dead else th, flag)
  {
    assert At(s, t, th, flag).threads[t := Dead] == s.threads[t := Dead];
  }

  lemma TakeAndCheck(s: State, t: nat, th: Thread, flag: bool)
    requires t < |s.threads| && !Owner(th) && s.running && s.startGate && s.stopEvent != Some(true)
    ensures
      var taken := if th == ReadingFlag then (if flag then CheckingStop else Dead) else th;
      Run(At(s, t, th, flag), [TakeFlag(t), Check(t), Check(t)]) ==
        At(s, t, Checked(Checked(taken)), flag && th != ReadingFlag)
  {
    var taken := if th == ReadingFlag then (if flag then CheckingStop else Dead) else th;
    RunThree(At(s, t, th, flag), TakeFlag(t), Check(t), Check(t));
    TakeAt(s, t, th, flag);
    CheckAt(s, t, taken, flag && th != ReadingFlag);
    CheckAt(s, t, Checked(taken), flag && th != ReadingFlag);
  }

  lemma CheckAndLaunch(s: State, r: nat, t: nat, th: Thread, flag: bool)
    requires t < |s.threads| && s.running && s.startGate && s.stopEvent != Some(true)
    requires r < |s.threads| && t != r && s.registered == Some(r) && s.threads[r] != Dead
    ensures Run(At(s, t, th, flag), [Check(t), Launch(t)]) ==
            At(s, t, if Checked(th) == Launching then Dead else Checked(th), flag)
  {
    RunTwo(At(s, t, th, flag), Check(t), Launch(t));
    CheckAt(s, t, th, flag);
    LaunchAt(s, r, t, Checked(th), flag);
  }

  lemma ThreeChecks(th: Thread)
    requires !Owner(th) && th != ReadingFlag
    ensures Checked(Checked(Checked(th))) == Launching || Checked(Checked(Checked(th))) == Dead
  {
  }

  lemma EndRun(s: State, r: nat, t: nat, th: Thread, flag: bool)
    requires t < |s.threads| && !Owner(th) && s.running && s.startGate && s.stopEvent != Some(true)
    requires r < |s.threads| && t != r && s.registered == Some(r) && s.threads[r] != Dead
    ensures Run(At(s, t, th, flag), EndOf(t)) == At(s, t, Dead, flag && th != ReadingFlag)
  {
    var taken := if th == ReadingFlag then (if flag then CheckingStop else Dead) else th;
    RunConcat(At(s, t, th, flag), [TakeFlag(t), Check(t), Check(t)], [Check(t), Launch(t)]);
    TakeAndCheck(s, t, th, flag);
    CheckAndLaunch(s, r, t, Checked(Checked(taken)), flag && th != ReadingFlag);
    ThreeChecks(taken);
  }

  lemma AtItself(s: State, t: nat)
    requires t < |s.threads|
    ensures At(s, t, s.threads[t], s.relaunch) == s
  {
    assert s.threads[t := s.threads[t]] == s.threads;
  }

  /** An exiting thread runs to its end beside a registered worker: it takes the flag if it had yet
      to read it, finds the worker alive, and starts nothing. */
  lemma EndThread(s: State, r: nat, t: nat)
    requires SingleOwner(s) && s.registered == Some(r) && Steady(s) && t < |s.threads| && t != r
    ensures Run(s, EndOf(t)) == At(s, t, Dead, s.relaunch && s.threads[t] != ReadingFlag)
  {
    assert Owner(s.threads[r]) && !Owner(s.threads[t]);
    AtItself(s, t);
    EndRun(s, r, t, s.threads[t], s.relaunch);
  }

  /** From `s` to `f`, the first `k` threads but the registered `r` have come to their end. */
  ghost predicate Cleared(s: State, f: State, r: nat, k: nat) {
    && SingleOwner(f) && f.registered == Some(r)
    && |f.threads| == |s.threads| && f.versions == s.versions && r < |s.threads| && f.threads[r] == s.threads[r]
    && (forall t: nat | t < k && t < |s.threads| && t != r :: f.threads[t] == Dead)
    && (forall t: nat | k <= t < |s.threads| :: f.threads[t] == s.threads[t])
    && (f.relaunch ==> forall t: nat | t < k && t < |s.threads| :: s.threads[t] != ReadingFlag)
  }

  lemma ClearedNext(s: State, f: State, r: nat, k: nat)
    requires Cleared(s, f, r, k) && k < |s.threads|
    ensures k == r ==> Cleared(s, f, r, k + 1)
    ensures k != r ==> Cleared(s, At(f, k, Dead, f.relaunch && f.threads[k] != ReadingFlag), r, k + 1)
  {
    assert Owner(f.threads[r]);
    if k != r {
      MoveKeepsOwner(f, k, Dead);
    }
  }

  ghost predicate AllExits(steps: seq<Step>) {
    forall i | 0 <= i < |steps| :: ExitOrTimeOut(steps[i])
  }

  lemma EndOfIsExit(steps: seq<Step>, t: nat)
    requires AllExits(steps)
    ensures AllExits(steps + EndOf(t)) && AllExits(steps + RetirementOf(t))
  {
  }

  lemma EndOneMore(s: State, r: nat, t: nat, steps: seq<Step>)
    requires Cleared(s, Run(s, steps), r, t) && Steady(Run(s, steps)) && t < |s.threads| && t != r
    ensures
      var f := Run(s, steps);
      Run(s, steps + EndOf(t)) == At(f, t, Dead, f.relaunch && f.threads[t] != ReadingFlag)
  {
    RunConcat(s, steps, EndOf(t));
    EndThread(Run(s, steps), r, t);
  }

  lemma ClearOneMore(s: State, r: nat, t: nat, steps: seq<Step>) returns (more: seq<Step>)
    requires Steady(s) && AllExits(steps) && t < |s.threads| && Cleared(s, Run(s, steps), r, t)
    ensures Cleared(s, Run(s, more), r, t + 1) && AllExits(more)
  {
    more := steps;
    ClearedNext(s, Run(s, steps), r, t);
    if t != r {
      ExitRunIsSteady(s, steps);
      EndOneMore(s, r, t, steps);
      EndOfIsExit(steps, t);
      more := steps + EndOf(t);
    }
  }

  lemma NothingCleared(s: State, r: nat)
    requires SingleOwner(s) && s.registered == Some(r)
    ensures Cleared(s, Run(s, []), r, 0)
  {
    assert Owner(s.threads[r]);
  }

  /** Every thread but the registered worker is brought to its end. */
  lemma {:induction false} EndOthers(s: State, r: nat, k: nat) returns (steps: seq<Step>)
    requires SingleOwner(s) && s.registered == Some(r) && Steady(s) && k <= |s.threads|
    ensures Cleared(s, Run(s, steps), r, k) && AllExits(steps)
  {
    if k == 0 {
      NothingCleared(s, r);
      steps := [];
    } else {
      steps := EndOthers(s, r, k - 1);
      steps := ClearOneMore(s, r, k - 1, steps);
    }
  }

  lemma RunTwo(s: State, a: Step, b: Step)
    ensures Run(s, [a, b]) == Apply(Apply(s, a), b)
  {
    assert [a, b][..1] == [a] && [a][..0] == [];
    assert Run(s, [a]) == Apply(Run(s, []), a);
  }

  /** The registered worker stands at `th`, the flag is clear, the others are as in `s`. */
  ghost predicate WorkerAt(s: State, f: State, r: nat, th: Thread) {
    r < |s.threads| && f.threads == s.threads[r := th] && !f.relaunch && f.versions == s.versions
  }

  lemma OutOfTheLoop(s: State, r: nat)
    requires r < |s.threads| && Owner(s.threads[r]) && !s.relaunch
    requires s.threads[r].Looping? && s.threads[r].gate.Blocked? ==> s.threads[r].gate.wake < |s.versions|
    ensures
      var f := Apply(Apply(s, TimeOut(r)), Exit(r));
      WorkerAt(s, f, r, Releasing) || WorkerAt(s, f, r, Popping)
  {
    var g := WakeUpStep(s, r, true);
    assert g == s || g == SetThread(s, r, Looping(Holding(s.threads[r].gate.wake)));
    assert Apply(s, TimeOut(r)) == g;
    var f := ExitStep(g, r);
    assert Apply(g, Exit(r)) == f;
    assert s.threads[r := s.threads[r]] == s.threads;
    if s.threads[r].Looping? {
      assert f.threads == s.threads[r := Releasing];
    }
  }

  lemma OutOfTheRegistry(s: State, f: State, r: nat)
    requires WorkerAt(s, f, r, Releasing) || WorkerAt(s, f, r, Popping)
    ensures WorkerAt(s, Apply(Apply(f, Release(r)), Pop(r)), r, ReadingFlag)
  {
    var g := ReleaseStep(f, r);
    assert Apply(f, Release(r)) == g;
    assert g.threads == s.threads[r := Popping];
    var h := PopStep(g, r);
    assert Apply(g, Pop(r)) == h;
    assert h.threads == s.threads[r := ReadingFlag];
  }

  lemma RetireSteps(s: State, r: nat)
    requires SingleOwner(s) && s.registered == Some(r) && !s.relaunch
    requires s.threads[r].Looping? && s.threads[r].gate.Blocked? ==> s.threads[r].gate.wake < |s.versions|
    ensures Run(s, RetirementOf(r)).threads == s.threads[r := Dead]
  {
    assert Owner(s.threads[r]);
    RunConcat(s, [TimeOut(r), Exit(r), Release(r)], [Pop(r), TakeFlag(r)]);
    RunThree(s, TimeOut(r), Exit(r), Release(r));
    OutOfTheLoop(s, r);
    var f := Apply(Apply(s, TimeOut(r)), Exit(r));
    OutOfTheRegistry(s, f, r);
    var g := Apply(f, Release(r));
    RunTwo(g, Pop(r), TakeFlag(r));
    ReadsClearFlag(s, Apply(g, Pop(r)), r);
  }

  lemma ReadsClearFlag(s: State, f: State, r: nat)
    requires WorkerAt(s, f, r, ReadingFlag)
    ensures Apply(f, TakeFlag(r)).threads == s.threads[r := Dead]
  {
    assert Apply(f, TakeFlag(r)) == TakeFlagStep(f, r);
  }

  /** While a relaunch is allowed, a request made to the registered worker can be lost, all workers
      ending with none started after it, exactly when some thread is out of the registry but has not
      read the flag when it is made. */
  lemma RequestLostExactly(running: bool, startGate: bool, before: seq<Step>, r: nat)
    requires Run(Initial(running, startGate), before).registered == Some(r)
    requires Steady(Run(Initial(running, startGate), before))
    ensures
      var s := Run(Initial(running, startGate), before);
      (exists steps :: SteadyRun(Asked(s), steps) && Lost(Run(Asked(s), steps), |s.threads|)) <==>
        exists u: nat :: u < |s.threads| && s.threads[u] == ReadingFlag
  {
    var s := Run(Initial(running, startGate), before);
    if LeavingReader(s) {
      RunIsValid(running, startGate, before);
      var steps := LosingRun(s, r);
    } else {
      forall steps | SteadyRun(Asked(s), steps) ensures !Lost(Run(Asked(s), steps), |s.threads|) {
        NotLost(running, startGate, before, r, steps);
      }
    }
  }

  lemma LosingRun(s: State, r: nat) returns (steps: seq<Step>)
    requires Valid(s) && s.registered == Some(r) && Steady(s) && LeavingReader(s)
    ensures SteadyRun(Asked(s), steps) && Lost(Run(Asked(s), steps), |s.threads|)
  {
    AskedState(s, r);
    var a := Asked(s);
    assert SingleOwner(a) && Steady(a);
    var others := EndOthers(a, r, |a.threads|);
    var f := Run(a, others);
    ExitRunIsSteady(a, others);
    var u: nat :| u < |s.threads| && s.threads[u] == ReadingFlag;
    assert Owner(s.threads[r]) && a.threads[u] == ReadingFlag;
    assert s.threads[r].Looping? ==> GateOk(s, s.threads[r].gate);
    RetireSteps(f, r);
    EndOfIsExit(others, r);
    steps := others + RetirementOf(r);
    RunConcat(a, others, RetirementOf(r));
    ExitRunIsSteady(a, steps);
  }

  lemma {:induction false} ThreadsGrow(s: State, steps: seq<Step>, k: nat)
    requires k <= |steps|
    ensures |Run(s, steps[..k]).threads| <= |Run(s, steps).threads|
  {
    if k < |steps| {
      var front := steps[..|steps| - 1];
      ThreadsGrow(s, front, k);
      assert front[..k] == steps[..k];
      var f := Run(s, front);
      if |f.threads| > 0 {
        NoWayBack(f, steps[|steps| - 1], |f.threads| - 1);
      }
    } else {
      assert steps[..k] == steps;
    }
  }

  lemma ServedStartsAThread(s: State, steps: seq<Step>, n: nat, r: nat)
    requires Valid(s) && Served(s, steps, n, r)
    ensures |Run(s, steps).threads| > n
  {
    var k: nat :| k < |steps| && Serves(Run(s, steps[..k]), steps[k], n, r);
    LaterWorkerExists(s, steps, k, n);
    ThreadsGrow(s, steps, k + 1);
  }

  lemma LostIsSettled(s: State, n: nat)
    requires Lost(s, n)
    ensures Settled(s)
  {
  }

  lemma NotLost(running: bool, startGate: bool, before: seq<Step>, r: nat, steps: seq<Step>)
    requires
      var s := Run(Initial(running, startGate), before);
      s.registered == Some(r) && !LeavingReader(s) && SteadyRun(Asked(s), steps)
    ensures
      var s := Run(Initial(running, startGate), before);
      !Lost(Run(Asked(s), steps), |s.threads|)
  {
    var s := Run(Initial(running, startGate), before);
    if Lost(Run(Asked(s), steps), |s.threads|) {
      LostIsSettled(Run(Asked(s), steps), |s.threads|);
      RequestIsServed(running, startGate, before, r, steps);
      RunIsValid(running, startGate, before);
      StepKeepsValid(s, Ensure(true));
      ServedStartsAThread(Asked(s), steps, |s.threads|, r);
      assert false;
    }
  }

  /** A later worker in the registry is a thread. */
  lemma LaterWorkerExists(s: State, steps: seq<Step>, k: nat, n: nat)
    requires Valid(s) && k < |steps| && LaterWorker(Apply(Run(s, steps[..k]), steps[k]), n)
    ensures |Run(s, steps[..k + 1]).threads| > n
  {
    assert steps[..k + 1][..k] == steps[..k];
    ValidAlong(s, steps[..k + 1]);
  }

  lemma {:induction false} ValidAlong(s: State, steps: seq<Step>)
    requires Valid(s)
    ensures Valid(Run(s, steps))
  {
    if steps != [] {
      ValidAlong(s, steps[..|steps| - 1]);
      StepKeepsValid(Run(s, steps[..|steps| - 1]), steps[|steps| - 1]);
    }
  }
}
