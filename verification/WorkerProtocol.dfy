/** One task's worker threads, its relaunch flag and its smooth-gate wake-ups, as atomic steps that
    may interleave in any order. Thread ids are positions in `threads`; wake objects are positions
    in `versions`; every change to what the gate reads is numbered and carries its notifier. */
module WorkerProtocol {
  import opened Options

  /** Where a worker is inside the gate wait. `mark` is the number of changes already made when
      `version` was read. */
  datatype Gate =
    | Idle
    | Subscribed
    | Holding(wake: nat)
    | Saved(wake: nat, version: nat, mark: nat)
    | Blocked(wake: nat, version: nat, mark: nat)

  /** A worker thread: in its round loop, then the steps of its exit. */
  datatype Thread =
    | Looping(gate: Gate)
    | Releasing
    | Popping
    | ReadingFlag
    | CheckingStop
    | CheckingStatus
    | CheckingStartGate
    | Launching
    | Dead

  /** What is left of the notification that follows a change. */
  datatype Notifier =
    | Clearing
    | Listing
    | Matching
    | LookingUp
    | Bumping(wake: nat)
    | Finished

  datatype State = State(
    threads: seq<Thread>,
    registered: Option<nat>,
    relaunch: bool,
    stopEvent: Option<bool>,
    running: bool,
    startGate: bool,
    subscribed: bool,
    wake: Option<nat>,
    versions: seq<nat>,
    notifiers: seq<Notifier>)

  /** A change and who announces it: the changed task alone, all tasks, the tasks subscribed to a
      quote, or a service stop. */
  datatype Change = ToTask(running: bool) | ToAll(startGate: bool) | ToQuote | Stop

  datatype Step =
    | Ensure(relaunchAfterCurrent: bool)
    | Exit(t: nat)
    | Release(t: nat)
    | Pop(t: nat)
    | TakeFlag(t: nat)
    | Check(t: nat)
    | Launch(t: nat)
    | Subscribe(t: nat)
    | FetchWake(t: nat)
    | ReadVersion(t: nat)
    | Wait(t: nat)
    | LeaveGate(t: nat)
    | WakeUp(t: nat)
    | TimeOut(t: nat)
    | Make(change: Change)
    | Advance(c: nat)

  function Initial(running: bool, startGate: bool): State {
    State([], None, false, None, running, startGate, false, None, [], [])
  }

  // --------------------------------------------------------------------- steps

  function SetThread(s: State, t: nat, th: Thread): State
    requires t < |s.threads|
  {
    s.(threads := s.threads[t := th])
  }

  predicate Alive(s: State, t: nat) {
    t < |s.threads| && s.threads[t] != Dead
  }

  function EnsureWorker(s: State, relaunchAfterCurrent: bool): State {
    if s.registered.Some? && Alive(s, s.registered.value) then
      s.(relaunch := s.relaunch || relaunchAfterCurrent)
    else
      s.(threads := s.threads + [Looping(Idle)], registered := Some(|s.threads|), stopEvent := Some(false))
  }

  function ExitStep(s: State, t: nat): State
    requires t < |s.threads|
  {
    if s.threads[t].Looping? && !s.threads[t].gate.Blocked? then SetThread(s, t, Releasing) else s
  }

  function ReleaseStep(s: State, t: nat): State
    requires t < |s.threads|
  {
    if s.threads[t] == Releasing then SetThread(s, t, Popping).(subscribed := false, wake := None) else s
  }

  function PopStep(s: State, t: nat): State
    requires t < |s.threads|
  {
    if s.threads[t] == Popping then
      SetThread(s, t, ReadingFlag).(registered := if s.registered == Some(t) then None else s.registered)
    else s
  }

  function TakeFlagStep(s: State, t: nat): State
    requires t < |s.threads|
  {
    if s.threads[t] == ReadingFlag then
      SetThread(s, t, if s.relaunch then CheckingStop else Dead).(relaunch := false)
    else s
  }

  /** The three reads that decide whether a taken flag launches a new worker. */
  function CheckStep(s: State, t: nat): State
    requires t < |s.threads|
  {
    if s.threads[t] == CheckingStop then SetThread(s, t, if s.stopEvent == Some(true) then Dead else CheckingStatus)
    else if s.threads[t] == CheckingStatus then SetThread(s, t, if s.running then CheckingStartGate else Dead)
    else if s.threads[t] == CheckingStartGate then SetThread(s, t, if s.startGate then Launching else Dead)
    else s
  }

  function LaunchStep(s: State, t: nat): State
    requires t < |s.threads|
  {
    if s.threads[t] == Launching then EnsureWorker(SetThread(s, t, Dead), false) else s
  }

  function SetGate(s: State, t: nat, g: Gate): State
    requires t < |s.threads|
  {
    SetThread(s, t, Looping(g))
  }

  function GateOf(s: State, t: nat): Option<Gate> {
    if t < |s.threads| && s.threads[t].Looping? then Some(s.threads[t].gate) else None
  }

  function SubscribeStep(s: State, t: nat): State {
    if GateOf(s, t) == Some(Idle) then SetGate(s, t, Subscribed).(subscribed := true) else s
  }

  /** Find the task's wake object, or make it. */
  function FetchWakeStep(s: State, t: nat): State {
    if GateOf(s, t) != Some(Subscribed) then s
    else if s.wake.Some? then SetGate(s, t, Holding(s.wake.value))
    else SetGate(s, t, Holding(|s.versions|)).(wake := Some(|s.versions|), versions := s.versions + [0])
  }

  function ReadVersionStep(s: State, t: nat): State {
    if GateOf(s, t).Some? && GateOf(s, t).value.Holding? && GateOf(s, t).value.wake < |s.versions| then
      SetGate(s, t, Saved(GateOf(s, t).value.wake, s.versions[GateOf(s, t).value.wake], |s.notifiers|))
    else s
  }

  /** Go to sleep, unless the version has moved since it was read. */
  function WaitStep(s: State, t: nat): State {
    if GateOf(s, t).Some? && GateOf(s, t).value.Saved? && GateOf(s, t).value.wake < |s.versions| then
      var g := GateOf(s, t).value;
      SetGate(s, t, if s.versions[g.wake] != g.version then Holding(g.wake) else Blocked(g.wake, g.version, g.mark))
    else s
  }

  function LeaveGateStep(s: State, t: nat): State {
    if GateOf(s, t).Some? && GateOf(s, t).value.Saved? then SetGate(s, t, Idle) else s
  }

  function WakeUpStep(s: State, t: nat, timedOut: bool): State {
    if GateOf(s, t).Some? && GateOf(s, t).value.Blocked? && GateOf(s, t).value.wake < |s.versions|
       && (timedOut || s.versions[GateOf(s, t).value.wake] != GateOf(s, t).value.version)
    then SetGate(s, t, Holding(GateOf(s, t).value.wake))
    else s
  }

  function MakeChange(s: State, change: Change): State {
    if change.ToTask? then s.(running := change.running, notifiers := s.notifiers + [LookingUp])
    else if change.ToAll? then s.(startGate := change.startGate, notifiers := s.notifiers + [Listing])
    else if change.ToQuote? then s.(notifiers := s.notifiers + [Matching])
    else s.(stopEvent := if s.stopEvent.Some? then Some(true) else None, notifiers := s.notifiers + [Clearing])
  }

  function SetNotifier(s: State, c: nat, n: Notifier): State
    requires c < |s.notifiers|
  {
    s.(notifiers := s.notifiers[c := n])
  }

  function AdvanceNotifier(s: State, c: nat): State {
    if c >= |s.notifiers| then s
    else if s.notifiers[c] == Clearing then SetNotifier(s, c, Listing).(relaunch := false)
    else if s.notifiers[c] == Listing then SetNotifier(s, c, if s.wake.Some? then LookingUp else Finished)
    else if s.notifiers[c] == Matching then SetNotifier(s, c, if s.subscribed then LookingUp else Finished)
    else if s.notifiers[c] == LookingUp then
      SetNotifier(s, c, if s.wake.Some? then Bumping(s.wake.value) else Finished)
    else if s.notifiers[c].Bumping? && s.notifiers[c].wake < |s.versions| then
      SetNotifier(s, c, Finished).(versions := s.versions[s.notifiers[c].wake := s.versions[s.notifiers[c].wake] + 1])
    else s
  }

  function ThreadStep(s: State, step: Step): State
    requires !step.Ensure? && !step.Make? && !step.Advance?
  {
    if step.t >= |s.threads| then s
    else if step.Exit? then ExitStep(s, step.t)
    else if step.Release? then ReleaseStep(s, step.t)
    else if step.Pop? then PopStep(s, step.t)
    else if step.TakeFlag? then TakeFlagStep(s, step.t)
    else if step.Check? then CheckStep(s, step.t)
    else if step.Launch? then LaunchStep(s, step.t)
    else if step.Subscribe? then SubscribeStep(s, step.t)
    else if step.FetchWake? then FetchWakeStep(s, step.t)
    else if step.ReadVersion? then ReadVersionStep(s, step.t)
    else if step.Wait? then WaitStep(s, step.t)
    else if step.LeaveGate? then LeaveGateStep(s, step.t)
    else WakeUpStep(s, step.t, step.TimeOut?)
  }

  function Apply(s: State, step: Step): State {
    if step.Ensure? then EnsureWorker(s, step.relaunchAfterCurrent)
    else if step.Make? then MakeChange(s, step.change)
    else if step.Advance? then AdvanceNotifier(s, step.c)
    else ThreadStep(s, step)
  }

  function Run(s: State, steps: seq<Step>): State
    decreases |steps|
  {
    if steps == [] then s else Apply(Run(s, steps[..|steps| - 1]), steps[|steps| - 1])
  }

  // ---------------------------------------------------------------- invariants

  predicate Owner(th: Thread) {
    th.Looping? || th.Releasing? || th.Popping?
  }

  predicate WillReadFlag(th: Thread) {
    Owner(th) || th.ReadingFlag?
  }

  /** The registered thread is the one thread that has not yet left the registry. */
  ghost predicate SingleOwner(s: State) {
    && (s.registered.Some? ==> s.registered.value < |s.threads| && Owner(s.threads[s.registered.value]))
    && forall t: nat | t < |s.threads| && Owner(s.threads[t]) :: s.registered == Some(t)
  }

  ghost predicate FlagHasReader(s: State) {
    s.relaunch ==> ReaderExists(s)
  }

  /** The change's announcement has not been made yet and will be made on wake object `w`. */
  predicate WillBump(n: Notifier, w: nat) {
    n.Clearing? || n.Listing? || n.Matching? || n.LookingUp? || n == Bumping(w)
  }

  ghost predicate Announced(s: State, w: nat, mark: nat) {
    forall c: nat | mark <= c < |s.notifiers| :: WillBump(s.notifiers[c], w)
  }

  ghost predicate GateOk(s: State, g: Gate) {
    && (g.Subscribed? ==> s.subscribed)
    && (g.Holding? ==> s.subscribed && s.wake == Some(g.wake))
    && (g.Saved? || g.Blocked? ==> VersionOk(s, g.wake, g.version, g.mark))
  }

  ghost predicate VersionOk(s: State, w: nat, version: nat, mark: nat) {
    && s.subscribed && s.wake == Some(w) && w < |s.versions| && version <= s.versions[w]
    && (s.versions[w] == version ==> Announced(s, w, mark))
  }

  ghost predicate GatesOk(s: State) {
    && (s.wake.Some? ==> s.wake.value < |s.versions|)
    && forall t: nat | t < |s.threads| && s.threads[t].Looping? :: GateOk(s, s.threads[t].gate)
  }

  ghost predicate Valid(s: State) {
    SingleOwner(s) && FlagHasReader(s) && GatesOk(s)
  }

  predicate GateStep(step: Step) {
    || step.Subscribe? || step.FetchWake? || step.ReadVersion? || step.Wait? || step.LeaveGate?
    || step.WakeUp? || step.TimeOut?
  }

  predicate ExitStepOf(step: Step) {
    step.Exit? || step.Release? || step.Pop? || step.TakeFlag? || step.Check? || step.Launch?
  }

  /** No thread enters or leaves the loop or the exit sequence. */
  ghost predicate SameOwnership(s: State, s': State) {
    && |s'.threads| == |s.threads| && s'.registered == s.registered && s'.relaunch == s.relaunch
    && forall u: nat | u < |s.threads| :: SamePlace(s.threads[u], s'.threads[u])
  }

  predicate SamePlace(a: Thread, b: Thread) {
    a == b || (a.Looping? && b.Looping?)
  }

  /** A gate step only rewrites the gate of one looping thread. */
  ghost predicate OnlyGate(s: State, s': State, t: nat) {
    && s'.registered == s.registered && s'.relaunch == s.relaunch
    && (s'.threads == s.threads
        || (t < |s.threads| && s.threads[t].Looping? && exists g :: s'.threads == s.threads[t := Looping(g)]))
  }

  lemma OnlyGateOwnership(s: State, s': State, t: nat)
    requires OnlyGate(s, s', t)
    ensures SameOwnership(s, s')
  {
  }

  lemma EarlyGateSteps(s: State, t: nat)
    ensures OnlyGate(s, SubscribeStep(s, t), t) && OnlyGate(s, FetchWakeStep(s, t), t)
    ensures OnlyGate(s, ReadVersionStep(s, t), t)
  {
    if GateOf(s, t) == Some(Idle) {
      assert SubscribeStep(s, t).threads == s.threads[t := Looping(Subscribed)];
    }
    if GateOf(s, t) == Some(Subscribed) {
      var w := if s.wake.Some? then s.wake.value else |s.versions|;
      assert FetchWakeStep(s, t).threads == s.threads[t := Looping(Holding(w))];
    }
  }

  lemma LateGateSteps(s: State, t: nat, timedOut: bool)
    ensures OnlyGate(s, WaitStep(s, t), t) && OnlyGate(s, LeaveGateStep(s, t), t)
    ensures OnlyGate(s, WakeUpStep(s, t, timedOut), t)
  {
    if GateOf(s, t).Some? {
      assert LeaveGateStep(s, t).threads == s.threads || LeaveGateStep(s, t).threads == s.threads[t := Looping(Idle)];
    }
  }

  lemma GateStepOwnership(s: State, step: Step)
    requires GateStep(step)
    ensures SameOwnership(s, Apply(s, step))
  {
    if step.t < |s.threads| {
      EarlyGateSteps(s, step.t);
      LateGateSteps(s, step.t, step.TimeOut?);
      OnlyGateOwnership(s, Apply(s, step), step.t);
    }
  }

  lemma EnsureKeepsOwner(s: State, relaunch: bool)
    requires SingleOwner(s)
    ensures SingleOwner(EnsureWorker(s, relaunch))
    ensures EnsureWorker(s, relaunch).registered.Some?
  {
  }

  /** Moving one thread on, without making it an owner, keeps the registry right. */
  lemma MoveKeepsOwner(s: State, t: nat, th: Thread)
    requires SingleOwner(s) && t < |s.threads| && (Owner(th) <==> Owner(s.threads[t]))
    ensures SingleOwner(SetThread(s, t, th))
  {
  }

  lemma PopKeepsOwner(s: State, t: nat)
    requires SingleOwner(s) && t < |s.threads|
    ensures SingleOwner(PopStep(s, t))
  {
  }

  lemma LeaveKeepsOwner(s: State, t: nat)
    requires SingleOwner(s) && t < |s.threads|
    ensures SingleOwner(ExitStep(s, t)) && SingleOwner(ReleaseStep(s, t))
  {
    if s.threads[t].Looping? {
      MoveKeepsOwner(s, t, Releasing);
    } else if s.threads[t] == Releasing {
      MoveKeepsOwner(s, t, Popping);
    }
  }

  lemma TakeKeepsOwner(s: State, t: nat)
    requires SingleOwner(s) && t < |s.threads|
    ensures SingleOwner(TakeFlagStep(s, t))
  {
    if s.threads[t] == ReadingFlag {
      MoveKeepsOwner(s, t, if s.relaunch then CheckingStop else Dead);
    }
  }

  lemma CheckKeepsOwner(s: State, t: nat)
    requires SingleOwner(s) && t < |s.threads|
    ensures SingleOwner(CheckStep(s, t))
  {
    if CheckStep(s, t) != s {
      MoveKeepsOwner(s, t, CheckStep(s, t).threads[t]);
    }
  }

  lemma LaunchKeepsOwner(s: State, t: nat)
    requires SingleOwner(s) && t < |s.threads|
    ensures SingleOwner(LaunchStep(s, t))
  {
    if s.threads[t] == Launching {
      MoveKeepsOwner(s, t, Dead);
      EnsureKeepsOwner(SetThread(s, t, Dead), false);
    }
  }

  lemma ExitKeepsOwner(s: State, step: Step)
    requires SingleOwner(s) && ExitStepOf(step) && step.t < |s.threads|
    ensures SingleOwner(Apply(s, step))
  {
    if step.Exit? || step.Release? {
      LeaveKeepsOwner(s, step.t);
    } else if step.Pop? {
      PopKeepsOwner(s, step.t);
    } else if step.Launch? {
      LaunchKeepsOwner(s, step.t);
    } else if step.TakeFlag? {
      TakeKeepsOwner(s, step.t);
    } else {
      CheckKeepsOwner(s, step.t);
    }
  }

  lemma OwnerStays(s: State, step: Step)
    requires SingleOwner(s)
    ensures SingleOwner(Apply(s, step))
  {
    if GateStep(step) {
      GateStepOwnership(s, step);
    } else if step.Ensure? {
      EnsureKeepsOwner(s, step.relaunchAfterCurrent);
    } else if ExitStepOf(step) && step.t < |s.threads| {
      ExitKeepsOwner(s, step);
    }
  }

  /** Some thread still has to read the relaunch flag. */
  ghost predicate ReaderExists(s: State) {
    exists t: nat :: t < |s.threads| && WillReadFlag(s.threads[t])
  }

  lemma ExitKeepsReader(s: State, step: Step)
    requires ReaderExists(s) && ExitStepOf(step) && step.t < |s.threads|
    ensures Apply(s, step).relaunch ==> ReaderExists(Apply(s, step))
  {
    var r: nat :| r < |s.threads| && WillReadFlag(s.threads[r]);
    var s' := Apply(s, step);
    if s'.relaunch {
      assert r < |s'.threads| && WillReadFlag(s'.threads[r]);
    }
  }

  lemma ReaderStays(s: State, step: Step)
    requires SingleOwner(s) && FlagHasReader(s)
    ensures FlagHasReader(Apply(s, step))
  {
    if GateStep(step) {
      GateStepOwnership(s, step);
    } else if step.Ensure? {
      EnsureKeepsOwner(s, step.relaunchAfterCurrent);
      var s' := EnsureWorker(s, step.relaunchAfterCurrent);
      assert s'.registered.value < |s'.threads| && WillReadFlag(s'.threads[s'.registered.value]);
    } else if ExitStepOf(step) && step.t < |s.threads| && s.relaunch {
      ExitKeepsReader(s, step);
    }
  }

  lemma MakeKeepsVersion(s: State, change: Change, w: nat, version: nat, mark: nat)
    requires VersionOk(s, w, version, mark)
    ensures VersionOk(MakeChange(s, change), w, version, mark)
  {
  }

  /** While the owner holds `w`, every pending announcement ends on `w`. */
  lemma AdvanceKeepsVersion(s: State, c: nat, w: nat, version: nat, mark: nat)
    requires VersionOk(s, w, version, mark)
    ensures VersionOk(AdvanceNotifier(s, c), w, version, mark)
  {
    if c < |s.notifiers| && s.versions[w] == version && mark <= c {
      assert WillBump(s.notifiers[c], w);
    }
  }

  lemma ChangeFrame(s: State, step: Step)
    requires step.Make? || step.Advance?
    ensures
      var s' := Apply(s, step);
      && s'.threads == s.threads && s'.wake == s.wake && s'.subscribed == s.subscribed
      && |s'.versions| == |s.versions|
  {
  }

  lemma ChangeKeepsGate(s: State, step: Step, g: Gate)
    requires GateOk(s, g) && (step.Make? || step.Advance?)
    ensures GateOk(Apply(s, step), g)
  {
    ChangeFrame(s, step);
    if g.Saved? || g.Blocked? {
      if step.Make? {
        MakeKeepsVersion(s, step.change, g.wake, g.version, g.mark);
      } else {
        AdvanceKeepsVersion(s, step.c, g.wake, g.version, g.mark);
      }
    }
  }

  lemma ChangeKeepsGates(s: State, step: Step)
    requires GatesOk(s) && (step.Make? || step.Advance?)
    ensures GatesOk(Apply(s, step))
  {
    var s' := Apply(s, step);
    ChangeFrame(s, step);
    forall t: nat | t < |s'.threads| && s'.threads[t].Looping?
      ensures GateOk(s', s'.threads[t].gate)
    {
      ChangeKeepsGate(s, step, s.threads[t].gate);
    }
  }

  /** The looping thread is the only one whose gate matters. */
  lemma OnlyItsGate(s: State, t: nat)
    requires SingleOwner(s) && s.registered == Some(t) && (s.wake.Some? ==> s.wake.value < |s.versions|)
    requires t < |s.threads| && s.threads[t].Looping? ==> GateOk(s, s.threads[t].gate)
    ensures GatesOk(s)
  {
  }

  lemma GateStepKeepsGates(s: State, step: Step)
    requires SingleOwner(s) && GatesOk(s) && GateStep(step) && GateOf(s, step.t).Some?
    ensures GatesOk(Apply(s, step))
  {
    var t := step.t;
    OwnerStays(s, step);
    GateStepOwnership(s, step);
    var s' := Apply(s, step);
    assert s.registered == Some(t) && GateOk(s, s.threads[t].gate);
    GateStepKeepsItsGate(s, step);
    OnlyItsGate(s', t);
  }

  /** The thread is in the gate and its gate is right. */
  ghost predicate ItsGateOk(s: State, t: nat) {
    && GateOf(s, t).Some? && GateOk(s, GateOf(s, t).value)
    && (s.wake.Some? ==> s.wake.value < |s.versions|)
  }

  lemma EarlyGatesOk(s: State, t: nat)
    requires ItsGateOk(s, t)
    ensures ItsGateOk(SubscribeStep(s, t), t) && ItsGateOk(FetchWakeStep(s, t), t)
  {
  }

  lemma ReadVersionOk(s: State, t: nat)
    requires ItsGateOk(s, t)
    ensures ItsGateOk(ReadVersionStep(s, t), t)
  {
  }

  lemma LateGatesOk(s: State, t: nat, timedOut: bool)
    requires ItsGateOk(s, t)
    ensures ItsGateOk(WaitStep(s, t), t) && ItsGateOk(LeaveGateStep(s, t), t) && ItsGateOk(WakeUpStep(s, t, timedOut), t)
  {
  }

  lemma GateStepKeepsItsGate(s: State, step: Step)
    requires GateStep(step) && ItsGateOk(s, step.t)
    ensures ItsGateOk(Apply(s, step), step.t)
  {
    if step.Subscribe? || step.FetchWake? {
      EarlyGatesOk(s, step.t);
    } else if step.ReadVersion? {
      ReadVersionOk(s, step.t);
    } else {
      LateGatesOk(s, step.t, step.TimeOut?);
    }
  }

  /** What the gate invariant depends on. */
  predicate SameWakes(s: State, s': State) {
    && s'.subscribed == s.subscribed && s'.wake == s.wake && s'.versions == s.versions
    && s'.notifiers == s.notifiers
  }

  lemma SameWakesSameGate(s: State, s': State, g: Gate)
    requires SameWakes(s, s') && GateOk(s, g)
    ensures GateOk(s', g)
  {
  }

  lemma ExitKeepsGates(s: State, step: Step)
    requires SingleOwner(s) && GatesOk(s) && ExitStepOf(step) && step.t < |s.threads|
    ensures GatesOk(Apply(s, step))
  {
    var s', r := Apply(s, step), step.t;
    if step.Release? && s.threads[r] == Releasing {
      assert forall t: nat | t < |s'.threads| :: !s'.threads[t].Looping?;
    } else {
      ExitKeepsWakes(s, step);
      forall t: nat | t < |s'.threads| && s'.threads[t].Looping?
        ensures GateOk(s', s'.threads[t].gate)
      {
        ExitAddsOnlyIdle(s, step, t);
        if s'.threads[t] != Looping(Idle) {
          SameWakesSameGate(s, s', s.threads[t].gate);
        }
      }
    }
  }

  lemma ExitKeepsWakes(s: State, step: Step)
    requires ExitStepOf(step) && step.t < |s.threads|
    requires !(step.Release? && s.threads[step.t] == Releasing)
    ensures SameWakes(s, Apply(s, step))
  {
  }

  /** A looping thread of `s'` was looping in the same place before, or has just been started. */
  predicate OldOrIdle(s: State, s': State, t: nat) {
    t < |s'.threads| && s'.threads[t].Looping? ==>
      s'.threads[t] == Looping(Idle) || (t < |s.threads| && s'.threads[t] == s.threads[t])
  }

  lemma MoveAddsOnlyIdle(s: State, r: nat, t: nat)
    requires r < |s.threads|
    ensures OldOrIdle(s, ExitStep(s, r), t) && OldOrIdle(s, ReleaseStep(s, r), t) && OldOrIdle(s, PopStep(s, r), t)
    ensures OldOrIdle(s, TakeFlagStep(s, r), t) && OldOrIdle(s, CheckStep(s, r), t)
  {
  }

  lemma LaunchAddsOnlyIdle(s: State, r: nat, t: nat)
    requires r < |s.threads|
    ensures OldOrIdle(s, LaunchStep(s, r), t)
  {
  }

  lemma ExitAddsOnlyIdle(s: State, step: Step, t: nat)
    requires ExitStepOf(step) && step.t < |s.threads|
    ensures OldOrIdle(s, Apply(s, step), t)
  {
    if step.Launch? {
      LaunchAddsOnlyIdle(s, step.t, t);
    } else {
      MoveAddsOnlyIdle(s, step.t, t);
    }
  }

  lemma EnsureKeepsGates(s: State, relaunch: bool)
    requires SingleOwner(s) && GatesOk(s)
    ensures GatesOk(EnsureWorker(s, relaunch))
  {
    var s' := EnsureWorker(s, relaunch);
    assert SameWakes(s, s');
    forall t: nat | t < |s'.threads| && s'.threads[t].Looping?
      ensures GateOk(s', s'.threads[t].gate)
    {
      if s'.threads[t] != Looping(Idle) {
        SameWakesSameGate(s, s', s.threads[t].gate);
      }
    }
  }

  lemma GatesStay(s: State, step: Step)
    requires SingleOwner(s) && GatesOk(s)
    ensures GatesOk(Apply(s, step))
  {
    if step.Ensure? {
      EnsureKeepsGates(s, step.relaunchAfterCurrent);
    } else if step.Make? || step.Advance? {
      ChangeKeepsGates(s, step);
    } else if ExitStepOf(step) {
      if step.t < |s.threads| {
        ExitKeepsGates(s, step);
      }
    } else if GateOf(s, step.t).Some? {
      GateStepKeepsGates(s, step);
    } else {
      NoGateNoStep(s, step);
    }
  }

  lemma NoGateNoStep(s: State, step: Step)
    requires GateStep(step) && GateOf(s, step.t).None?
    ensures Apply(s, step) == s
  {
  }

  lemma {:induction false} StepKeepsValid(s: State, step: Step)
    requires Valid(s)
    ensures Valid(Apply(s, step))
  {
    OwnerStays(s, step);
    ReaderStays(s, step);
    GatesStay(s, step);
  }

  lemma {:induction false} RunIsValid(running: bool, startGate: bool, steps: seq<Step>)
    ensures Valid(Run(Initial(running, startGate), steps))
  {
    if steps != [] {
      RunIsValid(running, startGate, steps[..|steps| - 1]);
      StepKeepsValid(Run(Initial(running, startGate), steps[..|steps| - 1]), steps[|steps| - 1]);
    }
  }

  // ------------------------------------------------------------------- results

  /** Whatever the interleaving, two threads are never both in the round loop. */
  lemma {:induction false} OneWorkerInTheLoop(running: bool, startGate: bool, steps: seq<Step>, t: nat, u: nat)
    requires
      var s := Run(Initial(running, startGate), steps);
      t < |s.threads| && u < |s.threads| && s.threads[t].Looping? && s.threads[u].Looping?
    ensures t == u
  {
    RunIsValid(running, startGate, steps);
  }

  /** A set relaunch flag always has a thread that has still to read it. */
  lemma FlagAlwaysHasReader(running: bool, startGate: bool, steps: seq<Step>)
    ensures
      var s := Run(Initial(running, startGate), steps);
      s.relaunch ==> exists t: nat :: t < |s.threads| && WillReadFlag(s.threads[t])
  {
    RunIsValid(running, startGate, steps);
  }

  /** A waiter asleep on a version that has not moved still has, for every change made after it
      read that version, an announcement under way that ends on its own wake object; and once one
      of them is finished the version has moved, so the waiter no longer sleeps. */
  lemma {:induction false} NoLostWakeUp(running: bool, startGate: bool, steps: seq<Step>, t: nat, c: nat)
    requires
      var s := Run(Initial(running, startGate), steps);
      && t < |s.threads| && s.threads[t].Looping? && s.threads[t].gate.Blocked?
      && s.threads[t].gate.mark <= c < |s.notifiers|
    ensures
      var s := Run(Initial(running, startGate), steps);
      var g := s.threads[t].gate;
      && s.wake == Some(g.wake) && g.wake < |s.versions|
      && (s.versions[g.wake] != g.version || WillBump(s.notifiers[c], g.wake))
      && (s.notifiers[c] == Finished ==> s.versions[g.wake] != g.version)
  {
    RunIsValid(running, startGate, steps);
    var s := Run(Initial(running, startGate), steps);
    assert GateOk(s, s.threads[t].gate);
  }

  /** How many steps an announcement still has before it is finished. */
  function Remaining(n: Notifier): nat {
    match n
    case Clearing => 4
    case Listing => 3
    case Matching => 3
    case LookingUp => 2
    case Bumping(_) => 1
    case Finished => 0
  }

  /** Each step of a pending announcement brings it nearer to the bump of the waiter's object. */
  lemma {:induction false} AnnouncementProgresses(running: bool, startGate: bool, steps: seq<Step>, t: nat, c: nat)
    requires
      var s := Run(Initial(running, startGate), steps);
      && t < |s.threads| && s.threads[t].Looping? && s.threads[t].gate.Blocked?
      && s.threads[t].gate.mark <= c < |s.notifiers|
      && s.threads[t].gate.wake < |s.versions|
      && s.versions[s.threads[t].gate.wake] == s.threads[t].gate.version
    ensures
      var s := Run(Initial(running, startGate), steps);
      var s', g := Apply(s, Advance(c)), s.threads[t].gate;
      && Remaining(s'.notifiers[c]) < Remaining(s.notifiers[c])
      && (s'.notifiers[c] == Finished ==> s'.versions[g.wake] == g.version + 1)
  {
    RunIsValid(running, startGate, steps);
    var s := Run(Initial(running, startGate), steps);
    assert GateOk(s, s.threads[t].gate);
    assert WillBump(s.notifiers[c], s.threads[t].gate.wake);
  }

  /** A thread that took a set flag and has not finished deciding on it. */
  predicate Deciding(th: Thread) {
    th.CheckingStop? || th.CheckingStatus? || th.CheckingStartGate? || th.Launching?
  }

  ghost predicate RelaunchPending(s: State) {
    s.relaunch || exists t: nat :: t < |s.threads| && Deciding(s.threads[t])
  }

  /** The task is running, the start gate is on, and the service is not being stopped. */
  ghost predicate Steady(s: State) {
    && s.running && s.startGate && s.stopEvent != Some(true)
    && forall c: nat | c < |s.notifiers| :: s.notifiers[c] != Clearing
  }

  predicate LaunchedBy(s: State, step: Step) {
    step.Launch? && step.t < |s.threads| && s.threads[step.t] == Launching
  }

  lemma TakenOrDecided(s: State, step: Step)
    requires RelaunchPending(s) && Steady(s) && ExitStepOf(step) && step.t < |s.threads| && !LaunchedBy(s, step)
    ensures RelaunchPending(Apply(s, step))
  {
    var s' := Apply(s, step);
    if s.relaunch {
      if !s'.relaunch {
        assert s'.threads[step.t] == CheckingStop;
      }
    } else {
      var d: nat :| d < |s.threads| && Deciding(s.threads[d]);
      assert |s'.threads| == |s.threads|;
      if d == step.t {
        assert Deciding(s'.threads[d]);
      } else {
        assert s'.threads[d] == s.threads[d];
      }
    }
  }

  lemma PendingStays(s: State, step: Step)
    requires RelaunchPending(s) && Steady(s) && !LaunchedBy(s, step)
    ensures RelaunchPending(Apply(s, step))
  {
    var s' := Apply(s, step);
    if ExitStepOf(step) {
      if step.t < |s.threads| {
        TakenOrDecided(s, step);
      }
    } else {
      assert s.relaunch ==> s'.relaunch by {
        if GateStep(step) { GateStepOwnership(s, step); }
      }
      if !s.relaunch {
        var d: nat :| d < |s.threads| && Deciding(s.threads[d]);
        if GateStep(step) { GateStepOwnership(s, step); }
        assert d < |s'.threads| && s'.threads[d] == s.threads[d];
      }
    }
  }

  ghost predicate SteadyRun(s: State, steps: seq<Step>) {
    forall k: nat | k <= |steps| :: Steady(Run(s, steps[..k]))
  }

  /** At some point of the run a thread, acting on a flag it took, called `ensure_worker`. */
  ghost predicate Relaunched(s: State, steps: seq<Step>) {
    exists k: nat :: k < |steps| && LaunchedBy(Run(s, steps[..k]), steps[k])
  }

  /** While nothing forbids it, a requested relaunch is acted on or still pending: the flag is set
      with a reader, or a thread that read it is still deciding. */
  lemma {:induction false} RelaunchIsActedOn(s: State, steps: seq<Step>)
    requires RelaunchPending(s) && SteadyRun(s, steps)
    ensures RelaunchPending(Run(s, steps)) || Relaunched(s, steps)
  {
    if steps != [] {
      var n := |steps| - 1;
      var before := steps[..n];
      assert SteadyRun(s, before) by {
        forall k: nat | k <= n ensures Steady(Run(s, before[..k])) {
          assert before[..k] == steps[..k];
        }
      }
      RelaunchIsActedOn(s, before);
      if Relaunched(s, before) {
        var k: nat :| k < n && LaunchedBy(Run(s, before[..k]), before[k]);
        assert before[..k] == steps[..k];
        assert LaunchedBy(Run(s, steps[..k]), steps[k]);
      } else if LaunchedBy(Run(s, before), steps[n]) {
        assert Relaunched(s, steps);
      } else {
        assert Steady(Run(s, steps[..n]));
        PendingStays(Run(s, before), steps[n]);
      }
    }
  }

  /** Acting on the flag always leaves a worker in the registry. */
  lemma {:induction false} LaunchLeavesAWorker(running: bool, startGate: bool, steps: seq<Step>, step: Step)
    requires LaunchedBy(Run(Initial(running, startGate), steps), step)
    ensures
      var s := Apply(Run(Initial(running, startGate), steps), step);
      s.registered.Some? && s.registered.value < |s.threads| && Owner(s.threads[s.registered.value])
  {
    RunIsValid(running, startGate, steps);
    var s := Run(Initial(running, startGate), steps);
    StepKeepsValid(s, step);
    EnsureKeepsOwner(SetThread(s, step.t, Dead), false) by {
      assert SingleOwner(SetThread(s, step.t, Dead));
    }
  }

  /** A worker is out of the registry but has not read the flag when a second one starts, and a
      relaunch is then asked of the second. */
  function OverlappedStart(): seq<Step> {
    [Ensure(false), Exit(0), Release(0)] + [Pop(0), Ensure(false), Ensure(true)]
  }

  /** The first worker then takes the flag and acts on it. */
  function TakenOver(): seq<Step> {
    [TakeFlag(0), Check(0), Check(0)] + ([Check(0), Launch(0)])
  }

  function Overlapping(threads: seq<Thread>, registered: Option<nat>, relaunch: bool): State {
    State(threads, registered, relaunch, Some(false), true, true, false, None, [], [])
  }

  /** The limit of the flag: a request made to the second worker can be taken by the first, whose
      check then finds a live worker; the second later exits with no relaunch pending. */
  lemma FlagMayBeTakenByAnOlderThread()
    ensures Run(Initial(true, true), OverlappedStart()) == Overlapping([ReadingFlag, Looping(Idle)], Some(1), true)
    ensures Run(Run(Initial(true, true), OverlappedStart()), TakenOver()) == Overlapping([Dead, Looping(Idle)], Some(1), false)
    ensures !RelaunchPending(Overlapping([Dead, Looping(Idle)], Some(1), false))
  {
    RunConcat(Initial(true, true), [Ensure(false), Exit(0), Release(0)], [Pop(0), Ensure(false), Ensure(true)]);
    FirstLeaves();
    SecondStarts();
    var s := Overlapping([ReadingFlag, Looping(Idle)], Some(1), true);
    RunConcat(s, [TakeFlag(0), Check(0), Check(0)], [Check(0), Launch(0)]);
    FirstTakesTheFlag();
    FirstFindsTheSecond();
  }

  lemma FirstLeaves()
    ensures Run(Initial(true, true), [Ensure(false), Exit(0), Release(0)]) == Overlapping([Popping], Some(0), false)
  {
    RunThree(Initial(true, true), Ensure(false), Exit(0), Release(0));
    assert EnsureWorker(Initial(true, true), false) == Overlapping([Looping(Idle)], Some(0), false);
    assert ExitStep(Overlapping([Looping(Idle)], Some(0), false), 0) == Overlapping([Releasing], Some(0), false);
    assert ReleaseStep(Overlapping([Releasing], Some(0), false), 0) == Overlapping([Popping], Some(0), false);
  }

  lemma SecondStarts()
    ensures Run(Overlapping([Popping], Some(0), false), [Pop(0), Ensure(false), Ensure(true)]) ==
            Overlapping([ReadingFlag, Looping(Idle)], Some(1), true)
  {
    RunThree(Overlapping([Popping], Some(0), false), Pop(0), Ensure(false), Ensure(true));
    assert PopStep(Overlapping([Popping], Some(0), false), 0) == Overlapping([ReadingFlag], None, false);
  }

  lemma FirstTakesTheFlag()
    ensures Run(Overlapping([ReadingFlag, Looping(Idle)], Some(1), true), [TakeFlag(0), Check(0), Check(0)]) ==
            Overlapping([CheckingStartGate, Looping(Idle)], Some(1), false)
  {
    var rest := Looping(Idle);
    RunThree(Overlapping([ReadingFlag, rest], Some(1), true), TakeFlag(0), Check(0), Check(0));
    assert TakeFlagStep(Overlapping([ReadingFlag, rest], Some(1), true), 0) == Overlapping([CheckingStop, rest], Some(1), false);
    assert CheckStep(Overlapping([CheckingStop, rest], Some(1), false), 0) == Overlapping([CheckingStatus, rest], Some(1), false);
  }

  lemma FirstFindsTheSecond()
    ensures Run(Overlapping([CheckingStartGate, Looping(Idle)], Some(1), false), [Check(0), Launch(0)]) ==
            Overlapping([Dead, Looping(Idle)], Some(1), false)
  {
    var s := Overlapping([CheckingStartGate, Looping(Idle)], Some(1), false);
    assert [Check(0), Launch(0)][..1] == [Check(0)] && [Check(0)][..0] == [];
    assert Run(s, [Check(0)]) == Apply(Run(s, []), Check(0));
    assert CheckStep(s, 0) == Overlapping([Launching, Looping(Idle)], Some(1), false);
  }

  lemma RunThree(s: State, a: Step, b: Step, c: Step)
    ensures Run(s, [a, b, c]) == Apply(Apply(Apply(s, a), b), c)
  {
    assert [a, b, c][..2] == [a, b] && [a, b][..1] == [a] && [a][..0] == [];
    assert Run(s, [a]) == Apply(Run(s, []), a);
    assert Run(s, [a, b]) == Apply(Run(s, [a]), b);
  }

  lemma {:induction false} RunConcat(s: State, a: seq<Step>, b: seq<Step>)
    ensures Run(s, a + b) == Run(Run(s, a), b)
  {
    if b == [] {
      assert a + b == a;
    } else {
      assert (a + b)[..|a + b| - 1] == a + b[..|b| - 1];
      RunConcat(s, a, b[..|b| - 1]);
    }
  }
}
