/** What a worker found before it launches its successor. */
module WorkerLaunch {
  import opened Options
  import opened WorkerProtocol

  /** The four reads of an exiting worker, in order. */
  datatype Read = Flag | StopEvent | Status | StartGate

  /** Where a thread that makes the read stands, and where it stands once the read allows it on. */
  function Before(r: Read): Thread {
    match r
    case Flag => ReadingFlag
    case StopEvent => CheckingStop
    case Status => CheckingStatus
    case StartGate => CheckingStartGate
  }

  function After(r: Read): Thread {
    match r
    case Flag => CheckingStop
    case StopEvent => CheckingStatus
    case Status => CheckingStartGate
    case StartGate => Launching
  }

  predicate Allows(s: State, r: Read) {
    match r
    case Flag => s.relaunch
    case StopEvent => s.stopEvent != Some(true)
    case Status => s.running
    case StartGate => s.startGate
  }

  predicate StandsAt(s: State, t: nat, th: Thread) {
    t < |s.threads| && s.threads[t] == th
  }

  lemma OnlyTheReadMoves(s: State, step: Step, t: nat, r: Read)
    requires StandsAt(Apply(s, step), t, After(r)) && !StandsAt(s, t, After(r))
    ensures StandsAt(s, t, Before(r)) && Allows(s, r)
  {
    if GateStep(step) {
      GateStepOwnership(s, step);
      assert false;
    }
  }

  /** After `i` steps the thread stood at the read and the read allowed it on. */
  ghost predicate AllowedAt(running: bool, startGate: bool, steps: seq<Step>, t: nat, r: Read, i: nat) {
    && i < |steps|
    && var s := Run(Initial(running, startGate), steps[..i]);
    StandsAt(s, t, Before(r)) && Allows(s, r)
  }

  lemma {:induction false} ReadWasAllowed(running: bool, startGate: bool, steps: seq<Step>, t: nat, r: Read) returns (i: nat)
    requires StandsAt(Run(Initial(running, startGate), steps), t, After(r))
    ensures AllowedAt(running, startGate, steps, t, r, i)
  {
    var n := |steps| - 1;
    var s := Run(Initial(running, startGate), steps[..n]);
    if StandsAt(s, t, After(r)) {
      i := ReadWasAllowed(running, startGate, steps[..n], t, r);
      assert steps[..n][..i] == steps[..i];
    } else {
      i := n;
      OnlyTheReadMoves(s, steps[n], t, r);
    }
  }

  lemma AllowedLonger(running: bool, startGate: bool, steps: seq<Step>, n: nat, t: nat, r: Read, i: nat)
    requires n <= |steps| && AllowedAt(running, startGate, steps[..n], t, r, i)
    ensures AllowedAt(running, startGate, steps, t, r, i)
  {
    assert steps[..n][..i] == steps[..i];
  }

  /** The read before one that a thread was allowed. */
  lemma {:induction false} ReadBefore(running: bool, startGate: bool, steps: seq<Step>, t: nat, k: nat, r: Read, earlier: Read)
    returns (i: nat)
    requires AllowedAt(running, startGate, steps, t, r, k) && After(earlier) == Before(r)
    ensures i < k && AllowedAt(running, startGate, steps, t, earlier, i)
  {
    i := ReadWasAllowed(running, startGate, steps[..k], t, earlier);
    AllowedLonger(running, startGate, steps, k, t, earlier, i);
  }

  /** A worker about to launch its successor has, in this order, taken a set flag, found the service
      not stopping, the task running and the start gate on; whatever ran in between. */
  lemma {:induction false} LaunchWasAllowed(running: bool, startGate: bool, steps: seq<Step>, t: nat)
    returns (h: nat, i: nat, j: nat, k: nat)
    requires StandsAt(Run(Initial(running, startGate), steps), t, Launching)
    ensures h < i < j < k < |steps|
    ensures AllowedAt(running, startGate, steps, t, Flag, h) && AllowedAt(running, startGate, steps, t, StopEvent, i)
    ensures AllowedAt(running, startGate, steps, t, Status, j) && AllowedAt(running, startGate, steps, t, StartGate, k)
  {
    k := ReadWasAllowed(running, startGate, steps, t, StartGate);
    j := ReadBefore(running, startGate, steps, t, k, StartGate, Status);
    i := ReadBefore(running, startGate, steps, t, j, Status, StopEvent);
    h := ReadBefore(running, startGate, steps, t, i, StopEvent, Flag);
  }

  /** A thread is only ever started by an ensure or by such a launch, one at a time, and only while no
      living worker is registered. */
  lemma StartedOnlyWhenNoneLives(s: State, step: Step)
    requires |Apply(s, step).threads| != |s.threads|
    ensures step.Ensure? || (step.Launch? && StandsAt(s, step.t, Launching))
    ensures |Apply(s, step).threads| == |s.threads| + 1 && Apply(s, step).registered == Some(|s.threads|)
    ensures s.registered.Some? && s.registered.value < |s.threads| ==>
      s.threads[s.registered.value] == Dead || (step.Launch? && step.t == s.registered.value)
  {
    if GateStep(step) {
      GateStepOwnership(s, step);
      assert false;
    }
  }
}
