/** The service's per-task worker registry and wake-ups: each method is one critical section, and
    the whole new state is the protocol step it performs. */
module WorkerRegistry {
  import opened Options
  import opened P = WorkerProtocol

  class TaskWorkers {
    var threads: seq<Thread>
    var worker: Option<nat>
    var relaunchAfterExit: bool
    var stopEvent: Option<bool>
    var running: bool
    var startGate: bool
    var subscribed: bool
    var wake: Option<nat>
    var versions: seq<nat>
    var notifiers: seq<Notifier>

    ghost function Contents(): State
      reads this
    {
      State(threads, worker, relaunchAfterExit, stopEvent, running, startGate, subscribed, wake, versions, notifiers)
    }

    constructor (isRunning: bool, gateOn: bool)
      ensures Contents() == Initial(isRunning, gateOn)
    {
      threads, worker, relaunchAfterExit, stopEvent := [], None, false, None;
      running, startGate, subscribed, wake, versions, notifiers := isRunning, gateOn, false, None, [], [];
    }

    /** Reuse a live worker, asking it to relaunch on exit if wanted, or register a new one. */
    method EnsureTaskWorker(relaunchAfterCurrent: bool)
      modifies this
      ensures Contents() == Apply(old(Contents()), Ensure(relaunchAfterCurrent))
    {
      if worker.Some? && worker.value < |threads| && threads[worker.value] != Dead {
        if relaunchAfterCurrent {
          relaunchAfterExit := true;
        }
        return;
      }
      stopEvent := Some(false);
      worker := Some(|threads|);
      threads := threads + [Looping(Idle)];
    }

    /** First part of an exit: drop the quote subscriptions and the wake object. */
    method ReleaseSubscriptions(t: nat)
      requires t < |threads| && threads[t] == Releasing
      modifies this
      ensures Contents() == Apply(old(Contents()), Release(t))
    {
      subscribed, wake := false, None;
      threads := threads[t := Popping];
    }

    /** Second part: leave the registry, if still in it. */
    method LeaveRegistry(t: nat)
      requires t < |threads| && threads[t] == Popping
      modifies this
      ensures Contents() == Apply(old(Contents()), Pop(t))
    {
      if worker == Some(t) {
        worker := None;
      }
      threads := threads[t := ReadingFlag];
    }

    /** Third part: read and clear the relaunch flag. */
    method TakeRelaunchFlag(t: nat) returns (relaunch: bool)
      requires t < |threads| && threads[t] == ReadingFlag
      modifies this
      ensures relaunch == old(relaunchAfterExit)
      ensures Contents() == Apply(old(Contents()), TakeFlag(t))
    {
      relaunch := relaunchAfterExit;
      relaunchAfterExit := false;
      threads := threads[t := if relaunch then CheckingStop else Dead];
    }

    /** Find or make the task's wake object. */
    method SmoothWake(t: nat) returns (w: nat)
      requires t < |threads| && threads[t] == Looping(Subscribed)
      modifies this
      ensures Contents() == Apply(old(Contents()), FetchWake(t))
      ensures wake == Some(w) && threads[t] == Looping(Holding(w))
    {
      if wake.None? {
        wake := Some(|versions|);
        versions := versions + [0];
      }
      w := wake.value;
      threads := threads[t := Looping(Holding(w))];
    }

    /** Sleep unless the version has moved since it was read. */
    method WaitFor(t: nat) returns (asleep: bool)
      requires t < |threads| && threads[t].Looping? && threads[t].gate.Saved? && threads[t].gate.wake < |versions|
      modifies this
      ensures Contents() == Apply(old(Contents()), Wait(t))
      ensures asleep <==> threads[t].gate.Blocked?
    {
      var g := threads[t].gate;
      asleep := versions[g.wake] == g.version;
      threads := threads[t := Looping(if asleep then Blocked(g.wake, g.version, g.mark) else Holding(g.wake))];
    }

    /** Announce change `c`: look the wake object up, then bump its version. */
    method NotifySmoothTask(c: nat)
      requires c < |notifiers| && notifiers[c] == LookingUp
      requires wake.Some? ==> wake.value < |versions|
      modifies this
      ensures Contents() == if old(wake).Some? then Apply(Apply(old(Contents()), Advance(c)), Advance(c))
                            else Apply(old(Contents()), Advance(c))
      ensures notifiers[c] == Finished
      ensures wake.Some? ==> versions[wake.value] == old(versions[wake.value]) + 1
    {
      if wake.None? {
        notifiers := notifiers[c := Finished];
        return;
      }
      var w := wake.value;
      notifiers := notifiers[c := Bumping(w)];
      versions := versions[w := versions[w] + 1];
      notifiers := notifiers[c := Finished];
    }

    /** Service stop: wake every pacing worker and announce it; the relaunch flags are cleared by
        the first step of the announcement. */
    method StopService()
      modifies this
      ensures Contents() == Apply(old(Contents()), Make(Stop))
    {
      if stopEvent.Some? {
        stopEvent := Some(true);
      }
      notifiers := notifiers + [Clearing];
    }
  }
}
