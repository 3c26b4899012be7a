/** The members of a group (pkg/runner/grouprunner.go): `Add`, and the state in which `Run` and
    `RunAsync` find the group. */
module GroupMembers {
  import opened RunnerProtocol
  import opened GroupProtocol

  class GroupRunner {
    var runners: map<Id, nat>    // the interrupt duration of each runner, by its id
    var runnersCount: nat
    var isRunning: bool
    var interruptDur: nat

    ghost predicate Valid()
      reads this
    {
      runnersCount == |runners|
    }

    constructor (interruptDur: nat)
      ensures Valid() && runners == map[] && !isRunning && this.interruptDur == interruptDur
    {
      this.runners, this.runnersCount, this.isRunning, this.interruptDur := map[], 0, false, interruptDur;
    }

    /** Panics when the group has started or the id is taken, and then changes nothing. */
    method Add(id: Id, dur: nat) returns (panicked: bool)
      requires Valid()
      modifies this
      ensures Valid() && isRunning == old(isRunning) && interruptDur == old(interruptDur)
      ensures panicked <==> old(isRunning) || id in old(runners)
      ensures runners == if panicked then old(runners) else old(runners)[id := dur]
    {
      if isRunning {
        return true;
      }
      if id in runners {
        return true;
      }
      runners := runners[id := dur];
      runnersCount := runnersCount + 1;
      return false;
    }

    /** What `Run` (or, with `async`, `RunAsync`) starts from: the members as they were added, and a
        channel that has room for the result of each. */
    method Begin(async: bool) returns (group: Group, capacity: nat)
      requires Valid()
      modifies this`isRunning
      ensures isRunning && Initial(group) && group.async == async && group.dur == interruptDur
      ensures group.runners.Keys == runners.Keys && capacity == |group.runners|
      ensures forall i <- runners :: group.runners[i].dur == runners[i]
    {
      isRunning := true;
      capacity := runnersCount;
      var members := map i | i in runners :: NewRunner(i, runners[i]);
      assert members.Keys == runners.Keys;
      assert |members| == |members.Keys| == |runners.Keys|;
      group := Group(async, members, interruptDur, [], false, Chan(1, [], false), NoWalk, Unarmed, NotStarted, [], 0, None, {}, false);
    }
  }
}
