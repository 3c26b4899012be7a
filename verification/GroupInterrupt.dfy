/** What the group's interrupt and its tasks owe to each other (pkg/runner/grouprunner.go), stated
    on the acts of a run: whom the interrupt stops, whom it leaves alone, where results come from,
    and that nobody waits for an interrupt to get going. */
module GroupInterrupt {
  import opened RunnerProtocol
  import opened GroupProtocol
  import opened GroupTheorems

  /** The step that an act of the group makes in the runner `i`, if it makes one. */
  function ActOn(s: Group, act: GroupAct, i: Id): Option<Act> {
    match act
    case Do(j, a) => if j == i then Some(a) else None
    case SendResult(j) => if j == i then Some(Deliver) else None
    case Launch(j) => if j == i && j in s.runners && !s.runners[j].running then Some(CallRun) else None
    case Swap =>
      if s.walk.Walking? && s.walk.at == Checked(i) && i in s.runners && !s.runners[i].interrupted then Some(CallInterrupt)
      else None
    case _ => None
  }

  /** An act of the group changes a runner by a step of that runner, or not at all. */
  lemma RunnerPart(s: Group, act: GroupAct, i: Id)
    requires RunnersInv(s) && GroupStep(s, act).Some? && i in s.runners
    ensures i in GroupStep(s, act).value.runners
    ensures ActOn(s, act, i).Some? ==> Step(s.runners[i], ActOn(s, act, i).value).Some?
    ensures GroupStep(s, act).value.runners[i] ==
      if ActOn(s, act, i).None? then s.runners[i] else Step(s.runners[i], ActOn(s, act, i).value).value
  {
    hide Inv, Step;
    if act.Do? || act.SendResult? || act.Launch? {
      OwnPart(s, act, i);
    } else {
      WalkPart(s, act, i);
    }
  }

  lemma OwnPart(s: Group, act: GroupAct, i: Id)
    requires act.Do? || act.SendResult? || act.Launch?
    requires RunnersInv(s) && GroupStep(s, act).Some? && i in s.runners
    ensures i in GroupStep(s, act).value.runners
    ensures ActOn(s, act, i).Some? ==> Step(s.runners[i], ActOn(s, act, i).value).Some?
    ensures GroupStep(s, act).value.runners[i] ==
      if ActOn(s, act, i).None? then s.runners[i] else Step(s.runners[i], ActOn(s, act, i).value).value
  {
    hide Inv, Step;
    if ActOn(s, act, i).Some? && !act.Do? {
      OutsidersAct(s.runners[i], ActOn(s, act, i).value);
    }
  }

  lemma WalkPart(s: Group, act: GroupAct, i: Id)
    requires !act.Do? && !act.SendResult? && !act.Launch?
    requires RunnersInv(s) && GroupStep(s, act).Some? && i in s.runners
    ensures i in GroupStep(s, act).value.runners
    ensures ActOn(s, act, i).Some? ==> Step(s.runners[i], ActOn(s, act, i).value).Some?
    ensures GroupStep(s, act).value.runners[i] ==
      if ActOn(s, act, i).None? then s.runners[i] else Step(s.runners[i], ActOn(s, act, i).value).value
  {
    hide Inv, Step;
    if act == Swap {
      hide MainAct, LaunchAct, GroupTimerAct, RunnerAct, DeliverAct;
      if ActOn(s, act, i).Some? {
        OutsidersAct(s.runners[i], CallInterrupt);
      }
    } else {
      hide GroupStep, RunnersInv;
      KeepsRunners(s, act);
    }
  }

  lemma KeepsRunners(s: Group, act: GroupAct)
    requires !act.Do? && !act.SendResult? && !act.Launch? && !act.Swap? && GroupStep(s, act).Some?
    ensures GroupStep(s, act).value.runners == s.runners
  {
    hide Inv, Step, RunnerAct, DeliverAct;
    if act.OtherInterrupt? || act.Visit? || act.StopperDone? || act.ArmTimer? {
      hide MainAct, LaunchAct, GroupTimerAct;
    } else {
      hide WalkAct;
      if act.Start? || act.Launched? || act.GroupTimerFire? || act.GroupTimerSend? || act.GroupTimerClose? {
        hide MainAct;
      } else {
        hide LaunchAct, GroupTimerAct;
      }
    }
  }

  /** What a step of a runner leaves as it is. */
  lemma RunnerMoves(r: Runner, a: Act)
    requires Inv(r) && Step(r, a).Some?
    ensures var r' := Step(r, a).value;
      && r'.interrupted == (r.interrupted || a == CallInterrupt)
      && (r.finished.closed ==> r'.finished.closed)
      && (r.interrupter == StopperReturned ==> r'.interrupter == StopperReturned)
  {
    hide Channels;
  }

  // ----- whom the interrupt stops -----

  /** The interrupt has nothing more to do for this runner. */
  predicate Seen(r: Runner) {
    r.finished.closed || r.interrupted
  }

  /** The interrupt passes over nobody. */
  predicate Covered(s: Group) {
    && (s.walk.Walking? ==> forall i <- s.runners :: i in s.walk.todo || s.walk.at == Checked(i) || Seen(s.runners[i]))
    && (s.walk == WalkDone ==> forall i <- s.runners :: Seen(s.runners[i]))
  }

  lemma SeenStays(s: Group, act: GroupAct, i: Id)
    requires RunnersInv(s) && GroupStep(s, act).Some? && i in s.runners && Seen(s.runners[i])
    ensures i in GroupStep(s, act).value.runners && Seen(GroupStep(s, act).value.runners[i])
  {
    hide Inv, Step, GroupStep, ActOn;
    RunnerPart(s, act, i);
    if ActOn(s, act, i).Some? {
      RunnerMoves(s.runners[i], ActOn(s, act, i).value);
    }
  }

  /** Who no longer is to be visited, or under the range's hand, has been seen to. */
  lemma WalkMoves(s: Group, act: GroupAct, i: Id)
    requires RunnersInv(s) && ControlInv(s) && GroupStep(s, act).Some? && i in s.runners && s.walk.Walking?
    requires i in s.walk.todo || s.walk.at == Checked(i)
    ensures var t := GroupStep(s, act).value;
      && (t.walk == WalkDone || (t.walk.Walking? && i !in t.walk.todo && t.walk.at != Checked(i)) ==>
            i in t.runners && Seen(t.runners[i]))
      && t.walk != NoWalk
  {
    hide *;
    if act.Visit? || act.Swap? || act.StopperDone? || act.ArmTimer? {
      RangeMoves(s, act, i);
    } else {
      OthersKeepRange(s, act);
    }
  }

  lemma RangeMoves(s: Group, act: GroupAct, i: Id)
    requires act.Visit? || act.Swap? || act.StopperDone? || act.ArmTimer?
    requires RunnersInv(s) && GroupStep(s, act).Some? && i in s.runners && s.walk.Walking?
    requires i in s.walk.todo || s.walk.at == Checked(i)
    ensures var t := GroupStep(s, act).value;
      && (t.walk == WalkDone || (t.walk.Walking? && i !in t.walk.todo && t.walk.at != Checked(i)) ==>
            i in t.runners && Seen(t.runners[i]))
      && t.walk != NoWalk
  {
    hide Inv, Step;
    FinishedIsClosed(s.runners[i]);
    if act.Swap? && s.walk.at == Checked(i) {
      StepEffect(s.runners[i], CallInterrupt);
    }
  }

  /** Only its own acts move a range. */
  lemma OthersKeepRange(s: Group, act: GroupAct)
    requires !(act.Visit? || act.Swap? || act.StopperDone? || act.ArmTimer?)
    requires GroupStep(s, act).Some? && s.walk != NoWalk && ControlInv(s)
    ensures GroupStep(s, act).value.walk == s.walk
  {
    hide Inv, Step, Chan.CanReceive, Chan.AfterReceive;
  }

  lemma FinishedIsClosed(r: Runner)
    requires Inv(r)
    ensures r.finished.CanReceive() == r.finished.closed
  {}

  /** Where a range is, or is over, after a step, it was before, or it has just begun. */
  lemma WalkBegins(s: Group, act: GroupAct)
    requires GroupStep(s, act).Some? && ControlInv(s)
    ensures var t := GroupStep(s, act).value;
      && (s.walk == NoWalk ==> t.walk == NoWalk || (t.walk.Walking? && t.walk.todo == s.runners.Keys))
      && (s.walk == WalkDone ==> t.walk == WalkDone)
  {
    hide Inv, Step, Chan.CanReceive, Chan.AfterReceive, ControlInv;
    if s.walk == WalkDone && !(act.Visit? || act.Swap? || act.StopperDone? || act.ArmTimer?) {
      OthersKeepRange(s, act);
    }
  }

  lemma StepKeepsCovered(s: Group, act: GroupAct)
    requires GroupInv(s) && Covered(s) && GroupStep(s, act).Some?
    ensures Covered(GroupStep(s, act).value)
  {
    hide RunnersInv, LogInv, TimeoutInv, ControlInv, FirstInv, GroupStep, Seen;
    var t := GroupStep(s, act).value;
    StepKeepsGroupInv(s, act);
    WalkBegins(s, act);
    forall i | i in s.runners && s.walk != NoWalk
      ensures t.walk == WalkDone || (t.walk.Walking? && i !in t.walk.todo && t.walk.at != Checked(i)) ==> Seen(t.runners[i])
    {
      if s.walk.Walking? && (i in s.walk.todo || s.walk.at == Checked(i)) {
        WalkMoves(s, act, i);
      } else {
        SeenStays(s, act, i);
      }
    }
  }

  lemma {:induction false} ExecKeepsCovered(s: Group, acts: seq<GroupAct>)
    requires GroupInv(s) && Covered(s) && Exec(s, acts).Some?
    ensures Covered(Exec(s, acts).value)
    decreases |acts|
  {
    hide GroupInv, Covered, GroupStep;
    if acts != [] {
      StepKeepsGroupInv(s, acts[0]);
      StepKeepsCovered(s, acts[0]);
      ExecKeepsCovered(GroupStep(s, acts[0]).value, acts[1..]);
    }
  }

  /** When the group's interrupt is through, every runner has finished or has been interrupted; and
      at any time before, all that are not still to be visited. */
  lemma InterruptReachesAll(s: Group)
    requires Reachable(s)
    ensures s.walk == WalkDone ==> forall i <- s.runners :: s.runners[i].finished.closed || s.runners[i].interrupted
    ensures s.walk.Walking? ==>
      forall i <- s.runners :: i in s.walk.todo || s.walk.at == Checked(i) || s.runners[i].finished.closed || s.runners[i].interrupted
  {
    var s0, acts :| Initial(s0) && Exec(s0, acts) == Some(s);
    hide GroupInv, GroupStep, Exec;
    assert Covered(s0);
    InitialInv(s0);
    ExecKeepsCovered(s0, acts);
  }

  /** The range waits for the stopper of this runner, or has waited for it. */
  predicate WaitedFor(s: Group, i: Id) {
    i in s.runners && ((s.walk.Walking? && s.walk.at == Stopping(i)) || s.runners[i].interrupter == StopperReturned)
  }

  lemma StepKeepsWaiting(s: Group, act: GroupAct, i: Id)
    requires GroupInv(s) && WaitedFor(s, i) && GroupStep(s, act).Some?
    ensures WaitedFor(GroupStep(s, act).value, i)
  {
    hide LogInv, TimeoutInv, ControlInv, FirstInv, Inv, Step;
    RunnerPart(s, act, i);
    if ActOn(s, act, i).Some? {
      RunnerMoves(s.runners[i], ActOn(s, act, i).value);
    }
    hide ActOn, RunnersInv;
    if s.runners[i].interrupter != StopperReturned {
      RangeWaits(s, act, i);
    }
  }

  lemma RangeWaits(s: Group, act: GroupAct, i: Id)
    requires GroupStep(s, act).Some? && ControlInv(s)
    requires s.walk.Walking? && s.walk.at == Stopping(i) && i in s.runners && s.runners[i].interrupter != StopperReturned
    ensures GroupStep(s, act).value.walk == s.walk
  {
    hide Step;
  }

  lemma {:induction false} ExecKeepsWaiting(s: Group, acts: seq<GroupAct>, i: Id)
    requires GroupInv(s) && WaitedFor(s, i) && Exec(s, acts).Some?
    ensures GroupInv(Exec(s, acts).value) && WaitedFor(Exec(s, acts).value, i)
    decreases |acts|
  {
    hide GroupInv, WaitedFor, GroupStep;
    if acts != [] {
      StepKeepsGroupInv(s, acts[0]);
      StepKeepsWaiting(s, acts[0], i);
      ExecKeepsWaiting(GroupStep(s, acts[0]).value, acts[1..], i);
    }
  }

  lemma WonSwap(s: Group, i: Id)
    requires GroupInv(s) && s.walk.Walking? && s.walk.at == Checked(i) && i in s.runners && !s.runners[i].interrupted
    requires GroupStep(s, Swap).Some?
    ensures WaitedFor(GroupStep(s, Swap).value, i)
  {
    hide GroupInv, Step;
  }

  lemma StopperWasCalled(s: Group, i: Id)
    requires RunnersInv(s) && WaitedFor(s, i) && s.walk == WalkDone
    ensures s.runners[i].interrupter == StopperReturned && s.runners[i].stopperCalls == 1
  {
    hide Channels;
  }

  /** A runner whose swap the group's interrupt itself won: when the interrupt is through, the
      runner's stopper has been called, once, and has returned. */
  lemma WonSwapIsWaitedFor(s: Group, i: Id, more: seq<GroupAct>)
    requires Reachable(s) && s.walk.Walking? && s.walk.at == Checked(i) && i in s.runners && !s.runners[i].interrupted
    requires GroupStep(s, Swap).Some? && Exec(GroupStep(s, Swap).value, more).Some?
    ensures var t := Exec(GroupStep(s, Swap).value, more).value;
      && i in t.runners
      && (t.walk == WalkDone ==> t.runners[i].interrupter == StopperReturned && t.runners[i].stopperCalls == 1)
  {
    ReachableInv(s);
    WonSwap(s, i);
    hide *;
    StepKeepsGroupInv(s, Swap);
    ExecKeepsWaiting(GroupStep(s, Swap).value, more, i);
    var t := Exec(GroupStep(s, Swap).value, more).value;
    IsMember(t, i);
    if t.walk == WalkDone {
      Parts(t);
      StopperWasCalled(t, i);
    }
  }

  lemma IsMember(s: Group, i: Id)
    requires WaitedFor(s, i)
    ensures i in s.runners
  {}

  /** Nobody but the group's interrupt interrupts the runner, and that one waits for the stopper. */
  predicate OnlyByWalk(s: Group, i: Id) {
    i in s.runners && (s.runners[i].interrupted ==> WaitedFor(s, i))
  }

  lemma StepKeepsOnlyByWalk(s: Group, act: GroupAct, i: Id)
    requires GroupInv(s) && OnlyByWalk(s, i) && act != Do(i, CallInterrupt) && GroupStep(s, act).Some?
    ensures OnlyByWalk(GroupStep(s, act).value, i)
  {
    hide LogInv, TimeoutInv, ControlInv, FirstInv, Inv, Step, GroupStep, WaitedFor;
    RunnerPart(s, act, i);
    if s.runners[i].interrupted {
      StepKeepsWaiting(s, act, i);
    } else if ActOn(s, act, i).Some? {
      RunnerMoves(s.runners[i], ActOn(s, act, i).value);
      if act.Swap? {
        WonSwap(s, i);
      }
    }
  }

  lemma {:induction false} ExecKeepsOnlyByWalk(s: Group, acts: seq<GroupAct>, i: Id)
    requires GroupInv(s) && OnlyByWalk(s, i) && Do(i, CallInterrupt) !in acts && Exec(s, acts).Some?
    ensures GroupInv(Exec(s, acts).value) && OnlyByWalk(Exec(s, acts).value, i)
    decreases |acts|
  {
    hide GroupInv, OnlyByWalk, GroupStep;
    if acts != [] {
      StepKeepsGroupInv(s, acts[0]);
      StepKeepsOnlyByWalk(s, acts[0], i);
      ExecKeepsOnlyByWalk(GroupStep(s, acts[0]).value, acts[1..], i);
    }
  }

  lemma AllAlone(s: Group, i: Id)
    requires Initial(s) && i in s.runners
    ensures OnlyByWalk(s, i)
  {}

  lemma CalledIfInterrupted(s: Group, i: Id)
    requires GroupInv(s) && OnlyByWalk(s, i) && s.walk == WalkDone && s.runners[i].interrupted
    ensures s.runners[i].interrupter == StopperReturned && s.runners[i].stopperCalls == 1
  {
    hide LogInv, TimeoutInv, ControlInv, FirstInv, RunnersInv, WaitedFor;
    StopperWasCalled(s, i);
  }

  /** The task has ended, or its stopper has been called, once, and has returned. */
  predicate Stopped(r: Runner) {
    r.finished.closed || (r.interrupter == StopperReturned && r.stopperCalls == 1)
  }

  /** When the group's interrupt is through, every runner that nobody else interrupted has finished,
      or its stopper has been called, once, and has returned. */
  lemma InterruptStopsAll(s0: Group, acts: seq<GroupAct>, i: Id)
    requires Initial(s0) && Exec(s0, acts).Some? && i in s0.runners && Do(i, CallInterrupt) !in acts
    ensures var s := Exec(s0, acts).value;
      && i in s.runners
      && (s.walk == WalkDone ==> Stopped(s.runners[i]))
  {
    hide GroupInv, GroupStep, Exec, OnlyByWalk, Initial, WaitedFor;
    AllAlone(s0, i);
    InitialInv(s0);
    ExecKeepsGroupInv(s0, acts);
    ExecKeepsOnlyByWalk(s0, acts, i);
    var s := Exec(s0, acts).value;
    InterruptReachesAll(s);
    if s.walk == WalkDone && s.runners[i].interrupted {
      CalledIfInterrupted(s, i);
    }
  }

  // ----- Run's own interrupt -----

  /** Without callers from outside, main's own interrupt is the group's only one. */
  predicate MainWalks(s: Group) {
    match s.main
    case NotStarted => s.walk == NoWalk
    case Launching(_) => s.walk == NoWalk
    case WaitFirst => s.walk == NoWalk
    case CallingInterrupt => s.walk == NoWalk
    case InInterrupt => s.walk == WalkDone || (s.walk.Walking? && s.walk.byMain)
    case Collecting => s.walk == WalkDone
    case Finished => s.walk == WalkDone
  }

  lemma StepKeepsMainWalks(s: Group, act: GroupAct)
    requires ControlInv(s) && MainWalks(s) && act != OtherInterrupt && GroupStep(s, act).Some?
    ensures MainWalks(GroupStep(s, act).value)
  {
    hide Step, Inv;
  }

  lemma {:induction false} ExecKeepsMainWalks(s: Group, acts: seq<GroupAct>)
    requires GroupInv(s) && MainWalks(s) && OtherInterrupt !in acts && Exec(s, acts).Some?
    ensures MainWalks(Exec(s, acts).value)
    decreases |acts|
  {
    hide GroupInv, MainWalks, GroupStep;
    if acts != [] {
      StepKeepsGroupInv(s, acts[0]);
      Parts(s);
      StepKeepsMainWalks(s, acts[0]);
      ExecKeepsMainWalks(GroupStep(s, acts[0]).value, acts[1..]);
    }
  }

  /** `Run` does not collect the other results, let alone return, before its interrupt has stopped
      every runner that has not finished. */
  lemma RunStopsAll(s0: Group, acts: seq<GroupAct>, i: Id)
    requires Initial(s0) && Exec(s0, acts).Some? && i in s0.runners
    requires OtherInterrupt !in acts && Do(i, CallInterrupt) !in acts
    ensures var s := Exec(s0, acts).value;
      && i in s.runners
      && (s.main == Collecting || s.main == Finished ==> Stopped(s.runners[i]))
  {
    assert MainWalks(s0);
    hide GroupInv, GroupStep, Exec, Initial;
    InitialInv(s0);
    ExecKeepsMainWalks(s0, acts);
    InterruptStopsAll(s0, acts, i);
  }

  // ----- whom Run's own interrupt leaves alone -----

  /** The first wait was ended by a result, and only main's interrupt stops anyone. */
  predicate Spared(s: Group, i: Id) {
    && MainWalks(s) && i in s.runners
    && (s.runners[i].interrupted ==> i in s.stoppedByMain)
    && (FirstWaitOver(s) ==> s.results != [] && s.first == Some(s.results[0]))
  }

  lemma StepKeepsResults(s: Group, act: GroupAct)
    requires ControlInv(s) && act != FirstCtxDone && GroupStep(s, act).Some?
    requires FirstWaitOver(s) ==> s.results != [] && s.first == Some(s.results[0])
    ensures var t := GroupStep(s, act).value; FirstWaitOver(t) ==> t.results != [] && t.first == Some(t.results[0])
  {
    hide Step, Inv;
    if ApartFromMain(act) {
      hide GroupStep;
      ApartKeepsMain(s, act);
    } else {
      hide RunnerAct, DeliverAct, GroupTimerAct;
    }
  }

  /** A step of a runner or of the group's timer. */
  predicate ApartFromMain(act: GroupAct) {
    act.Do? || act.SendResult? || act.GroupTimerFire? || act.GroupTimerSend? || act.GroupTimerClose?
  }

  lemma ApartKeepsMain(s: Group, act: GroupAct)
    requires ApartFromMain(act) && GroupStep(s, act).Some?
    ensures var t := GroupStep(s, act).value; t.main == s.main && t.results == s.results && t.first == s.first
  {
    hide Step, Inv;
  }

  lemma StepKeepsClaims(s: Group, act: GroupAct, i: Id)
    requires GroupStep(s, act).Some? && i in s.runners
    requires s.walk.Walking? ==> s.walk.byMain
    ensures var t := GroupStep(s, act).value;
      && (i in s.stoppedByMain || ActOn(s, act, i) == Some(CallInterrupt) ==> act == Do(i, CallInterrupt) || i in t.stoppedByMain)
  {
    hide Step, Inv;
  }

  lemma StepKeepsSpared(s: Group, act: GroupAct, i: Id)
    requires GroupInv(s) && Spared(s, i) && GroupStep(s, act).Some?
    requires act != OtherInterrupt && act != FirstCtxDone && act != Do(i, CallInterrupt)
    ensures Spared(GroupStep(s, act).value, i)
  {
    hide RunnersInv, LogInv, TimeoutInv, ControlInv, FirstInv, GroupStep, ActOn, FirstWaitOver, Inv, Step;
    StepKeepsMainWalks(s, act);
    StepKeepsResults(s, act);
    StepKeepsClaims(s, act, i);
    RunnerPart(s, act, i);
    HasInv(s, i);
    if ActOn(s, act, i).Some? {
      RunnerMoves(s.runners[i], ActOn(s, act, i).value);
    }
  }

  lemma HasInv(s: Group, i: Id)
    requires RunnersInv(s) && i in s.runners
    ensures Inv(s.runners[i]) && s.runners[i].id == i
  {}

  lemma {:induction false} ExecKeepsSpared(s: Group, acts: seq<GroupAct>, i: Id)
    requires GroupInv(s) && Spared(s, i) && Exec(s, acts).Some?
    requires OtherInterrupt !in acts && FirstCtxDone !in acts && Do(i, CallInterrupt) !in acts
    ensures GroupInv(Exec(s, acts).value) && Spared(Exec(s, acts).value, i)
    decreases |acts|
  {
    hide GroupInv, Spared, GroupStep;
    if acts != [] {
      StepKeepsGroupInv(s, acts[0]);
      StepKeepsSpared(s, acts[0], i);
      ExecKeepsSpared(GroupStep(s, acts[0]).value, acts[1..], i);
    }
  }

  lemma NoResultsYet(s: Group)
    requires ControlInv(s) && s.results != []
    ensures FirstWaitOver(s)
  {}

  /** `RunAsync` has no context that could end. */
  lemma {:induction false} AsyncHasNoContext(s: Group, acts: seq<GroupAct>)
    requires s.async && Exec(s, acts).Some?
    ensures FirstCtxDone !in acts
    decreases |acts|
  {
    hide GroupStep;
    if acts != [] {
      AsyncStep(s, acts[0]);
      AsyncHasNoContext(GroupStep(s, acts[0]).value, acts[1..]);
    }
  }

  lemma AsyncStep(s: Group, act: GroupAct)
    requires s.async && GroupStep(s, act).Some?
    ensures act != FirstCtxDone && GroupStep(s, act).value.async
  {
    hide Step;
  }

  /** A task whose own result ended the first wait is not stopped: unless somebody else interrupts it
      or the group, its stopper is never called. */
  lemma FinisherIsSpared(s0: Group, acts: seq<GroupAct>, i: Id)
    requires Initial(s0) && Exec(s0, acts).Some? && i in s0.runners
    requires OtherInterrupt !in acts && (s0.async || FirstCtxDone !in acts) && Do(i, CallInterrupt) !in acts
    ensures var s := Exec(s0, acts).value;
      && i in s.runners
      && (s.results != [] && s.results[0].TaskResult? && s.results[0].id == i ==>
            !s.runners[i].interrupted && s.runners[i].stopperCalls == 0)
  {
    assert Spared(s0, i);
    hide GroupInv, GroupStep, Exec, Initial;
    if s0.async {
      AsyncHasNoContext(s0, acts);
    }
    InitialInv(s0);
    ExecKeepsSpared(s0, acts, i);
    var s := Exec(s0, acts).value;
    Parts(s);
    if s.results != [] && s.results[0].TaskResult? && s.results[0].id == i {
      hide RunnersInv, LogInv, TimeoutInv, ControlInv;
      NoResultsYet(s);
      HasInv(s, i);
      hide Channels;
    }
  }

  // ----- where results come from -----

  /** What a body has returned, a fired timer and a duration go back to a member's initial state or
      to acts of the run. */
  predicate Traced(s0: Group, acts: seq<GroupAct>, s: Group, i: Id) {
    && i in s0.runners && i in s.runners
    && s.runners[i].dur == s0.runners[i].dur
    && (ErrOf(s.runners[i].body).Some? ==>
          ErrOf(s.runners[i].body) == ErrOf(s0.runners[i].body) || Do(i, BodyReturn(ErrOf(s.runners[i].body).value)) in acts)
    && (HasFired(s.runners[i]) ==> HasFired(s0.runners[i]) || Do(i, TimerFire) in acts)
  }

  lemma StepTraces(s: Group, act: GroupAct, i: Id)
    requires GroupInv(s) && GroupStep(s, act).Some? && i in s.runners
    ensures Traced(s, [act], GroupStep(s, act).value, i)
  {
    hide LogInv, TimeoutInv, ControlInv, FirstInv, Inv, Step, GroupStep, ErrOf, HasFired;
    RunnerPart(s, act, i);
    if ActOn(s, act, i).Some? {
      StepTrace(s.runners[i], ActOn(s, act, i).value);
    }
  }

  lemma {:induction false} ExecTraces(s: Group, acts: seq<GroupAct>, i: Id)
    requires GroupInv(s) && Exec(s, acts).Some? && i in s.runners
    ensures GroupInv(Exec(s, acts).value) && Traced(s, acts, Exec(s, acts).value, i)
    decreases |acts|
  {
    hide GroupInv, GroupStep, ErrOf, HasFired;
    if acts != [] {
      var t := GroupStep(s, acts[0]).value;
      StepKeepsGroupInv(s, acts[0]);
      StepTraces(s, acts[0], i);
      ExecTraces(t, acts[1..], i);
      assert acts == [acts[0]] + acts[1..];
    }
  }

  predicate GroupFired(s: Group) {
    s.timer == Fired || s.timer == Sent || s.timer == Closed
  }

  lemma {:induction false} ExecTracesTimer(s: Group, acts: seq<GroupAct>)
    requires Exec(s, acts).Some? && GroupFired(Exec(s, acts).value)
    ensures GroupFired(s) || GroupTimerFire in acts
    decreases |acts|
  {
    hide GroupStep, GroupFired;
    if acts != [] {
      ExecTracesTimer(GroupStep(s, acts[0]).value, acts[1..]);
      if GroupFired(GroupStep(s, acts[0]).value) {
        StepTracesTimer(s, acts[0]);
      }
    }
  }

  lemma StepTracesTimer(s: Group, act: GroupAct)
    requires GroupStep(s, act).Some? && GroupFired(GroupStep(s, act).value)
    ensures GroupFired(s) || act == GroupTimerFire
  {
    hide Step;
  }

  /** Every result that `Run` has goes back to an act of the run: what a task itself returned, or a
      timer, with the duration it was made with, that fired. */
  predicate ComesFrom(s0: Group, acts: seq<GroupAct>, r: Result) {
    match r
    case TaskResult(i, err) => i in s0.runners && Do(i, BodyReturn(err)) in acts
    case RunnerTimeout(i, dur) => i in s0.runners && dur == s0.runners[i].dur && Do(i, TimerFire) in acts
    case GroupTimeout(dur) => dur == s0.dur && GroupTimerFire in acts
    case NilResult => false
  }

  lemma ResultsComeFromActs(s0: Group, acts: seq<GroupAct>, k: nat)
    requires Initial(s0) && Exec(s0, acts).Some? && k < |Exec(s0, acts).value.results|
    ensures ComesFrom(s0, acts, Exec(s0, acts).value.results[k])
  {
    hide GroupInv, GroupStep, Exec, Genuine;
    InitialInv(s0);
    ExecKeepsGroupInv(s0, acts);
    SameDuration(s0, acts);
    var s := Exec(s0, acts).value;
    ResultsAreGenuine(s);
    var r := s.results[k];
    if r.GroupTimeout? {
      TimerHasFired(s, k);
      ExecTracesTimer(s0, acts);
      GroupsOwn(s, r);
    } else {
      GenuineMember(s, r);
      ExecTraces(s0, acts, r.id);
    }
  }

  lemma {:induction false} SameDuration(s: Group, acts: seq<GroupAct>)
    requires GroupInv(s) && Exec(s, acts).Some?
    ensures Exec(s, acts).value.dur == s.dur
    decreases |acts|
  {
    hide GroupInv, GroupStep;
    if acts != [] {
      StepKeepsGroupInv(s, acts[0]);
      SameDuration(GroupStep(s, acts[0]).value, acts[1..]);
    }
  }

  lemma TimerHasFired(s: Group, k: nat)
    requires GroupInv(s) && k < |s.results| && s.results[k].GroupTimeout?
    ensures GroupFired(s)
  {
    hide RunnersInv, LogInv, ControlInv, FirstInv;
  }

  lemma GroupsOwn(s: Group, r: Result)
    requires Genuine(s, r) && r.GroupTimeout?
    ensures r.dur == s.dur
  {}

  lemma GenuineMember(s: Group, r: Result)
    requires GroupInv(s) && Genuine(s, r) && !r.GroupTimeout?
    ensures FromRunner(r) && r.id in s.runners
    ensures r.TaskResult? ==> ErrOf(s.runners[r.id].body) == Some(r.err)
    ensures r.RunnerTimeout? ==> HasFired(s.runners[r.id]) && r.dur == s.runners[r.id].dur
  {
    hide LogInv, TimeoutInv, ControlInv, FirstInv;
  }

  // ----- nobody waits for an interrupt -----

  /** The launch leaves out nobody. */
  predicate AllLaunched(s: Group) {
    && (s.main.Launching? ==> forall i <- s.runners :: i in s.main.todo || s.runners[i].running)
    && (s.main != NotStarted && !s.main.Launching? ==> forall i <- s.runners :: s.runners[i].running)
  }

  lemma StepKeepsLaunched(s: Group, act: GroupAct)
    requires GroupInv(s) && AllLaunched(s) && GroupStep(s, act).Some?
    ensures AllLaunched(GroupStep(s, act).value)
  {
    hide LogInv, TimeoutInv, ControlInv, FirstInv, Inv, Step, GroupStep, ActOn;
    var t := GroupStep(s, act).value;
    StepKeepsGroupInv(s, act);
    forall i | i in s.runners
      ensures t.main != NotStarted && (t.main.Launching? ==> i !in t.main.todo) ==> t.runners[i].running
    {
      StepLaunches(s, act, i);
    }
  }

  lemma StepLaunches(s: Group, act: GroupAct, i: Id)
    requires GroupInv(s) && AllLaunched(s) && GroupStep(s, act).Some? && i in s.runners
    ensures var t := GroupStep(s, act).value;
      i in t.runners && (t.main != NotStarted && (t.main.Launching? ==> i !in t.main.todo) ==> t.runners[i].running)
  {
    hide LogInv, TimeoutInv, ControlInv, FirstInv, RunnersInv, GroupStep, Inv, Step;
    LaunchMoves(s, act, i);
    KeepsRunning(s, act, i);
  }

  /** Only its own launch takes a runner from those that main still has to launch. */
  lemma LaunchMoves(s: Group, act: GroupAct, i: Id)
    requires GroupStep(s, act).Some? && i in s.runners
    ensures var t := GroupStep(s, act).value;
      || t.main == NotStarted || (t.main.Launching? && i in t.main.todo) || act == Launch(i)
      || (s.main != NotStarted && (s.main.Launching? ==> i !in s.main.todo))
  {
    hide Step, Inv;
    if ApartFromMain(act) {
      hide GroupStep;
      ApartKeepsMain(s, act);
    } else {
      hide RunnerAct, DeliverAct, GroupTimerAct;
    }
  }

  lemma KeepsRunning(s: Group, act: GroupAct, i: Id)
    requires RunnersInv(s) && GroupStep(s, act).Some? && i in s.runners
    ensures i in GroupStep(s, act).value.runners
    ensures s.runners[i].running || act == Launch(i) ==> GroupStep(s, act).value.runners[i].running
  {
    hide GroupStep, Inv, Step;
    RunnerPart(s, act, i);
    if ActOn(s, act, i).Some? {
      StepEffect(s.runners[i], ActOn(s, act, i).value);
    }
  }

  lemma {:induction false} ExecKeepsLaunched(s: Group, acts: seq<GroupAct>)
    requires GroupInv(s) && AllLaunched(s) && Exec(s, acts).Some?
    ensures AllLaunched(Exec(s, acts).value)
    decreases |acts|
  {
    hide GroupInv, AllLaunched, GroupStep;
    if acts != [] {
      StepKeepsGroupInv(s, acts[0]);
      StepKeepsLaunched(s, acts[0]);
      ExecKeepsLaunched(GroupStep(s, acts[0]).value, acts[1..]);
    }
  }

  lemma ReachableLaunched(s: Group)
    requires Reachable(s)
    ensures AllLaunched(s)
  {
    hide GroupInv, GroupStep, Exec;
    var s0, acts :| Initial(s0) && Exec(s0, acts) == Some(s);
    InitialInv(s0);
    ExecKeepsLaunched(s0, acts);
  }

  predicate OwnAct(i: Id, act: GroupAct) {
    act == SendResult(i) || (act.Do? && act.id == i && IsOwn(act.a))
  }

  /** A launched runner that has delivered nothing yet can always take a step of its own towards
      its result; none of these steps is part of an interrupt. */
  lemma TaskNotStuck(s: Group, i: Id) returns (act: GroupAct)
    requires Reachable(s) && s.main != NotStarted && !s.main.Launching?
    requires i in s.runners && s.runners[i].delivered == []
    ensures OwnAct(i, act) && GroupStep(s, act).Some?
  {
    hide *;
    ReachableInv(s);
    Parts(s);
    ReachableLaunched(s);
    HasInv(s, i);
    LaunchedRuns(s, i);
    var a := NextOwn(s.runners[i]);
    NextOwnIsEnabled(s.runners[i]);
    if a == Deliver {
      act := SendResult(i);
      SendNeverBlocks(s, i);
    } else {
      act := Do(i, a);
      OwnStep(s, i, a);
    }
    IsOwnAct(i, a);
  }

  lemma IsOwnAct(i: Id, a: Act)
    ensures OwnAct(i, SendResult(i)) && (IsOwn(a) ==> OwnAct(i, Do(i, a)))
  {}

  lemma LaunchedRuns(s: Group, i: Id)
    requires AllLaunched(s) && s.main != NotStarted && !s.main.Launching? && i in s.runners
    ensures s.runners[i].running
  {}

  lemma OwnStep(s: Group, i: Id, a: Act)
    requires i in s.runners && IsOwn(a) && Step(s.runners[i], a).Some?
    ensures GroupStep(s, Do(i, a)).Some?
  {
    hide Step;
  }

  /** So the first wait of a group that is not empty ends without any interrupt as soon as a task
      does: either some runner can take a step of its own, or main can take a result. */
  lemma FirstWaitNotStuck(s: Group) returns (i: Id, act: GroupAct)
    requires Reachable(s) && s.main == WaitFirst && s.runners.Keys != {}
    ensures i in s.runners && GroupStep(s, act).Some?
    ensures if s.runners[i].delivered == [] then OwnAct(i, act) else act == FirstResult
  {
    hide *;
    ReachableInv(s);
    Parts(s);
    i :| i in s.runners.Keys;
    if s.runners[i].delivered == [] {
      act := TaskNotStuck(s, i);
    } else {
      act := FirstResult;
      DeliveredIsThere(s, i);
    }
  }

  lemma DeliveredIsThere(s: Group, i: Id)
    requires LogInv(s) && ControlInv(s) && s.main == WaitFirst && i in s.runners && s.runners[i].delivered != []
    ensures GroupStep(s, FirstResult).Some?
  {
    hide DistinctIds;
    assert Real(s.results) == [];
  }

  /** A context that ends, ends the first wait of `Run` and then `Run` itself, even if no task ever
      returns: at most `Budget` owed acts can follow, and where none is enabled `Run` has returned. */
  lemma ContextEndsRun(s: Group, more: seq<GroupAct>)
    requires Reachable(s) && s.main == WaitFirst && !s.async
    ensures GroupStep(s, FirstCtxDone).Some?
    ensures var t := GroupStep(s, FirstCtxDone).value;
      Exec(t, more).Some? ==>
        && OwedCount(t, more) <= Budget(t)
        && ((forall act :: Owed(Exec(t, more).value, act) ==> GroupStep(Exec(t, more).value, act).None?) ==>
              Exec(t, more).value.main == Finished)
  {
    ContextIsSeen(s);
    hide *;
    ReachableStep(s, FirstCtxDone);
    var t := GroupStep(s, FirstCtxDone).value;
    if Exec(t, more).Some? {
      RunReturns(t, more);
    }
  }

  lemma ContextIsSeen(s: Group)
    requires s.main == WaitFirst && !s.async
    ensures GroupStep(s, FirstCtxDone).Some? && FirstWaitOver(GroupStep(s, FirstCtxDone).value)
  {}
}
