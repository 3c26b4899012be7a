/** What `GroupRunner.Run` promises its caller, for every group size and every interleaving. */
module GroupTheorems {
  import opened RunnerProtocol
  import opened GroupProtocol

  // ----- counting -----

  /** The RunnerID field of a result. */
  function RunnerID(r: Result): Id {
    match r
    case TaskResult(id, _) => id
    case RunnerTimeout(id, _) => id
    case GroupTimeout(_) => "_unknown_"
    case NilResult => ""
  }

  function Ids(results: seq<Result>): set<Id> {
    set r <- results :: RunnerID(r)
  }

  lemma {:induction false} DistinctCount(log: seq<Result>)
    requires DistinctIds(log)
    ensures |Ids(log)| == |log|
  {
    if log != [] {
      var n := |log| - 1;
      DistinctCount(log[..n]);
      IdsMore(log);
    }
  }

  lemma IdsMore(log: seq<Result>)
    requires DistinctIds(log) && log != []
    ensures var n := |log| - 1; Ids(log) == Ids(log[..n]) + {RunnerID(log[n])} && RunnerID(log[n]) !in Ids(log[..n])
  {
    var n := |log| - 1;
    var init, last := log[..n], log[n];
    forall r | r in init ensures RunnerID(r) != RunnerID(last) {
      var k :| 0 <= k < n && log[k] == r;
    }
    assert log == init + [last];
    hide DistinctIds;
    assert forall r :: r in log <==> r in init || r == last;
  }

  lemma SubsetCount(a: set<Id>, b: set<Id>)
    requires a <= b
    ensures |a| <= |b| && (|a| == |b| ==> a == b)
  {
    assert |b| == |a| + |b - a| by { assert b == a + (b - a); }
    if |a| == |b| {
      assert b - a == {};
    }
  }

  lemma {:induction false} RealHasAll(results: seq<Result>)
    ensures forall k :: 0 <= k < |results| && !results[k].GroupTimeout? ==> results[k] in Real(results)
    ensures |Real(results)| <= |results|
    ensures (forall k :: 0 <= k < |results| ==> !results[k].GroupTimeout?) ==> Real(results) == results
  {
    if results != [] {
      var init := results[..|results| - 1];
      RealHasAll(init);
      assert results == init + [results[|init|]];
      assert forall k :: 0 <= k < |init| ==> results[k] == init[k];
    }
  }

  lemma {:induction false} RealKeepsDistinct(results: seq<Result>)
    requires DistinctIds(Real(results))
    ensures forall j, k :: 0 <= j < k < |results| && !results[j].GroupTimeout? && !results[k].GroupTimeout? ==>
              FromRunner(results[j]) && FromRunner(results[k]) && results[j].id != results[k].id
  {
    if results != [] {
      var n := |results| - 1;
      var init := results[..n];
      RealPrefix(results);
      RealKeepsDistinct(init);
      forall j, k | 0 <= j < k < |results| && !results[j].GroupTimeout? && !results[k].GroupTimeout?
        ensures FromRunner(results[j]) && FromRunner(results[k]) && results[j].id != results[k].id
      {
        if k < n {
          assert init[j] == results[j] && init[k] == results[k];
        } else {
          LastIsDistinct(results, j);
        }
      }
    }
  }

  lemma RealStep(results: seq<Result>)
    requires results != []
    ensures var n := |results| - 1; Real(results) == Real(results[..n]) + if results[n].GroupTimeout? then [] else [results[n]]
  {
  }

  lemma DistinctParts(a: seq<Result>, r: Result)
    requires DistinctIds(a + [r])
    ensures DistinctIds(a) && FromRunner(r) && forall x <- a :: FromRunner(x) && x.id != r.id
  {
    assert (a + [r])[|a|] == r;
    assert forall k :: 0 <= k < |a| ==> (a + [r])[k] == a[k];
  }

  lemma RealPrefix(results: seq<Result>)
    requires results != [] && DistinctIds(Real(results))
    ensures DistinctIds(Real(results[..|results| - 1]))
  {
    hide *;
    RealStep(results);
    var init, last := results[..|results| - 1], results[|results| - 1];
    if last.GroupTimeout? {
      assert Real(init) + [] == Real(init);
    } else {
      DistinctParts(Real(init), last);
    }
  }

  lemma LastIsDistinct(results: seq<Result>, j: nat)
    requires DistinctIds(Real(results)) && j + 1 < |results|
    requires !results[j].GroupTimeout? && !results[|results| - 1].GroupTimeout?
    ensures var n := |results| - 1; FromRunner(results[j]) && FromRunner(results[n]) && results[j].id != results[n].id
  {
    hide Real, DistinctIds;
    var n := |results| - 1;
    var init := results[..n];
    RealHasAll(init);
    RealStep(results);
    DistinctParts(Real(init), results[n]);
    assert init[j] in Real(init);
  }

  // ----- safety -----

  /** No task ever blocks, or panics, when it sends its result into the group channel, not even after `Run` has returned. */
  lemma SendNeverBlocks(s: Group, i: Id)
    requires Reachable(s) && i in s.runners && s.runners[i].task.TaskSending?
    ensures GroupStep(s, SendResult(i)).Some? && !s.panicked
  {
    hide *;
    ReachableInv(s);
    Parts(s);
    RoomLeft(s, i);
    SendWorks(s, i);
  }

  /** A runner that is sending is not yet in the log. */
  lemma RoomLeft(s: Group, i: Id)
    requires RunnersInv(s) && LogInv(s) && i in s.runners && s.runners[i].task.TaskSending?
    ensures |s.ch| < |s.runners|
  {
    hide Inv, Real, TimeoutInv, FirstInv, ControlInv;
    SendingIsOwn(s.runners[i]);
    DistinctCount(Log(s));
    assert Ids(Log(s)) <= s.runners.Keys - {i};
    SubsetCount(Ids(Log(s)), s.runners.Keys - {i});
    assert |s.runners| == |s.runners.Keys|;
  }

  lemma SendWorks(s: Group, i: Id)
    requires ControlInv(s) && i in s.runners && s.runners[i].task.TaskSending? && |s.ch| < |s.runners|
    ensures GroupStep(s, SendResult(i)).Some? && !s.panicked
  {
  }

  /** A group timeout carries the group's duration; any other result is the only one that its
      runner, a member of the group, has delivered: a timeout, after an interrupt, with that
      runner's own duration, or exactly what the finished task returned. */
  predicate Genuine(s: Group, r: Result) {
    if r.GroupTimeout? then r.dur == s.dur
    else
      && FromRunner(r) && r.id in s.runners && s.runners[r.id].delivered == [r]
      && (r.RunnerTimeout? ==> r.dur == s.runners[r.id].dur && s.runners[r.id].interrupted)
      && (r.TaskResult? ==> BodyFinished(s.runners[r.id]) && r.err == s.runners[r.id].body.err)
  }

  lemma LogIsGenuine(s: Group, r: Result)
    requires RunnersInv(s) && LogInv(s) && r in Real(s.results) && !r.GroupTimeout?
    ensures Genuine(s, r)
  {
    hide Inv, Real;
    var p :| 0 <= p < |Real(s.results)| && Real(s.results)[p] == r;
    assert Log(s)[p] == r;
    DeliveredIsGenuine(s.runners[r.id]);
  }

  /** Every result that main holds is genuine, and no runner's result occurs twice. */
  lemma ResultsAreGenuine(s: Group)
    requires Reachable(s)
    ensures forall k :: 0 <= k < |s.results| ==> Genuine(s, s.results[k])
    ensures forall j, k :: 0 <= j < k < |s.results| && !s.results[j].GroupTimeout? && !s.results[k].GroupTimeout? ==>
              RunnerID(s.results[j]) != RunnerID(s.results[k])
  {
    hide *;
    ReachableInv(s);
    Parts(s);
    forall k | 0 <= k < |s.results| ensures Genuine(s, s.results[k]) {
      ResultIsGenuine(s, k);
    }
    RealAreDistinct(s);
  }

  lemma ResultIsGenuine(s: Group, k: nat)
    requires RunnersInv(s) && LogInv(s) && TimeoutInv(s) && k < |s.results|
    ensures Genuine(s, s.results[k])
  {
    hide *;
    if s.results[k].GroupTimeout? {
      TimeoutIsGenuine(s, k);
    } else {
      RealHasAll(s.results);
      LogIsGenuine(s, s.results[k]);
    }
  }

  lemma RealAreDistinct(s: Group)
    requires LogInv(s)
    ensures forall j, k :: 0 <= j < k < |s.results| && !s.results[j].GroupTimeout? && !s.results[k].GroupTimeout? ==>
              RunnerID(s.results[j]) != RunnerID(s.results[k])
  {
    hide Real;
    assert forall k :: 0 <= k < |Real(s.results)| ==> Real(s.results)[k] == Log(s)[k];
    RealKeepsDistinct(s.results);
  }

  lemma TimeoutIsGenuine(s: Group, k: nat)
    requires TimeoutInv(s) && k < |s.results| && s.results[k].GroupTimeout?
    ensures Genuine(s, s.results[k])
  {}

  /** `Run` returns exactly one result per runner, and without group timeouts every runner of
      the group is among them. Only an empty group may yield an entry too many. */
  lemma RunResults(s: Group)
    requires Reachable(s) && s.main == Finished
    ensures |s.results| == |s.runners| || (|s.runners| == 0 && |s.results| == 1)
    ensures (forall k :: 0 <= k < |s.results| ==> !s.results[k].GroupTimeout?) ==> Ids(s.results) == s.runners.Keys
  {
    hide GroupStep, Exec, Reachable;
    ReachableInv(s);
    hide Inv, FirstInv, LogInv, TimeoutInv, RunnersInv;
    if forall k :: 0 <= k < |s.results| ==> !s.results[k].GroupTimeout? {
      ResultsAreGenuine(s);
      GenuineAreDistinct(s);
      DistinctCount(s.results);
      SubsetCount(Ids(s.results), s.runners.Keys);
      assert |s.runners| == |s.runners.Keys|;
    }
  }

  lemma GenuineAreDistinct(s: Group)
    requires forall k :: 0 <= k < |s.results| ==> Genuine(s, s.results[k]) && !s.results[k].GroupTimeout?
    requires forall j, k :: 0 <= j < k < |s.results| ==> RunnerID(s.results[j]) != RunnerID(s.results[k])
    ensures DistinctIds(s.results) && Ids(s.results) <= s.runners.Keys
  {
  }

  lemma DeliveredIsGenuine(r: Runner)
    requires Inv(r) && |r.delivered| > 0
    ensures r.delivered[0].RunnerTimeout? ==> r.delivered[0].dur == r.dur && r.interrupted
    ensures r.delivered[0].TaskResult? ==> BodyFinished(r) && r.delivered[0].err == r.body.err
  {}

  /** However interrupts race, no stopper runs twice; and if a task's own result ended the first
      wait, the interrupt that `Run` then issues leaves that runner's stopper alone. */
  lemma StoppersAtMostOnce(s: Group, i: Id)
    requires Reachable(s) && i in s.runners
    ensures s.runners[i].stopperCalls <= 1 && s.runners[i].bodyRuns <= 1 && !s.runners[i].panicked
    ensures s.first.Some? && s.first.value.TaskResult? && s.first.value.id == i ==> i !in s.stoppedByMain
  {
    ReachableInv(s);
    hide Channels, LogInv, TimeoutInv, ControlInv;
  }

  // ----- an empty group -----

  lemma ExecAppend(s: Group, acts: seq<GroupAct>, act: GroupAct)
    requires Exec(s, acts).Some?
    ensures Exec(s, acts + [act]) == GroupStep(Exec(s, acts).value, act)
    decreases |acts|
  {
    hide GroupStep;
    if acts == [] {
      assert Exec(s, [act]) == GroupStep(s, act) by {
        if GroupStep(s, act).Some? {
          assert [act][1..] == [];
        }
      }
      assert acts + [act] == [act];
    } else {
      assert (acts + [act])[1..] == acts[1..] + [act];
      ExecAppend(GroupStep(s, acts[0]).value, acts[1..], act);
    }
  }

  lemma ReachableStep(s: Group, act: GroupAct)
    requires Reachable(s) && GroupStep(s, act).Some?
    ensures Reachable(GroupStep(s, act).value)
  {
    hide GroupStep, Initial;
    var s0, acts :| Initial(s0) && Exec(s0, acts) == Some(s);
    ExecAppend(s0, acts, act);
  }

  function EmptyGroup(dur: nat): Group {
    Group(false, map[], dur, [], false, Chan(1, [], false), NoWalk, Unarmed, NotStarted, [], 0, None, {}, false)
  }

  lemma EmptyGroupWalks(dur: nat) returns (s: Group)
    ensures Reachable(s) && s == EmptyGroup(dur).(interrupted := true, walk := WalkDone, timer := Armed)
  {
    s := EmptyGroup(dur);
    assert Exec(s, []) == Some(s);
    hide Reachable, Exec;
    s := Advance(s, OtherInterrupt);
    s := Advance(s, ArmTimer);
  }

  lemma EmptyGroupTimesOut(dur: nat) returns (s: Group)
    ensures Reachable(s)
    ensures s == EmptyGroup(dur).(interrupted := true, walk := WalkDone, timer := Sent, interruptedCh := Chan(1, [dur], false))
  {
    hide Reachable;
    s := EmptyGroupWalks(dur);
    s := Advance(s, GroupTimerFire);
    s := Advance(s, GroupTimerSend);
  }

  /** The exception in RunResults is real: an outside interrupt of an empty group lets its timer
      end the first wait, and `Run` returns one timeout for no runner. */
  lemma EmptyGroupMayYieldOne(dur: nat) returns (s: Group)
    ensures Reachable(s) && |s.runners| == 0 && s.main == Finished && s.results == [GroupTimeout(dur)]
  {
    hide Reachable;
    s := EmptyGroupTimesOut(dur);
    s := Advance(s, Start);
    s := Advance(s, Launched);
    s := Advance(s, FirstTimeout);
    s := Advance(s, MainInterrupt);
    s := Advance(s, Finish);
  }

  lemma Advance(s: Group, act: GroupAct) returns (s': Group)
    requires Reachable(s) && GroupStep(s, act).Some?
    ensures Reachable(s') && s' == GroupStep(s, act).value
  {
    ReachableStep(s, act);
    s' := GroupStep(s, act).value;
  }

  // ----- liveness -----

  /** The acts owed by the protocol itself: none of them waits for a task to end, for the
      context, or for another caller. Of a runner's steps only those of the Interrupt that the
      walk is waiting in are owed; `StopperReturn` is the promise that stoppers return. */
  predicate Owed(s: Group, act: GroupAct) {
    match act
    case Do(i, a) =>
      s.walk.Walking? && s.walk.at == Stopping(i) && (a.SpawnTimer? || a.CallStopper? || a.StopperReturn?)
    case MainInterrupt => true
    case MainInterruptReturns => true
    case Visit(_) => true
    case Swap => true
    case StopperDone => true
    case ArmTimer => true
    case GroupTimerFire => true
    case GroupTimerSend => true
    case GroupTimerClose => true
    case TakeResult => true
    case TakeTimeout => true
    case Finish => true
    case _ => false
  }

  predicate FirstWaitOver(s: Group) {
    s.main == CallingInterrupt || s.main == InInterrupt || s.main == Collecting || s.main == Finished
  }

  /** A Range over the runners can always go on: some visit, stopper step or the timer is next. */
  lemma WalkNotStuck(s: Group) returns (act: GroupAct)
    requires RunnersInv(s) && ControlInv(s) && s.walk.Walking?
    ensures Owed(s, act) && GroupStep(s, act).Some?
  {
    match s.walk.at
    case Between =>
      act := VisitNotStuck(s);
    case Checked(_) =>
      hide Inv, RunnersInv;
      act := Swap;
    case Stopping(i) =>
      act := StopperNotStuck(s, i);
  }

  lemma VisitNotStuck(s: Group) returns (act: GroupAct)
    requires ControlInv(s) && s.walk.Walking? && s.walk.at == Between
    ensures Owed(s, act) && GroupStep(s, act).Some?
  {
    if s.walk.todo == {} {
      act := ArmTimer;
    } else {
      var i :| i in s.walk.todo;
      act := Visit(i);
    }
  }

  lemma StopperMoves(r: Runner)
    ensures r.interrupter == SwapWon ==> Step(r, SpawnTimer).Some?
    ensures r.interrupter == TimerSpawned ==> Step(r, CallStopper).Some?
    ensures r.interrupter == StopperRunning ==> Step(r, StopperReturn).Some?
  {}

  /** The walk waits in a runner's interrupt. */
  lemma StopperNotStuck(s: Group, i: Id) returns (act: GroupAct)
    requires RunnersInv(s) && ControlInv(s) && s.walk.Walking? && s.walk.at == Stopping(i)
    ensures Owed(s, act) && GroupStep(s, act).Some?
  {
    hide Inv, Step;
    InterruptIsUnderWay(s.runners[i]);
    StopperMoves(s.runners[i]);
    hide RunnersInv, ControlInv;
    match s.runners[i].interrupter
    case SwapWon => act := Do(i, SpawnTimer);
    case TimerSpawned => act := Do(i, CallStopper);
    case StopperRunning => act := Do(i, StopperReturn);
    case StopperReturned => act := StopperDone;
  }

  lemma TimerNotStuck(s: Group) returns (act: GroupAct)
    requires TimeoutInv(s) && ControlInv(s) && s.walk == WalkDone && s.main == Collecting
    ensures Owed(s, act) && GroupStep(s, act).Some?
  {
    if |s.results| >= |s.runners| {
      act := Finish;
    } else if s.timer == Armed {
      act := GroupTimerFire;
    } else if s.timer == Fired {
      act := GroupTimerSend;
    } else if s.timer == Sent && HasTimeout(s) {
      act := GroupTimerClose;
    } else {
      act := TakeTimeout;
    }
  }

  /** Once the first wait is over, no reachable state before `Run` returns is stuck, even if no
      task ever ends: the group timer's one send and close feed the collection loop. */
  lemma NotStuck(s: Group) returns (act: GroupAct)
    requires Reachable(s) && FirstWaitOver(s) && s.main != Finished
    ensures Owed(s, act) && GroupStep(s, act).Some?
  {
    hide *;
    ReachableInv(s);
    Parts(s);
    if s.walk.Walking? && s.main != CallingInterrupt {
      act := WalkNotStuck(s);
    } else {
      act := MainNotStuck(s);
    }
  }

  lemma Parts(s: Group)
    requires GroupInv(s)
    ensures RunnersInv(s) && LogInv(s) && TimeoutInv(s) && ControlInv(s) && FirstInv(s)
  {
    hide RunnersInv, LogInv, TimeoutInv, ControlInv, FirstInv;
  }

  lemma MainNotStuck(s: Group) returns (act: GroupAct)
    requires TimeoutInv(s) && ControlInv(s) && FirstWaitOver(s) && s.main != Finished
    requires !s.walk.Walking? || s.main == CallingInterrupt
    ensures Owed(s, act) && GroupStep(s, act).Some?
  {
    hide TimeoutInv;
    if s.main == CallingInterrupt {
      act := MainInterrupt;
    } else if s.main == InInterrupt {
      act := MainInterruptReturns;
    } else {
      act := TimerNotStuck(s);
    }
  }

  function StopperRank(r: Runner): nat {
    match r.interrupter
    case NotInterrupted => 3
    case SwapWon => 3
    case TimerSpawned => 2
    case StopperRunning => 1
    case StopperReturned => 0
  }

  function WalkRank(s: Group): nat {
    match s.walk
    case NoWalk => 6 * |s.runners| + 2
    case WalkDone => 0
    case Walking(todo, at, _) =>
      6 * |todo| +
      match at
      case Between => 1
      case Checked(_) => 6
      case Stopping(i) => 2 + if i in s.runners then StopperRank(s.runners[i]) else 0
  }

  function TimerRank(s: Group): nat {
    match s.timer case Unarmed => 4 case Armed => 3 case Fired => 2 case Sent => 1 case Closed => 0
  }

  function MainRank(s: Group): nat {
    (match s.main case CallingInterrupt => 3 case InInterrupt => 2 case Collecting => 1 case Finished => 0 case _ => 4) +
    if |s.results| < |s.runners| then |s.runners| - |s.results| else 0
  }

  /** How many owed acts can still happen. */
  function Budget(s: Group): nat {
    WalkRank(s) + TimerRank(s) + MainRank(s)
  }

  lemma RunnerStepBudget(s: Group, i: Id, a: Act)
    requires ControlInv(s) && RunnerAct(s, i, a).Some?
    ensures Budget(RunnerAct(s, i, a).value) <= Budget(s)
    ensures Owed(s, Do(i, a)) ==> Budget(RunnerAct(s, i, a).value) < Budget(s)
  {
    StopperStep(s.runners[i], a);
    hide Step;
    var s' := RunnerAct(s, i, a).value;
    assert s'.runners.Keys == s.runners.Keys;
    assert |s'.runners| == |s.runners|;
  }

  lemma StopperStep(r: Runner, a: Act)
    requires Step(r, a).Some?
    ensures r.interrupted ==> StopperRank(Step(r, a).value) <= StopperRank(r)
    ensures a.SpawnTimer? || a.CallStopper? || a.StopperReturn? ==> StopperRank(Step(r, a).value) < StopperRank(r)
  {}

  lemma WalkBudget(s: Group, act: GroupAct)
    requires act.OtherInterrupt? || act.Visit? || act.Swap? || act.StopperDone? || act.ArmTimer?
    requires ControlInv(s) && WalkAct(s, act).Some?
    ensures Budget(WalkAct(s, act).value) <= Budget(s)
    ensures Owed(s, act) ==> Budget(WalkAct(s, act).value) < Budget(s)
  {
    if act.Swap? {
      SwapBudget(s);
    } else if act.OtherInterrupt? {
      assert |s.runners.Keys| == |s.runners|;
    } else {
      VisitBudget(s, act);
    }
  }

  lemma SwapBudget(s: Group)
    requires ControlInv(s) && WalkAct(s, Swap).Some?
    ensures Budget(WalkAct(s, Swap).value) < Budget(s)
  {
    var s' := WalkAct(s, Swap).value;
    hide Step, Inv;
    assert s'.runners.Keys == s.runners.Keys;
    assert |s'.runners| == |s'.runners.Keys| == |s.runners|;
    StopperAtMost(s', s.walk.at.id);
  }

  lemma StopperAtMost(s: Group, i: Id)
    ensures i in s.runners ==> StopperRank(s.runners[i]) <= 3
  {
  }

  lemma VisitBudget(s: Group, act: GroupAct)
    requires act.Visit? || act.StopperDone? || act.ArmTimer?
    requires ControlInv(s) && WalkAct(s, act).Some?
    ensures Budget(WalkAct(s, act).value) < Budget(s)
  {
    hide WalkAct, ControlInv, WalkRank, TimerRank, MainRank;
    MainRankKept(s, act);
    match act
    case Visit(i) => VisitRank(s, i);
    case StopperDone => StopperDoneRank(s);
    case ArmTimer => ArmRank(s);
  }

  lemma MainRankKept(s: Group, act: GroupAct)
    requires (act.Visit? || act.StopperDone? || act.ArmTimer?) && WalkAct(s, act).Some?
    ensures MainRank(WalkAct(s, act).value) == MainRank(s)
  {}

  lemma VisitRank(s: Group, i: Id)
    requires WalkAct(s, Visit(i)).Some?
    ensures WalkRank(WalkAct(s, Visit(i)).value) < WalkRank(s) && TimerRank(WalkAct(s, Visit(i)).value) == TimerRank(s)
  {
    hide Step, Inv, Chan.CanReceive;
    OneLess(s.walk.todo, i);
  }

  lemma StopperDoneRank(s: Group)
    requires WalkAct(s, StopperDone).Some?
    ensures WalkRank(WalkAct(s, StopperDone).value) < WalkRank(s) && TimerRank(WalkAct(s, StopperDone).value) == TimerRank(s)
  {}

  lemma ArmRank(s: Group)
    requires ControlInv(s) && WalkAct(s, ArmTimer).Some?
    ensures WalkRank(WalkAct(s, ArmTimer).value) < WalkRank(s) && TimerRank(WalkAct(s, ArmTimer).value) < TimerRank(s)
  {}

  lemma OneLess<T>(a: set<T>, x: T)
    requires x in a
    ensures |a - {x}| == |a| - 1
  {
  }

  lemma MainBudget(s: Group, act: GroupAct)
    requires act.FirstResult? || act.FirstTimeout? || act.FirstCtxDone? || act.MainInterrupt?
          || act.MainInterruptReturns? || act.TakeResult? || act.TakeTimeout? || act.Finish?
    requires ControlInv(s) && MainAct(s, act).Some?
    ensures Budget(MainAct(s, act).value) <= Budget(s)
    ensures Owed(s, act) ==> Budget(MainAct(s, act).value) < Budget(s)
  {
    assert |s.runners.Keys| == |s.runners|;
  }

  lemma OtherBudget(s: Group, act: GroupAct)
    requires act.SendResult? || act.Start? || act.Launch? || act.Launched?
    requires ControlInv(s) && GroupStep(s, act).Some?
    ensures Budget(GroupStep(s, act).value) <= Budget(s)
  {
    var s' := GroupStep(s, act).value;
    assert s'.runners.Keys == s.runners.Keys;
    assert |s'.runners| == |s.runners|;
  }

  lemma TimerBudget(s: Group, act: GroupAct)
    requires act.GroupTimerFire? || act.GroupTimerSend? || act.GroupTimerClose?
    requires TimeoutInv(s) && ControlInv(s) && GroupTimerAct(s, act).Some?
    ensures Budget(GroupTimerAct(s, act).value) < Budget(s)
  {}

  /** Every owed act uses up budget, and nothing else that happens can add to it. */
  lemma StepBudget(s: Group, act: GroupAct)
    requires GroupInv(s) && GroupStep(s, act).Some?
    ensures Budget(GroupStep(s, act).value) <= Budget(s)
    ensures Owed(s, act) ==> Budget(GroupStep(s, act).value) < Budget(s)
  {
    hide RunnersInv, LogInv, TimeoutInv, ControlInv, FirstInv, Budget;
    match act
    case Do(i, a) => RunnerStepBudget(s, i, a);
    case SendResult(_) => OtherBudget(s, act);
    case Start => OtherBudget(s, act);
    case Launch(_) => OtherBudget(s, act);
    case Launched => OtherBudget(s, act);
    case OtherInterrupt => WalkBudget(s, act);
    case Visit(_) => WalkBudget(s, act);
    case Swap => WalkBudget(s, act);
    case StopperDone => WalkBudget(s, act);
    case ArmTimer => WalkBudget(s, act);
    case GroupTimerFire => TimerBudget(s, act);
    case GroupTimerSend => TimerBudget(s, act);
    case GroupTimerClose => TimerBudget(s, act);
    case _ => MainBudget(s, act);
  }

  function OwedCount(s: Group, acts: seq<GroupAct>): nat
    requires Exec(s, acts).Some?
    decreases |acts|
  {
    if acts == [] then 0
    else (if Owed(s, acts[0]) then 1 else 0) + OwedCount(GroupStep(s, acts[0]).value, acts[1..])
  }

  lemma {:induction false} ExecBudget(s: Group, acts: seq<GroupAct>)
    requires GroupInv(s) && Exec(s, acts).Some?
    ensures OwedCount(s, acts) + Budget(Exec(s, acts).value) <= Budget(s)
    decreases |acts|
  {
    hide GroupInv, GroupStep, Budget, Owed;
    if acts != [] {
      StepKeepsGroupInv(s, acts[0]);
      StepBudget(s, acts[0]);
      ExecBudget(GroupStep(s, acts[0]).value, acts[1..]);
    }
  }

  /** `Run` ends: after the first wait, whatever else happens in between, at most `Budget(s)`
      owed acts can follow, and where no owed act is enabled any more `Run` has returned. */
  lemma RunReturns(s: Group, acts: seq<GroupAct>)
    requires Reachable(s) && FirstWaitOver(s) && Exec(s, acts).Some?
    ensures OwedCount(s, acts) <= Budget(s)
    ensures FirstWaitOver(Exec(s, acts).value)
    ensures (forall act :: Owed(Exec(s, acts).value, act) ==> GroupStep(Exec(s, acts).value, act).None?) ==>
              Exec(s, acts).value.main == Finished
  {
    ReachableInv(s);
    ExecBudget(s, acts);
    ReachableExec(s, acts);
    hide GroupStep, Owed, Reachable;
    var t := Exec(s, acts).value;
    if t.main != Finished {
      var act := NotStuck(t);
    }
  }

  lemma FirstWaitStaysOver(s: Group, act: GroupAct)
    requires FirstWaitOver(s) && GroupStep(s, act).Some?
    ensures FirstWaitOver(GroupStep(s, act).value)
  {
    hide Step;
  }

  lemma {:induction false} ReachableExec(s: Group, acts: seq<GroupAct>)
    requires Reachable(s) && Exec(s, acts).Some?
    ensures Reachable(Exec(s, acts).value)
    ensures FirstWaitOver(s) ==> FirstWaitOver(Exec(s, acts).value)
    decreases |acts|
  {
    hide Reachable, GroupStep, FirstWaitOver;
    if acts != [] {
      ReachableStep(s, acts[0]);
      if FirstWaitOver(s) {
        FirstWaitStaysOver(s, acts[0]);
      }
      ReachableExec(GroupStep(s, acts[0]).value, acts[1..]);
    }
  }
}
