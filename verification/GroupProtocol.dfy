/** The group runner protocol (pkg/runner/grouprunner.go) as a step system over any number of
    runners. `GroupRunner.Run`, and the goroutine of `GroupRunner.RunAsync`, is `main`; the
    goroutine that wins the group's `interrupted` swap, `main` or any other, is `walk`. */
module GroupProtocol {
  import opened RunnerProtocol

  datatype Main =
    | NotStarted
    | Launching(todo: set<Id>)   // Range over the runners, calling RunAsync
    | WaitFirst                  // the first select
    | CallingInterrupt           // about to swap the group's `interrupted`
    | InInterrupt                // won the swap, inside gr.Interrupt()
    | Collecting                 // the loop for the remaining results
    | Finished

  datatype At = Between | Checked(id: Id) | Stopping(id: Id)

  datatype Walk =
    | NoWalk
    | Walking(todo: set<Id>, at: At, byMain: bool)
    | WalkDone

  datatype Timer = Unarmed | Armed | Fired | Sent | Closed

  datatype Group = Group(
    async: bool,                 // RunAsync has no context
    runners: map<Id, Runner>,
    dur: nat,
    ch: seq<Result>,             // buffered, with capacity |runners|
    interrupted: bool,
    interruptedCh: Chan<nat>,
    walk: Walk,
    timer: Timer,
    main: Main,
    results: seq<Result>,
    d: nat,                      // main's variable for the last duration received
    first: Option<Result>,       // history: the result that ended the first wait, if one did
    stoppedByMain: set<Id>,      // history: whose stopper main's own walk has claimed
    panicked: bool
  )

  predicate Initial(s: Group) {
    && (forall i <- s.runners :: s.runners[i] == NewRunner(i, s.runners[i].dur))
    && s == Group(s.async, s.runners, s.dur, [], false, Chan(1, [], false), NoWalk, Unarmed, NotStarted, [], 0, None, {}, false)
  }

  datatype GroupAct =
    | Do(id: Id, a: Act)  // a step inside one runner, including anyone's Interrupt of it
    | SendResult(id: Id)                    // doTask sends its result into the group channel
    | Start | Launch(id: Id) | Launched
    | FirstResult | FirstTimeout | FirstCtxDone
    | MainInterrupt | MainInterruptReturns
    | OtherInterrupt                     // any other goroutine calling gr.Interrupt()
    | Visit(id: Id) | Swap | StopperDone | ArmTimer
    | GroupTimerFire | GroupTimerSend | GroupTimerClose
    | TakeResult | TakeTimeout | Finish

  function Put(s: Group, i: Id, r: Runner): Group {
    s.(runners := s.runners[i := r])
  }

  function BeginWalk(s: Group, byMain: bool): Group {
    s.(interrupted := true, walk := Walking(s.runners.Keys, Between, byMain))
  }

  function RunnerAct(s: Group, i: Id, a: Act): Option<Group> {
    if i in s.runners && !a.CallRun? && !a.Deliver? && Step(s.runners[i], a).Some? then
      Some(Put(s, i, Step(s.runners[i], a).value))
    else None
  }

  /** A send into the buffered group channel: blocked, that is not enabled, while it is full. */
  function DeliverAct(s: Group, i: Id): Option<Group> {
    if i in s.runners && s.runners[i].task.TaskSending? && |s.ch| < |s.runners| then
      Some(Put(s, i, Step(s.runners[i], Deliver).value).(ch := s.ch + [s.runners[i].task.result]))
    else None
  }

  function LaunchAct(s: Group, act: GroupAct): Option<Group>
    requires act.Start? || act.Launch? || act.Launched?
  {
    match act
    case Start => if s.main == NotStarted then Some(s.(main := Launching(s.runners.Keys))) else None
    case Launch(i) =>
      if s.main.Launching? && i in s.main.todo && i in s.runners then
        if s.runners[i].running then Some(s.(panicked := true))
        else Some(Put(s, i, Step(s.runners[i], CallRun).value).(main := Launching(s.main.todo - {i})))
      else None
    case Launched => if s.main == Launching({}) then Some(s.(main := WaitFirst)) else None
  }

  function MainAct(s: Group, act: GroupAct): Option<Group>
    requires act.FirstResult? || act.FirstTimeout? || act.FirstCtxDone? || act.MainInterrupt?
          || act.MainInterruptReturns? || act.TakeResult? || act.TakeTimeout? || act.Finish?
  {
    match act
    case FirstResult =>
      if s.main == WaitFirst && |s.ch| > 0 then
        Some(s.(main := CallingInterrupt, results := s.results + [s.ch[0]], ch := s.ch[1..], first := Some(s.ch[0])))
      else None
    case FirstTimeout =>
      if s.main == WaitFirst && s.interruptedCh.CanReceive() then
        var d := s.interruptedCh.Received(0);
        Some(s.(main := CallingInterrupt, d := d, results := s.results + [GroupTimeout(d)],
             interruptedCh := s.interruptedCh.AfterReceive(), first := Some(GroupTimeout(d))))
      else None
    case FirstCtxDone =>
      if s.main == WaitFirst && !s.async then Some(s.(main := CallingInterrupt)) else None
    case MainInterrupt =>
      if s.main != CallingInterrupt then None
      else if s.interrupted then Some(s.(main := Collecting))
      else Some(BeginWalk(s, true).(main := InInterrupt))
    case MainInterruptReturns =>
      if s.main == InInterrupt && s.walk == WalkDone then Some(s.(main := Collecting)) else None
    case TakeResult =>
      if s.main == Collecting && |s.results| < |s.runners| && |s.ch| > 0 then
        Some(s.(results := s.results + [s.ch[0]], ch := s.ch[1..]))
      else None
    case TakeTimeout =>
      if s.main == Collecting && |s.results| < |s.runners| && s.interruptedCh.CanReceive() then
        var d := if |s.interruptedCh.buf| > 0 then s.interruptedCh.buf[0] else s.d;
        Some(s.(d := d, results := s.results + [GroupTimeout(d)], interruptedCh := s.interruptedCh.AfterReceive()))
      else None
    case Finish =>
      if s.main == Collecting && |s.results| >= |s.runners| then Some(s.(main := Finished)) else None
  }

  function WalkAct(s: Group, act: GroupAct): Option<Group>
    requires act.OtherInterrupt? || act.Visit? || act.Swap? || act.StopperDone? || act.ArmTimer?
  {
    match act
    case OtherInterrupt => Some(if s.interrupted then s else BeginWalk(s, false))
    case Visit(i) =>
      if s.walk.Walking? && s.walk.at == Between && i in s.walk.todo && i in s.runners then
        Some(s.(walk := Walking(s.walk.todo - {i}, if s.runners[i].finished.CanReceive() then Between else Checked(i),
             s.walk.byMain)))
      else None
    case Swap =>
      if s.walk.Walking? && s.walk.at.Checked? && s.walk.at.id in s.runners then
        var i := s.walk.at.id;
        if s.runners[i].interrupted then Some(s.(walk := s.walk.(at := Between)))
        else Some(Put(s, i, Step(s.runners[i], CallInterrupt).value)
                  .(walk := s.walk.(at := Stopping(i)),
                    stoppedByMain := s.stoppedByMain + if s.walk.byMain then {i} else {}))
      else None
    case StopperDone =>
      if s.walk.Walking? && s.walk.at.Stopping? && s.walk.at.id in s.runners
         && s.runners[s.walk.at.id].interrupter == StopperReturned
      then Some(s.(walk := s.walk.(at := Between)))
      else None
    case ArmTimer =>
      if s.walk.Walking? && s.walk.todo == {} && s.walk.at == Between then Some(s.(walk := WalkDone, timer := Armed))
      else None
  }

  function GroupTimerAct(s: Group, act: GroupAct): Option<Group>
    requires act.GroupTimerFire? || act.GroupTimerSend? || act.GroupTimerClose?
  {
    match act
    case GroupTimerFire => if s.timer == Armed then Some(s.(timer := Fired)) else None
    case GroupTimerSend =>
      if s.timer != Fired then None
      else if s.interruptedCh.closed then Some(s.(panicked := true))
      else if |s.interruptedCh.buf| >= s.interruptedCh.cap then None
      else Some(s.(timer := Sent, interruptedCh := s.interruptedCh.(buf := s.interruptedCh.buf + [s.dur])))
    case GroupTimerClose =>
      if s.timer != Sent then None
      else if s.interruptedCh.closed then Some(s.(panicked := true))
      else Some(s.(timer := Closed, interruptedCh := s.interruptedCh.(closed := true)))
  }

  function GroupStep(s: Group, act: GroupAct): Option<Group> {
    match act
    case Do(i, a) => RunnerAct(s, i, a)
    case SendResult(i) => DeliverAct(s, i)
    case Start => LaunchAct(s, act)
    case Launch(_) => LaunchAct(s, act)
    case Launched => LaunchAct(s, act)
    case OtherInterrupt => WalkAct(s, act)
    case Visit(_) => WalkAct(s, act)
    case Swap => WalkAct(s, act)
    case StopperDone => WalkAct(s, act)
    case ArmTimer => WalkAct(s, act)
    case GroupTimerFire => GroupTimerAct(s, act)
    case GroupTimerSend => GroupTimerAct(s, act)
    case GroupTimerClose => GroupTimerAct(s, act)
    case _ => MainAct(s, act)
  }

  function Exec(s: Group, acts: seq<GroupAct>): Option<Group>
    decreases |acts|
  {
    if acts == [] then Some(s)
    else if GroupStep(s, acts[0]).None? then None
    else Exec(GroupStep(s, acts[0]).value, acts[1..])
  }

  ghost predicate Reachable(s: Group) {
    exists s0, acts :: Initial(s0) && Exec(s0, acts) == Some(s)
  }

  // ----- the invariant -----

  /** The results main has received from runners, in order. */
  function Real(results: seq<Result>): seq<Result> {
    if results == [] then []
    else Real(results[..|results| - 1]) + if results[|results| - 1].GroupTimeout? then [] else [results[|results| - 1]]
  }

  /** Everything ever sent into the group channel, in order. */
  function Log(s: Group): seq<Result> {
    Real(s.results) + s.ch
  }

  predicate FromRunner(r: Result) {
    r.TaskResult? || r.RunnerTimeout?
  }

  predicate DistinctIds(log: seq<Result>) {
    && (forall k :: 0 <= k < |log| ==> FromRunner(log[k]))
    && (forall j, k :: 0 <= j < k < |log| ==> log[j].id != log[k].id)
  }

  predicate RunnersInv(s: Group) {
    forall i <- s.runners :: Inv(s.runners[i]) && s.runners[i].id == i
  }

  /** The log holds exactly what the runners have delivered. */
  predicate LogInv(s: Group) {
    && DistinctIds(Log(s))
    && (forall k :: 0 <= k < |Log(s)| ==>
          Log(s)[k].id in s.runners && s.runners[Log(s)[k].id].delivered == [Log(s)[k]])
    && (forall i <- s.runners :: s.runners[i].delivered != [] ==> s.runners[i].delivered[0] in Log(s))
  }

  predicate HasTimeout(s: Group) {
    exists k :: 0 <= k < |s.results| && s.results[k].GroupTimeout?
  }

  /** main is the only receiver: the buffered duration is there until main has it in `d`. */
  predicate TimeoutInv(s: Group) {
    && s.interruptedCh == Chan(1, if (s.timer == Sent || s.timer == Closed) && !HasTimeout(s) then [s.dur] else [],
                               s.timer == Closed)
    && (HasTimeout(s) ==> (s.timer == Sent || s.timer == Closed) && s.d == s.dur)
    && (forall k :: 0 <= k < |s.results| && s.results[k].GroupTimeout? ==> s.results[k].dur == s.dur)
  }

  predicate ControlInv(s: Group) {
    && !s.panicked
    && (s.interrupted <==> s.walk != NoWalk)
    && (s.timer != Unarmed <==> s.walk == WalkDone)
    && (s.walk.Walking? ==> s.walk.todo <= s.runners.Keys)
    && (s.walk.Walking? && s.walk.at != Between ==> s.walk.at.id in s.runners)
    && (s.walk.Walking? && s.walk.at.Stopping? ==> s.runners[s.walk.at.id].interrupted)
    && (s.walk.Walking? && s.walk.byMain ==> s.main == InInterrupt)
    && (s.main == InInterrupt || s.main == Collecting || s.main == Finished ==> s.interrupted)
    && (s.main == NotStarted || s.main.Launching? || s.main == WaitFirst ==> s.results == [])
    && (s.main == NotStarted ==> forall i <- s.runners :: !s.runners[i].running)
    && (s.main.Launching? ==> s.main.todo <= s.runners.Keys && forall i <- s.main.todo :: !s.runners[i].running)
    && |s.results| <= (if |s.runners| == 0 then 1 else |s.runners|)
    && (s.main == CallingInterrupt || s.main == InInterrupt ==> |s.results| <= 1)
    && (s.main == Finished ==> |s.results| >= |s.runners|)
  }

  /** The walk that main starts never claims the runner whose own result ended the first wait. */
  predicate FirstInv(s: Group) {
    && (s.stoppedByMain != {} || (s.walk.Walking? && s.walk.byMain) || s.first.Some? ==>
          s.main != NotStarted && !s.main.Launching? && s.main != WaitFirst)
    && (s.first.Some? && s.first.value.TaskResult? ==>
          var i := s.first.value.id;
          && i in s.runners && s.runners[i].finished.closed && i !in s.stoppedByMain
          && (s.walk.Walking? && s.walk.byMain && s.walk.at != Between ==> s.walk.at.id != i))
  }

  predicate GroupInv(s: Group) {
    RunnersInv(s) && LogInv(s) && TimeoutInv(s) && ControlInv(s) && FirstInv(s)
  }

  // ----- preservation, one lemma per kind of act -----

  /** Nobody joins or leaves, and the group's duration stays. */
  predicate SameMembers(s: Group, s': Group) {
    s'.runners.Keys == s.runners.Keys && s'.dur == s.dur
  }

  /** A runner may move as long as its result history stays put. */
  lemma LogKept(s: Group, s': Group)
    requires LogInv(s) && s'.results == s.results && s'.ch == s.ch && s'.runners.Keys == s.runners.Keys
    requires forall i <- s.runners :: s'.runners[i].delivered == s.runners[i].delivered
    ensures LogInv(s')
  {
    hide DistinctIds, Real, FromRunner;
  }

  lemma TimeoutKept(s: Group, s': Group)
    requires TimeoutInv(s) && s'.results == s.results && s'.interruptedCh == s.interruptedCh
    requires s'.timer == s.timer || (s.timer == Unarmed && s'.timer == Armed)
    requires s'.dur == s.dur && s'.d == s.d
    ensures TimeoutInv(s')
  {}

  lemma RunnersPut(s: Group, i: Id, r: Runner)
    requires RunnersInv(s) && i in s.runners && Inv(r) && r.id == i
    ensures RunnersInv(Put(s, i, r)) && Put(s, i, r).runners.Keys == s.runners.Keys
  {
    hide Inv;
  }

  /** Group control only looks at a runner's `running`, `interrupted` and `finished`. */
  lemma ControlKept(s: Group, s': Group, i: Id)
    requires ControlInv(s) && FirstInv(s) && i in s.runners && i in s'.runners
    requires s' == Put(s, i, s'.runners[i]).(ch := s'.ch)
    requires s'.runners[i].running == s.runners[i].running
    requires s.runners[i].interrupted ==> s'.runners[i].interrupted
    requires s.runners[i].finished.closed ==> s'.runners[i].finished.closed
    ensures ControlInv(s') && FirstInv(s')
  {
    assert s'.runners.Keys == s.runners.Keys;
    assert |s'.runners| == |s.runners|;
  }

  lemma RunnerActKeepsInv(s: Group, i: Id, a: Act)
    requires GroupInv(s) && RunnerAct(s, i, a).Some?
    ensures GroupInv(RunnerAct(s, i, a).value) && SameMembers(s, RunnerAct(s, i, a).value)
  {
    hide Inv, Step, LogInv, TimeoutInv, ControlInv, FirstInv;
    StepEffect(s.runners[i], a);
    var s' := RunnerAct(s, i, a).value;
    RunnersPut(s, i, s'.runners[i]);
    LogKept(s, s');
    TimeoutKept(s, s');
    ControlKept(s, s', i);
  }

  lemma SendingIsOwn(r: Runner)
    requires Inv(r) && r.task.TaskSending?
    ensures FromRunner(r.task.result) && r.task.result.id == r.id && r.delivered == []
  {}

  lemma DeliverKeepsLog(s: Group, i: Id)
    requires GroupInv(s) && DeliverAct(s, i).Some?
    ensures LogInv(DeliverAct(s, i).value)
  {
    hide Inv, Step, TimeoutInv, ControlInv, FirstInv, Real;
    var r := s.runners[i];
    StepEffect(r, Deliver);
    SendingIsOwn(r);
    var s' := DeliverAct(s, i).value;
    assert Log(s') == Log(s) + [r.task.result];
  }

  lemma DeliverKeepsInv(s: Group, i: Id)
    requires GroupInv(s) && DeliverAct(s, i).Some?
    ensures GroupInv(DeliverAct(s, i).value) && SameMembers(s, DeliverAct(s, i).value)
  {
    DeliverKeepsLog(s, i);
    hide Inv, Step, LogInv, TimeoutInv, ControlInv, FirstInv;
    StepEffect(s.runners[i], Deliver);
    var s' := DeliverAct(s, i).value;
    RunnersPut(s, i, s'.runners[i]);
    TimeoutKept(s, s');
    ControlKept(s, s', i);
  }

  lemma LaunchKeepsInv(s: Group, act: GroupAct)
    requires act.Start? || act.Launch? || act.Launched?
    requires GroupInv(s) && LaunchAct(s, act).Some?
    ensures GroupInv(LaunchAct(s, act).value) && SameMembers(s, LaunchAct(s, act).value)
  {
    hide Inv, Step, LogInv, TimeoutInv;
    var s' := LaunchAct(s, act).value;
    if act.Launch? {
      var r := s.runners[act.id];
      StepEffect(r, CallRun);
      RunnersPut(s, act.id, Step(r, CallRun).value);
    }
    LogKept(s, s');
    TimeoutKept(s, s');
  }

  /** Receiving only moves the boundary between what main has and what is still buffered. */
  lemma LogMoves(s: Group, s': Group)
    requires LogInv(s) && s'.runners == s.runners && Log(s') == Log(s)
    ensures LogInv(s')
  {
    hide DistinctIds, Real, FromRunner;
  }

  lemma ReceiveKeepsLog(s: Group, s': Group)
    requires LogInv(s) && s'.runners == s.runners && |s.ch| > 0 && s'.results == s.results + [s.ch[0]] && s'.ch == s.ch[1..]
    ensures LogInv(s') && FromRunner(s.ch[0]) && s.ch[0].id in s.runners && s.runners[s.ch[0].id].delivered == [s.ch[0]]
  {
    assert s.ch[0] == Log(s)[|Real(s.results)|];
    assert s'.results[..|s'.results| - 1] == s.results;
    assert Log(s') == Log(s);
    LogMoves(s, s');
  }

  lemma TimeoutKeepsLog(s: Group, s': Group, d: nat)
    requires LogInv(s) && s'.runners == s.runners && s'.results == s.results + [GroupTimeout(d)] && s'.ch == s.ch
    ensures LogInv(s')
  {
    assert s'.results[..|s'.results| - 1] == s.results;
    LogMoves(s, s');
  }

  lemma ReceiveKeepsTimeouts(s: Group, s': Group, r: Result)
    requires TimeoutInv(s) && !r.GroupTimeout? && s'.results == s.results + [r]
    requires s'.interruptedCh == s.interruptedCh && s'.timer == s.timer && s'.dur == s.dur && s'.d == s.d
    ensures TimeoutInv(s')
  {
    assert forall k :: 0 <= k < |s.results| ==> s'.results[k] == s.results[k];
  }

  /** The receive takes the timer's one value, or finds the channel closed after main already has it. */
  lemma TakeKeepsTimeouts(s: Group, s': Group, d: nat)
    requires TimeoutInv(s) && s.interruptedCh.CanReceive()
    requires d == if |s.interruptedCh.buf| > 0 then s.interruptedCh.buf[0] else s.d
    requires s'.results == s.results + [GroupTimeout(d)] && s'.interruptedCh == s.interruptedCh.AfterReceive()
    requires s'.timer == s.timer && s'.dur == s.dur && s'.d == d
    ensures TimeoutInv(s') && d == s.dur
  {
    assert s'.results[|s.results|].GroupTimeout?;
    assert forall k :: 0 <= k < |s.results| ==> s'.results[k] == s.results[k];
  }

  /** In the first select nothing has been received yet, so a closed channel still holds its value. */
  lemma FirstTimeoutIsReal(s: Group)
    requires TimeoutInv(s) && s.results == [] && s.interruptedCh.CanReceive()
    ensures |s.interruptedCh.buf| > 0
  {}

  lemma MainKeepsInv(s: Group, act: GroupAct)
    requires act.FirstResult? || act.FirstTimeout? || act.FirstCtxDone? || act.MainInterrupt?
          || act.MainInterruptReturns? || act.TakeResult? || act.TakeTimeout? || act.Finish?
    requires GroupInv(s) && MainAct(s, act).Some?
    ensures GroupInv(MainAct(s, act).value) && SameMembers(s, MainAct(s, act).value)
  {
    hide *;
    if act.FirstResult? || act.TakeResult? {
      ResultKeepsInv(s, act);
    } else if act.FirstTimeout? || act.TakeTimeout? {
      TakeTimeoutKeepsInv(s, act);
    } else {
      MainMovesKeepsInv(s, act);
    }
  }

  lemma ResultKeepsInv(s: Group, act: GroupAct)
    requires act.FirstResult? || act.TakeResult?
    requires GroupInv(s) && MainAct(s, act).Some?
    ensures GroupInv(MainAct(s, act).value) && SameMembers(s, MainAct(s, act).value)
  {
    hide Inv, LogInv, TimeoutInv;
    var s' := MainAct(s, act).value;
    ReceiveKeepsLog(s, s');
    ReceiveKeepsTimeouts(s, s', s.ch[0]);
    if s.ch[0].TaskResult? {
      DeliveredAfterFinished(s.runners[s.ch[0].id]);
    }
  }

  lemma TakeTimeoutKeepsInv(s: Group, act: GroupAct)
    requires act.FirstTimeout? || act.TakeTimeout?
    requires GroupInv(s) && MainAct(s, act).Some?
    ensures GroupInv(MainAct(s, act).value) && SameMembers(s, MainAct(s, act).value)
  {
    hide Inv, LogInv, TimeoutInv;
    var s' := MainAct(s, act).value;
    if act.FirstTimeout? {
      FirstTimeoutIsReal(s);
    }
    TimeoutKeepsLog(s, s', s'.d);
    TakeKeepsTimeouts(s, s', s'.d);
  }

  lemma MainMovesKeepsInv(s: Group, act: GroupAct)
    requires act.FirstCtxDone? || act.MainInterrupt? || act.MainInterruptReturns? || act.Finish?
    requires GroupInv(s) && MainAct(s, act).Some?
    ensures GroupInv(MainAct(s, act).value) && SameMembers(s, MainAct(s, act).value)
  {
    hide Inv, LogInv, TimeoutInv;
    LogKept(s, MainAct(s, act).value);
    TimeoutKept(s, MainAct(s, act).value);
  }

  lemma SwapKeepsInv(s: Group)
    requires GroupInv(s) && WalkAct(s, Swap).Some?
    ensures GroupInv(WalkAct(s, Swap).value) && SameMembers(s, WalkAct(s, Swap).value)
  {
    hide Inv, Step, LogInv, TimeoutInv, ControlInv, FirstInv, WalkAct;
    SwapShape(s);
    var i, s' := s.walk.at.id, WalkAct(s, Swap).value;
    RunnersPut(s, i, s'.runners[i]);
    LogKept(s, s');
    TimeoutKept(s, s');
    var mid := Put(s, i, s'.runners[i]);
    ControlKept(s, mid, i);
    SwapControl(mid, s', i);
  }

  /** What the walk's interrupt of a runner changes. */
  lemma SwapShape(s: Group)
    requires GroupInv(s) && WalkAct(s, Swap).Some?
    ensures s.walk.Walking? && s.walk.at.Checked? && s.walk.at.id in s.runners
    ensures var i, s' := s.walk.at.id, WalkAct(s, Swap).value;
      && s'.runners.Keys == s.runners.Keys
      && s' == Put(s, i, s'.runners[i]).(walk := s'.walk, stoppedByMain := s'.stoppedByMain)
      && (s'.walk == s.walk.(at := Between) || s'.walk == s.walk.(at := Stopping(i)))
      && (s'.stoppedByMain == s.stoppedByMain || s'.stoppedByMain == s.stoppedByMain + if s.walk.byMain then {i} else {})
    ensures var r, r' := s.runners[s.walk.at.id], WalkAct(s, Swap).value.runners[s.walk.at.id];
      && Inv(r') && r'.id == r.id && r'.running == r.running && r'.interrupted && r'.delivered == r.delivered
      && (r.finished.closed ==> r'.finished.closed)
  {
    hide Inv, Step, LogInv, TimeoutInv, ControlInv, FirstInv;
    StepEffect(s.runners[s.walk.at.id], CallInterrupt);
  }

  lemma SwapControl(s: Group, s': Group, i: Id)
    requires ControlInv(s) && FirstInv(s) && s.walk.Walking? && s.walk.at == Checked(i)
    requires i in s.runners && s.runners[i].interrupted
    requires s'.walk == s.walk.(at := Between) || s'.walk == s.walk.(at := Stopping(i))
    requires s' == s.(walk := s'.walk, stoppedByMain := s'.stoppedByMain)
    requires s'.stoppedByMain == s.stoppedByMain || s'.stoppedByMain == s.stoppedByMain + if s.walk.byMain then {i} else {}
    ensures ControlInv(s') && FirstInv(s')
  {}

  lemma WalkKeepsInv(s: Group, act: GroupAct)
    requires act.OtherInterrupt? || act.Visit? || act.StopperDone? || act.ArmTimer?
    requires GroupInv(s) && WalkAct(s, act).Some?
    ensures GroupInv(WalkAct(s, act).value) && SameMembers(s, WalkAct(s, act).value)
  {
    hide Inv, Step, LogInv, TimeoutInv;
    var s' := WalkAct(s, act).value;
    LogKept(s, s');
    TimeoutKept(s, s');
  }

  lemma TimerKeepsInv(s: Group, act: GroupAct)
    requires act.GroupTimerFire? || act.GroupTimerSend? || act.GroupTimerClose?
    requires GroupInv(s) && GroupTimerAct(s, act).Some?
    ensures GroupInv(GroupTimerAct(s, act).value) && SameMembers(s, GroupTimerAct(s, act).value)
  {
    hide Inv, LogInv;
    LogKept(s, GroupTimerAct(s, act).value);
  }

  lemma StepKeepsGroupInv(s: Group, act: GroupAct)
    requires GroupInv(s) && GroupStep(s, act).Some?
    ensures GroupInv(GroupStep(s, act).value) && SameMembers(s, GroupStep(s, act).value)
  {
    hide GroupInv, SameMembers, RunnerAct, DeliverAct, LaunchAct, MainAct, WalkAct, GroupTimerAct;
    match act
    case Do(i, a) => RunnerActKeepsInv(s, i, a);
    case SendResult(i) => DeliverKeepsInv(s, i);
    case Start => LaunchKeepsInv(s, act);
    case Launch(_) => LaunchKeepsInv(s, act);
    case Launched => LaunchKeepsInv(s, act);
    case OtherInterrupt => WalkKeepsInv(s, act);
    case Visit(_) => WalkKeepsInv(s, act);
    case Swap => SwapKeepsInv(s);
    case StopperDone => WalkKeepsInv(s, act);
    case ArmTimer => WalkKeepsInv(s, act);
    case GroupTimerFire => TimerKeepsInv(s, act);
    case GroupTimerSend => TimerKeepsInv(s, act);
    case GroupTimerClose => TimerKeepsInv(s, act);
    case _ => MainKeepsInv(s, act);
  }

  lemma {:induction false} ExecKeepsGroupInv(s: Group, acts: seq<GroupAct>)
    requires GroupInv(s) && Exec(s, acts).Some?
    ensures GroupInv(Exec(s, acts).value) && Exec(s, acts).value.runners.Keys == s.runners.Keys
    decreases |acts|
  {
    hide GroupInv, GroupStep;
    if acts != [] {
      StepKeepsGroupInv(s, acts[0]);
      ExecKeepsGroupInv(GroupStep(s, acts[0]).value, acts[1..]);
    }
  }

  lemma InitialInv(s: Group)
    requires Initial(s)
    ensures GroupInv(s)
  {
    forall i <- s.runners ensures Inv(s.runners[i]) && s.runners[i].id == i {
      InitKeepsInv(i, s.runners[i].dur);
    }
    hide Inv;
    assert Log(s) == [];
  }

  lemma ReachableInv(s: Group)
    requires Reachable(s)
    ensures GroupInv(s)
  {
    hide GroupInv, Initial;
    var s0, acts :| Initial(s0) && Exec(s0, acts) == Some(s);
    InitialInv(s0);
    ExecKeepsGroupInv(s0, acts);
  }
}
