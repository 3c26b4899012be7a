/** The protocol of a single runner (pkg/runner/runner.go) as a step system.

    A runner is shared by four kinds of goroutines: the one that executes the task body,
    the one in `doTask` that waits for a result, the timer goroutine that `Interrupt`
    spawns, and the caller that won the `interrupted` swap and calls the stopper. Each has
    a program counter in `Runner`; one `Act` is one atomic step of one of them. A run is
    any sequence of acts, so every interleaving is covered. */
module RunnerProtocol {

  datatype Option<+T> = None | Some(value: T)

  type Id = string

  /** What travels through the result channels. `NilResult` is the zero value that a
      receive from a closed and empty channel yields. */
  datatype Result =
    | TaskResult(id: Id, err: Option<string>)
    | RunnerTimeout(id: Id, dur: nat)
    | GroupTimeout(dur: nat)
    | NilResult

  /** A Go channel: sending blocks while the buffer is full, receiving blocks while the
      buffer is empty and the channel open, and sending to or closing a closed channel panics. */
  datatype Chan<T> = Chan(cap: nat, buf: seq<T>, closed: bool) {
    predicate CanReceive() {
      |buf| > 0 || closed
    }

    function Received(zero: T): T
      requires CanReceive()
    {
      if |buf| > 0 then buf[0] else zero
    }

    function AfterReceive(): Chan<T>
      requires CanReceive()
    {
      if |buf| > 0 then this.(buf := buf[1..]) else this
    }
  }

  datatype BodyPc =
    | BodyIdle | BodySpawned | BodyRunning
    | BodyReturned(err: Option<string>) | FinishedClosed(err: Option<string>)
    | ResultSent(err: Option<string>) | TmpClosed(err: Option<string>)

  datatype TaskPc = TaskIdle | TaskSpawned | TaskSelecting | TaskSending(result: Result) | TaskSent | TaskDone

  datatype TimerPc = TimerIdle | TimerSelecting | TimerQuit | TimerFired | TimerSent | TimerClosed

  datatype InterruptPc = NotInterrupted | SwapWon | TimerSpawned | StopperRunning | StopperReturned

  datatype Runner = Runner(
    id: Id,
    dur: nat,
    // atomic flags and channels
    running: bool,
    interrupted: bool,
    finished: Chan<()>,
    tmp: Chan<Result>,
    interruptedCh: Chan<nat>,
    // program counters
    body: BodyPc,
    task: TaskPc,
    timer: TimerPc,
    interrupter: InterruptPc,
    // history
    delivered: seq<Result>,
    bodyRuns: nat,
    stopperCalls: nat,
    panicked: bool
  )

  function NewRunner(id: Id, dur: nat): Runner {
    Runner(id, dur, false, false, Chan(0, [], false), Chan(1, [], false), Chan(1, [], false),
           BodyIdle, TaskIdle, TimerIdle, NotInterrupted, [], 0, 0, false)
  }

  datatype Act =
    | CallRun                            // Run or RunAsync swaps `running`; a second caller panics on its own
    | StartTask                          // doTask makes tmpCh and spawns the body
    | BodyBegin
    | BodyReturn(err: Option<string>)    // the task itself decides when and how it ends
    | CloseFinished
    | SendTmp
    | CloseTmp
    | TakeInterrupted                    // the two branches of doTask's select
    | TakeTmp
    | Deliver                            // the channel's owner has accepted doTask's result
    | TaskExit
    | CallInterrupt                      // Interrupt swaps `interrupted`; losing callers return at once
    | SpawnTimer
    | CallStopper
    | StopperReturn
    | TimerSeesFinished                  // the two branches of the timer goroutine's select
    | TimerFire
    | TimerSend
    | TimerClose

  /** One atomic step; `None` when the step is not enabled (wrong program counter, or blocked). */
  function Step(r: Runner, a: Act): Option<Runner> {
    match a
    case CallRun =>
      Some(if r.running then r else r.(running := true, task := TaskSpawned))
    case StartTask =>
      if r.task == TaskSpawned then Some(r.(task := TaskSelecting, body := BodySpawned)) else None
    case BodyBegin =>
      if r.body == BodySpawned then Some(r.(body := BodyRunning, bodyRuns := r.bodyRuns + 1)) else None
    case BodyReturn(err) =>
      if r.body == BodyRunning then Some(r.(body := BodyReturned(err))) else None
    case CloseFinished =>
      if !r.body.BodyReturned? then None
      else if r.finished.closed then Some(r.(panicked := true))
      else Some(r.(finished := r.finished.(closed := true), body := FinishedClosed(r.body.err)))
    case SendTmp =>
      if !r.body.FinishedClosed? then None
      else if r.tmp.closed then Some(r.(panicked := true))
      else if |r.tmp.buf| >= r.tmp.cap then None
      else Some(r.(tmp := r.tmp.(buf := r.tmp.buf + [TaskResult(r.id, r.body.err)]), body := ResultSent(r.body.err)))
    case CloseTmp =>
      if !r.body.ResultSent? then None
      else if r.tmp.closed then Some(r.(panicked := true))
      else Some(r.(tmp := r.tmp.(closed := true), body := TmpClosed(r.body.err)))
    case TakeInterrupted =>
      if r.task == TaskSelecting && r.interruptedCh.CanReceive() then
        Some(r.(task := TaskSending(RunnerTimeout(r.id, r.interruptedCh.Received(0))),
             interruptedCh := r.interruptedCh.AfterReceive()))
      else None
    case TakeTmp =>
      if r.task == TaskSelecting && r.tmp.CanReceive() then
        Some(r.(task := TaskSending(r.tmp.Received(NilResult)), tmp := r.tmp.AfterReceive()))
      else None
    case Deliver =>
      if r.task.TaskSending? then Some(r.(task := TaskSent, delivered := r.delivered + [r.task.result])) else None
    case TaskExit =>
      if r.task == TaskSent then Some(r.(task := TaskDone)) else None
    case CallInterrupt =>
      Some(if r.interrupted then r else r.(interrupted := true, interrupter := SwapWon))
    case SpawnTimer =>
      if r.interrupter == SwapWon then Some(r.(interrupter := TimerSpawned, timer := TimerSelecting)) else None
    case CallStopper =>
      if r.interrupter == TimerSpawned then Some(r.(interrupter := StopperRunning, stopperCalls := r.stopperCalls + 1))
      else None
    case StopperReturn =>
      if r.interrupter == StopperRunning then Some(r.(interrupter := StopperReturned)) else None
    case TimerSeesFinished =>
      if r.timer == TimerSelecting && r.finished.CanReceive() then Some(r.(timer := TimerQuit)) else None
    case TimerFire =>
      if r.timer == TimerSelecting then Some(r.(timer := TimerFired)) else None
    case TimerSend =>
      if r.timer != TimerFired then None
      else if r.interruptedCh.closed then Some(r.(panicked := true))
      else if |r.interruptedCh.buf| >= r.interruptedCh.cap then None
      else Some(r.(interruptedCh := r.interruptedCh.(buf := r.interruptedCh.buf + [r.dur]), timer := TimerSent))
    case TimerClose =>
      if r.timer != TimerSent then None
      else if r.interruptedCh.closed then Some(r.(panicked := true))
      else Some(r.(interruptedCh := r.interruptedCh.(closed := true), timer := TimerClosed))
  }

  /** The result `doTask` chose in its select, once it has chosen. */
  function Chosen(r: Runner): Option<Result> {
    if r.task.TaskSending? then Some(r.task.result)
    else if |r.delivered| > 0 then Some(r.delivered[0])
    else None
  }

  predicate BodyFinished(r: Runner) {
    r.body.FinishedClosed? || r.body.ResultSent? || r.body.TmpClosed?
  }

  predicate TimedOut(r: Runner) {
    r.timer == TimerSent || r.timer == TimerClosed
  }

  /** Flags, counters and program counters agree. */
  predicate Flags(r: Runner) {
    && !r.panicked
    && (r.running <==> r.task != TaskIdle)
    && (r.body == BodyIdle <==> r.task == TaskIdle || r.task == TaskSpawned)
    && r.bodyRuns == (if r.body == BodyIdle || r.body == BodySpawned then 0 else 1)
    && (r.interrupted <==> r.interrupter != NotInterrupted)
    && (r.timer == TimerIdle <==> r.interrupter == NotInterrupted || r.interrupter == SwapWon)
    && r.stopperCalls == (if r.interrupter == StopperRunning || r.interrupter == StopperReturned then 1 else 0)
    && |r.delivered| == (if r.task == TaskSent || r.task == TaskDone then 1 else 0)
    && (r.finished.closed <==> BodyFinished(r))
    && (r.timer == TimerQuit ==> BodyFinished(r))
  }

  /** What each channel holds is determined by who has sent, who has received and who has closed. */
  predicate Channels(r: Runner) {
    var gotTask := Chosen(r).Some? && Chosen(r).value.TaskResult?;
    var gotTimeout := Chosen(r).Some? && Chosen(r).value.RunnerTimeout?;
    && |r.delivered| <= 1
    && r.finished.buf == []
    && r.tmp == Chan(1, if (r.body.ResultSent? || r.body.TmpClosed?) && !gotTask then [TaskResult(r.id, r.body.err)] else [],
                     r.body.TmpClosed?)
    && r.interruptedCh == Chan(1, if TimedOut(r) && !gotTimeout then [r.dur] else [], r.timer == TimerClosed)
    && (Chosen(r).Some? ==>
          || ((r.body.ResultSent? || r.body.TmpClosed?) && Chosen(r).value == TaskResult(r.id, r.body.err))
          || (TimedOut(r) && Chosen(r).value == RunnerTimeout(r.id, r.dur)))
  }

  /** The inductive invariant of a runner. */
  predicate Inv(r: Runner) {
    Flags(r) && Channels(r)
  }

  lemma InitKeepsInv(id: Id, dur: nat)
    ensures Inv(NewRunner(id, dur))
  {}

  predicate BodyAct(a: Act) {
    a.BodyBegin? || a.BodyReturn? || a.CloseFinished? || a.SendTmp? || a.CloseTmp?
  }

  predicate TaskAct(a: Act) {
    a.CallRun? || a.StartTask? || a.TakeInterrupted? || a.TakeTmp? || a.Deliver? || a.TaskExit?
  }

  predicate TimerAct(a: Act) {
    a.TimerSeesFinished? || a.TimerFire? || a.TimerSend? || a.TimerClose?
  }

  lemma BodyKeepsInv(r: Runner, a: Act)
    requires Inv(r) && Step(r, a).Some? && BodyAct(a)
    ensures Inv(Step(r, a).value)
  {}

  lemma TaskKeepsInv(r: Runner, a: Act)
    requires Inv(r) && Step(r, a).Some? && TaskAct(a)
    ensures Inv(Step(r, a).value)
  {}

  lemma TimerKeepsFlags(r: Runner, a: Act)
    requires Inv(r) && Step(r, a).Some? && TimerAct(a)
    ensures Flags(Step(r, a).value)
  {}

  lemma SendKeepsChannels(r: Runner)
    requires Inv(r) && Step(r, TimerSend).Some?
    ensures Channels(Step(r, TimerSend).value)
  {}

  lemma CloseKeepsChannels(r: Runner)
    requires Inv(r) && Step(r, TimerClose).Some?
    ensures Channels(Step(r, TimerClose).value)
  {
    hide Flags;
  }

  lemma TimerKeepsChannels(r: Runner, a: Act)
    requires Inv(r) && Step(r, a).Some? && TimerAct(a)
    ensures Channels(Step(r, a).value)
  {
    if a.TimerSend? {
      SendKeepsChannels(r);
    } else if a.TimerClose? {
      CloseKeepsChannels(r);
    }
  }

  lemma TimerKeepsInv(r: Runner, a: Act)
    requires Inv(r) && Step(r, a).Some? && TimerAct(a)
    ensures Inv(Step(r, a).value)
  {
    hide Flags, Channels, Step;
    TimerKeepsFlags(r, a);
    TimerKeepsChannels(r, a);
  }

  lemma InterruptKeepsInv(r: Runner, a: Act)
    requires Inv(r) && Step(r, a).Some? && !BodyAct(a) && !TaskAct(a) && !TimerAct(a)
    ensures Inv(Step(r, a).value)
  {}

  lemma StepKeepsInv(r: Runner, a: Act)
    requires Inv(r) && Step(r, a).Some?
    ensures Inv(Step(r, a).value)
    ensures Step(r, a).value.id == r.id && Step(r, a).value.dur == r.dur
  {
    if BodyAct(a) {
      BodyKeepsInv(r, a);
    } else if TaskAct(a) {
      TaskKeepsInv(r, a);
    } else if TimerAct(a) {
      TimerKeepsInv(r, a);
    } else {
      InterruptKeepsInv(r, a);
    }
  }

  /** What the four goroutines of a runner still have to do. */
  function Work(r: Runner): nat {
    (match r.task case TaskIdle => 5 case TaskSpawned => 4 case TaskSelecting => 3 case TaskSending(_) => 2
     case TaskSent => 1 case TaskDone => 0) +
    (match r.body case BodyIdle => 6 case BodySpawned => 5 case BodyRunning => 4 case BodyReturned(_) => 3
     case FinishedClosed(_) => 2 case ResultSent(_) => 1 case TmpClosed(_) => 0) +
    (match r.timer case TimerIdle => 4 case TimerSelecting => 3 case TimerFired => 2 case TimerSent => 1 case _ => 0) +
    (match r.interrupter case NotInterrupted => 4 case SwapWon => 3 case TimerSpawned => 2 case StopperRunning => 1
     case StopperReturned => 0)
  }

  predicate LosesSwap(r: Runner, a: Act) {
    (a == CallRun && r.running) || (a == CallInterrupt && r.interrupted)
  }

  lemma BodyWork(r: Runner, a: Act)
    requires Inv(r) && Step(r, a).Some? && BodyAct(a)
    ensures Work(Step(r, a).value) < Work(r)
  {
    hide Channels;
    StepKeepsInv(r, a);
  }

  lemma TaskWork(r: Runner, a: Act)
    requires Inv(r) && Step(r, a).Some? && TaskAct(a)
    ensures if LosesSwap(r, a) then Step(r, a).value == r else Work(Step(r, a).value) < Work(r)
  {
    hide Channels;
  }

  lemma TimerWork(r: Runner, a: Act)
    requires Inv(r) && Step(r, a).Some? && TimerAct(a)
    ensures Work(Step(r, a).value) < Work(r)
  {
    hide Channels;
    TimerKeepsFlags(r, a);
  }

  lemma InterruptWork(r: Runner, a: Act)
    requires Inv(r) && Step(r, a).Some? && !BodyAct(a) && !TaskAct(a) && !TimerAct(a)
    ensures if LosesSwap(r, a) then Step(r, a).value == r else Work(Step(r, a).value) < Work(r)
  {
    hide Channels;
    StepKeepsInv(r, a);
  }

  /** Every step makes progress, except a Run or an Interrupt that loses its swap. */
  lemma StepWorks(r: Runner, a: Act)
    requires Inv(r) && Step(r, a).Some?
    ensures if LosesSwap(r, a) then Step(r, a).value == r else Work(Step(r, a).value) < Work(r)
  {
    hide Inv, Step, Work;
    if BodyAct(a) {
      BodyWork(r, a);
    } else if TaskAct(a) {
      TaskWork(r, a);
    } else if TimerAct(a) {
      TimerWork(r, a);
    } else {
      InterruptWork(r, a);
    }
  }

  /** What a step changes of the parts that others look at. */
  lemma StepEffect(r: Runner, a: Act)
    requires Inv(r)
    requires Step(r, a).Some? || a == CallRun || a == CallInterrupt || (a == Deliver && r.task.TaskSending?)
    ensures Step(r, a).Some?
    ensures var r' := Step(r, a).value;
            && Inv(r') && r'.id == r.id && r'.dur == r.dur
            && r'.running == (r.running || a == CallRun)
            && r'.interrupted == (r.interrupted || a == CallInterrupt)
            && r'.delivered == (if a == Deliver then [r.task.result] else r.delivered)
            && (r'.task == TaskDone <==> r.task == TaskDone || a == TaskExit)
            && (r.finished.closed ==> r'.finished.closed)
  {
    hide Inv, Step;
    if Step(r, a).None? {
      OutsidersAct(r, a);
    }
    StepKeepsInv(r, a);
    FlagsFrame(r, a);
    TaskOf(r);
    ResultFrame(r, a);
  }

  lemma FlagsFrame(r: Runner, a: Act)
    requires Step(r, a).Some?
    ensures Step(r, a).value.running == (r.running || a == CallRun)
    ensures Step(r, a).value.interrupted == (r.interrupted || a == CallInterrupt)
    ensures r.finished.closed ==> Step(r, a).value.finished.closed
  {}

  lemma ResultFrame(r: Runner, a: Act)
    requires Step(r, a).Some? && (r.task.TaskSending? ==> r.delivered == []) && (!r.running ==> r.task == TaskIdle)
    ensures Step(r, a).value.delivered == (if a == Deliver then [r.task.result] else r.delivered)
    ensures Step(r, a).value.task == TaskDone <==> r.task == TaskDone || a == TaskExit
  {}

  lemma TaskOf(r: Runner)
    requires Inv(r)
    ensures (r.task.TaskSending? ==> r.delivered == []) && (!r.running ==> r.task == TaskIdle)
  {
    hide Channels;
  }

  /** Calls of outsiders, and the send of a result, are never refused. */
  lemma OutsidersAct(r: Runner, a: Act)
    requires Inv(r) && (a == CallRun || a == CallInterrupt || (a == Deliver && r.task.TaskSending?))
    ensures Step(r, a).Some?
  {
    hide Channels;
  }

  /** A task result is only delivered after `finished` was closed. */
  lemma DeliveredAfterFinished(r: Runner)
    requires Inv(r) && |r.delivered| > 0 && r.delivered[0].TaskResult?
    ensures r.finished.closed
  {}

  lemma InterruptIsUnderWay(r: Runner)
    requires Inv(r) && r.interrupted
    ensures r.interrupter != NotInterrupted
  {}

  // ----- where a result comes from -----

  function ErrOf(b: BodyPc): Option<Option<string>> {
    match b
    case BodyReturned(err) => Some(err)
    case FinishedClosed(err) => Some(err)
    case ResultSent(err) => Some(err)
    case TmpClosed(err) => Some(err)
    case _ => None
  }

  predicate HasFired(r: Runner) {
    r.timer == TimerFired || r.timer == TimerSent || r.timer == TimerClosed
  }

  /** Only the task decides what it returns, and only the timer's own act makes it fire. */
  lemma StepTrace(r: Runner, a: Act)
    requires Step(r, a).Some?
    ensures Step(r, a).value.dur == r.dur
    ensures var b := Step(r, a).value.body; ErrOf(b).Some? ==> ErrOf(b) == ErrOf(r.body) || a == BodyReturn(ErrOf(b).value)
    ensures HasFired(Step(r, a).value) ==> HasFired(r) || a == TimerFire
  {}

  // ----- progress without interrupts -----

  /** The steps by which a task gets its result out, none of them part of an interrupt. */
  predicate IsOwn(a: Act) {
    a.StartTask? || a.BodyBegin? || a.BodyReturn? || a.CloseFinished? || a.SendTmp? || a.TakeTmp?
  }

  function NextOwn(r: Runner): Act {
    if r.task == TaskSpawned then StartTask
    else if r.task.TaskSending? then Deliver
    else
      match r.body
      case BodyIdle => StartTask
      case BodySpawned => BodyBegin
      case BodyRunning => BodyReturn(None)
      case BodyReturned(_) => CloseFinished
      case FinishedClosed(_) => SendTmp
      case ResultSent(_) => TakeTmp
      case TmpClosed(_) => TakeTmp
  }

  /** A running task that has delivered nothing is on its way to: its next step, or the send of its
      result, is enabled whether or not it was interrupted. */
  lemma NextOwnIsEnabled(r: Runner)
    requires Inv(r) && r.running && r.delivered == []
    ensures if NextOwn(r) == Deliver then r.task.TaskSending? else IsOwn(NextOwn(r))
    ensures Step(r, NextOwn(r)).Some?
  {}

  /** The next step of the goroutine that `Interrupt` spawns; it does not wait for its timer once the
      task has finished. */
  function NextOfTimer(r: Runner): Act {
    match r.timer
    case TimerSelecting => if r.finished.closed then TimerSeesFinished else TimerFire
    case TimerFired => TimerSend
    case _ => TimerClose
  }

  /** No goroutine of a runner is left hanging: the timer's send never blocks, nor do the steps of the
      body behind the task's return, nor those of a stopper. */
  lemma NobodyHangs(r: Runner)
    requires Inv(r)
    ensures r.timer != TimerIdle && r.timer != TimerQuit && r.timer != TimerClosed ==> Step(r, NextOfTimer(r)).Some?
    ensures r.body.BodyReturned? ==> Step(r, CloseFinished).Some?
    ensures r.body.FinishedClosed? ==> Step(r, SendTmp).Some?
    ensures r.body.ResultSent? ==> Step(r, CloseTmp).Some?
    ensures r.interrupter == SwapWon ==> Step(r, SpawnTimer).Some?
    ensures r.interrupter == TimerSpawned ==> Step(r, CallStopper).Some?
  {}
}
