/** `Runner.Run`: one runner, the goroutine blocked in `Run`, an external context, and any
    number of goroutines calling `Interrupt` (pkg/runner/runner.go). */
module RunnerRun {
  import opened RunnerProtocol

  datatype Caller =
    | NotCalled
    | Selecting                  // select on the result channel and ctx.Done()
    | InInterrupt(won: bool)     // inside r.Interrupt(), after its swap
    | Awaiting                   // result := <-ch
    | Returned(result: Result)

  /** `Run` makes an unbuffered channel, so doTask's send and the caller's receive are one step.
      `outClosed` is that channel's closed flag. */
  datatype State = State(r: Runner, caller: Caller, outClosed: bool, panicked: bool)

  function Init(id: Id, dur: nat): State {
    State(NewRunner(id, dur), NotCalled, false, false)
  }

  datatype Act =
    | Do(a: RunnerProtocol.Act)  // a step inside the runner, including any goroutine's Interrupt
    | Call
    | CtxDone
    | InterruptReturns
    | Rendezvous
    | CloseOut

  function Step(s: State, act: Act): Option<State> {
    match act
    case Do(a) =>
      if a.CallRun? || a.Deliver? || a.TaskExit? then None
      else if RunnerProtocol.Step(s.r, a).Some? then Some(s.(r := RunnerProtocol.Step(s.r, a).value))
      else None
    case Call =>
      if s.caller == NotCalled && !s.r.running then
        Some(s.(r := RunnerProtocol.Step(s.r, CallRun).value, caller := Selecting))
      else None
    case CtxDone =>
      if s.caller == Selecting then
        Some(s.(r := RunnerProtocol.Step(s.r, CallInterrupt).value, caller := InInterrupt(!s.r.interrupted)))
      else None
    case InterruptReturns =>
      if s.caller.InInterrupt? && (s.caller.won ==> s.r.interrupter == StopperReturned) then
        Some(s.(caller := Awaiting))
      else None
    case Rendezvous =>
      if (s.caller == Selecting || s.caller == Awaiting) && s.r.task.TaskSending? then
        if s.outClosed then Some(s.(panicked := true))
        else Some(s.(r := RunnerProtocol.Step(s.r, Deliver).value, caller := Returned(s.r.task.result)))
      else None
    case CloseOut =>
      if s.r.task != TaskSent then None
      else if s.outClosed then Some(s.(panicked := true))
      else Some(s.(r := RunnerProtocol.Step(s.r, TaskExit).value, outClosed := true))
  }

  /** Performs a whole run; `None` when one of its acts is not enabled. */
  function Exec(s: State, acts: seq<Act>): Option<State>
    decreases |acts|
  {
    if acts == [] then Some(s)
    else if Step(s, acts[0]).None? then None
    else Exec(Step(s, acts[0]).value, acts[1..])
  }

  predicate StateInv(s: State) {
    && Inv(s.r)
    && !s.panicked
    && (s.caller == NotCalled <==> !s.r.running)
    && (s.caller.Returned? <==> |s.r.delivered| == 1)
    && (s.caller.Returned? ==> s.caller.result == s.r.delivered[0])
    && (s.outClosed <==> s.r.task == TaskDone)
    && (s.caller.InInterrupt? || s.caller == Awaiting ==> s.r.interrupted)
  }

  lemma InnerStepKeepsStateInv(s: State, a: RunnerProtocol.Act)
    requires StateInv(s) && Step(s, Do(a)).Some?
    ensures StateInv(Step(s, Do(a)).value)
  {
    StepEffect(s.r, a);
    hide Inv, RunnerProtocol.Step;
  }

  lemma StepKeepsStateInv(s: State, act: Act)
    requires StateInv(s) && Step(s, act).Some?
    ensures StateInv(Step(s, act).value)
  {
    hide Channels;
    match act
    case Do(a) => InnerStepKeepsStateInv(s, a);
    case Call => StepKeepsInv(s.r, CallRun);
    case CtxDone => StepKeepsInv(s.r, CallInterrupt);
    case InterruptReturns =>
    case Rendezvous => StepKeepsInv(s.r, Deliver);
    case CloseOut => StepKeepsInv(s.r, TaskExit);
  }

  lemma {:induction false} ExecKeepsStateInv(s: State, acts: seq<Act>)
    requires StateInv(s) && Exec(s, acts).Some?
    ensures StateInv(Exec(s, acts).value)
    decreases |acts|
  {
    if acts != [] {
      StepKeepsStateInv(s, acts[0]);
      ExecKeepsStateInv(Step(s, acts[0]).value, acts[1..]);
    }
  }

  /** What a body has returned and a fired timer go back to acts of the run. */
  predicate Traced(s: State, acts: seq<Act>, t: State) {
    && t.r.id == s.r.id && t.r.dur == s.r.dur
    && (ErrOf(t.r.body).Some? ==> ErrOf(t.r.body) == ErrOf(s.r.body) || Do(BodyReturn(ErrOf(t.r.body).value)) in acts)
    && (HasFired(t.r) ==> HasFired(s.r) || Do(TimerFire) in acts)
    && (t.r.interrupted ==> s.r.interrupted || Do(CallInterrupt) in acts || CtxDone in acts)
  }

  lemma StepTraces(s: State, act: Act)
    requires StateInv(s) && Step(s, act).Some?
    ensures Traced(s, [act], Step(s, act).value)
  {
    hide Inv, RunnerProtocol.Step, ErrOf, HasFired;
    match act
    case Do(a) => InnerTrace(s.r, a);
    case Call => InnerTrace(s.r, CallRun);
    case CtxDone => InnerTrace(s.r, CallInterrupt);
    case InterruptReturns =>
    case Rendezvous => InnerTrace(s.r, Deliver);
    case CloseOut => InnerTrace(s.r, TaskExit);
  }

  lemma InnerTrace(r: Runner, a: RunnerProtocol.Act)
    requires Inv(r)
    ensures RunnerProtocol.Step(r, a).Some? ==>
      var r' := RunnerProtocol.Step(r, a).value;
      && r'.id == r.id && r'.dur == r.dur && r'.interrupted == (r.interrupted || a == CallInterrupt)
      && (ErrOf(r'.body).Some? ==> ErrOf(r'.body) == ErrOf(r.body) || a == BodyReturn(ErrOf(r'.body).value))
      && (HasFired(r') ==> HasFired(r) || a == TimerFire)
    ensures a == CallRun || a == CallInterrupt || (a == Deliver && r.task.TaskSending?) || (a == TaskExit && r.task == TaskSent) ==>
      RunnerProtocol.Step(r, a).Some?
  {
    hide Inv, ErrOf, HasFired;
    if RunnerProtocol.Step(r, a).Some? {
      StepTrace(r, a);
      StepKeepsInv(r, a);
    }
  }

  lemma {:induction false} ExecTraces(s: State, acts: seq<Act>)
    requires StateInv(s) && Exec(s, acts).Some?
    ensures Traced(s, acts, Exec(s, acts).value)
    decreases |acts|
  {
    hide StateInv, Step, ErrOf, HasFired;
    if acts != [] {
      StepKeepsStateInv(s, acts[0]);
      StepTraces(s, acts[0]);
      ExecTraces(Step(s, acts[0]).value, acts[1..]);
      assert acts == [acts[0]] + acts[1..];
    }
  }

  /** Channel discipline over all runs: no goroutine ever sends on or closes a closed channel,
      the body and the stopper start at most once, and `Run` returns exactly the one result
      that was sent, which is either what the task itself returned in this run, after `finished`
      was closed, or a timeout with the runner's own duration, from the runner's own timer, which
      fired in this run, after an interrupt. */
  lemma RunDiscipline(id: Id, dur: nat, acts: seq<Act>)
    requires Exec(Init(id, dur), acts).Some?
    ensures var s := Exec(Init(id, dur), acts).value;
            && !s.panicked && !s.r.panicked
            && s.r.bodyRuns <= 1 && s.r.stopperCalls <= 1 && |s.r.delivered| <= 1
            && (s.caller.Returned? ==>
                  || (BodyFinished(s.r) && s.r.finished.closed && s.caller.result == TaskResult(id, s.r.body.err)
                      && Do(BodyReturn(s.r.body.err)) in acts)
                  || (s.r.interrupted && TimedOut(s.r) && s.caller.result == RunnerTimeout(id, dur)
                      && Do(TimerFire) in acts && (Do(CallInterrupt) in acts || CtxDone in acts)))
  {
    InitIsInv(id, dur);
    ExecKeepsStateInv(Init(id, dur), acts);
    ExecTraces(Init(id, dur), acts);
    hide Exec;
  }

  /** Before its context ends `Run` never waits for an interrupt: the task's own next step, or the
      receive of its result, is enabled. */
  lemma SelectingNotStuck(id: Id, dur: nat, acts: seq<Act>) returns (act: Act)
    requires Exec(Init(id, dur), acts).Some? && Exec(Init(id, dur), acts).value.caller == Selecting
    ensures act == Rendezvous || (act.Do? && IsOwn(act.a))
    ensures Step(Exec(Init(id, dur), acts).value, act).Some?
  {
    InitIsInv(id, dur);
    ExecKeepsStateInv(Init(id, dur), acts);
    hide Inv, RunnerProtocol.Step, Exec, NextOwn;
    var s := Exec(Init(id, dur), acts).value;
    NothingDelivered(s);
    NextOwnIsEnabled(s.r);
    act := if NextOwn(s.r) == Deliver then Rendezvous else Do(NextOwn(s.r));
  }

  /** Where nobody else interrupts, `Run` waits for its own stopper before it awaits the result. */
  predicate WaitsForStopper(s: State) {
    match s.caller
    case NotCalled => !s.r.interrupted
    case Selecting => !s.r.interrupted
    case InInterrupt(won) => won
    case Awaiting => s.r.interrupter == StopperReturned
    case Returned(_) => s.r.interrupted ==> s.r.interrupter == StopperReturned
  }

  lemma StepKeepsWaiting(s: State, act: Act)
    requires StateInv(s) && WaitsForStopper(s) && act != Do(CallInterrupt) && Step(s, act).Some?
    ensures WaitsForStopper(Step(s, act).value)
  {
    hide Inv;
  }

  lemma {:induction false} ExecKeepsWaiting(s: State, acts: seq<Act>)
    requires StateInv(s) && WaitsForStopper(s) && Do(CallInterrupt) !in acts && Exec(s, acts).Some?
    ensures WaitsForStopper(Exec(s, acts).value)
    decreases |acts|
  {
    hide StateInv, WaitsForStopper, Step;
    if acts != [] {
      StepKeepsStateInv(s, acts[0]);
      StepKeepsWaiting(s, acts[0]);
      ExecKeepsWaiting(Step(s, acts[0]).value, acts[1..]);
    }
  }

  /** When the context of `Run` ends and nobody else interrupts, the stopper has been called, once,
      and has returned before `Run` goes on; as long as it does not end, the stopper is not called. */
  lemma RunCallsStopper(id: Id, dur: nat, acts: seq<Act>)
    requires Exec(Init(id, dur), acts).Some? && Do(CallInterrupt) !in acts
    ensures var s := Exec(Init(id, dur), acts).value;
      if CtxDone !in acts then s.r.stopperCalls == 0
      else s.caller == Awaiting || s.caller.Returned? ==> s.r.stopperCalls == 1 && s.r.interrupter == StopperReturned
  {
    InitIsInv(id, dur);
    ExecKeepsStateInv(Init(id, dur), acts);
    ExecKeepsWaiting(Init(id, dur), acts);
    ExecTraces(Init(id, dur), acts);
    hide Exec, Channels;
    if CtxDone in acts {
      ExecSeesCtx(Init(id, dur), acts);
    }
  }

  lemma {:induction false} ExecSeesCtx(s: State, acts: seq<Act>)
    requires StateInv(s) && Exec(s, acts).Some? && (s.r.interrupted || CtxDone in acts)
    ensures Exec(s, acts).value.r.interrupted
    decreases |acts|
  {
    hide StateInv, Step;
    if acts != [] {
      StepKeepsStateInv(s, acts[0]);
      StepSeesCtx(s, acts[0]);
      ExecSeesCtx(Step(s, acts[0]).value, acts[1..]);
    }
  }

  lemma StepSeesCtx(s: State, act: Act)
    requires Step(s, act).Some?
    ensures s.r.interrupted || act == CtxDone ==> Step(s, act).value.r.interrupted
  {}

  lemma NothingDelivered(s: State)
    requires StateInv(s) && s.caller == Selecting
    ensures s.r.delivered == [] && s.r.running
  {}

  /** The acts that the runtime owes us: everything except the task deciding to end, the
      context ending, a caller starting, and goroutines calling Interrupt. */
  predicate Owed(act: Act) {
    && (act.Do? ==> !act.a.BodyReturn? && !act.a.CallInterrupt?)
    && !act.Call? && !act.CtxDone?
  }

  /** An owed act that is enabled once `Run` has seen its context end. */
  function NextOwed(s: State): Act {
    if s.r.interrupter == SwapWon then Do(SpawnTimer)
    else if s.r.interrupter == TimerSpawned then Do(CallStopper)
    else if s.r.interrupter == StopperRunning then Do(StopperReturn)
    else if s.caller.InInterrupt? then InterruptReturns
    else if s.r.task.TaskSending? then Rendezvous
    else if s.r.task == TaskSpawned then Do(StartTask)
    else if s.r.timer == TimerSelecting then Do(TimerFire)
    else if s.r.timer == TimerFired then Do(TimerSend)
    else if TimedOut(s.r) then Do(TakeInterrupted)
    else if s.r.body.FinishedClosed? then Do(SendTmp)
    else Do(TakeTmp)
  }

  /** Once the context has ended, `Run` never gets stuck, even if the task never ends. */
  lemma RunNotStuck(id: Id, dur: nat, acts: seq<Act>)
    requires Exec(Init(id, dur), acts).Some?
    requires var c := Exec(Init(id, dur), acts).value.caller; c.InInterrupt? || c == Awaiting
    ensures var s := Exec(Init(id, dur), acts).value; Owed(NextOwed(s)) && Step(s, NextOwed(s)).Some?
  {
    ExecKeepsStateInv(Init(id, dur), acts);
    NextOwedIsEnabled(Exec(Init(id, dur), acts).value);
  }

  predicate CtxOver(s: State) {
    s.caller.InInterrupt? || s.caller == Awaiting || s.caller.Returned?
  }

  lemma NextOwedIsEnabled(s: State)
    requires StateInv(s) && (s.caller.InInterrupt? || s.caller == Awaiting)
    ensures Owed(NextOwed(s)) && Step(s, NextOwed(s)).Some?
  {}

  /** What is left to do for every goroutine. */
  function Measure(s: State): nat {
    Work(s.r) +
    match s.caller case NotCalled => 4 case Selecting => 3 case InInterrupt(_) => 2 case Awaiting => 1 case Returned(_) => 0
  }

  /** Every act makes progress, except an `Interrupt` that loses the swap, which changes nothing. */
  lemma StepDecreases(s: State, act: Act)
    requires StateInv(s) && Step(s, act).Some?
    ensures Step(s, act).value == s || Measure(Step(s, act).value) < Measure(s)
    ensures Owed(act) ==> Step(s, act).value != s
  {
    hide Channels, Work;
    match act
    case Do(a) => StepWorks(s.r, a);
    case Call => StepWorks(s.r, CallRun);
    case CtxDone => StepWorks(s.r, CallInterrupt);
    case InterruptReturns =>
    case Rendezvous => StepWorks(s.r, Deliver);
    case CloseOut => StepWorks(s.r, TaskExit);
  }

  function OwedCount(acts: seq<Act>): nat {
    if acts == [] then 0 else (if Owed(acts[0]) then 1 else 0) + OwedCount(acts[1..])
  }

  /** So `Run` returns: no run has more than 23 owed acts, and (RunNotStuck) one is always enabled. */
  lemma {:induction false} RunBounded(s: State, acts: seq<Act>)
    requires StateInv(s) && Exec(s, acts).Some?
    ensures OwedCount(acts) + Measure(Exec(s, acts).value) <= Measure(s)
    decreases |acts|
  {
    if acts != [] {
      StepKeepsStateInv(s, acts[0]);
      StepDecreases(s, acts[0]);
      RunBounded(Step(s, acts[0]).value, acts[1..]);
    }
  }

  lemma CtxStaysOver(s: State, act: Act)
    requires CtxOver(s) && Step(s, act).Some?
    ensures CtxOver(Step(s, act).value)
  {
    hide RunnerProtocol.Step;
  }

  lemma {:induction false} ExecStaysOver(s: State, acts: seq<Act>)
    requires StateInv(s) && CtxOver(s) && Exec(s, acts).Some?
    ensures StateInv(Exec(s, acts).value) && CtxOver(Exec(s, acts).value)
    decreases |acts|
  {
    hide StateInv, CtxOver, Step;
    if acts != [] {
      StepKeepsStateInv(s, acts[0]);
      CtxStaysOver(s, acts[0]);
      ExecStaysOver(Step(s, acts[0]).value, acts[1..]);
    }
  }

  /** `Run` ends: after its context has ended at most `Measure(s)` owed acts can follow, whatever
      else happens in between, and where no owed act is enabled any more `Run` has returned. */
  lemma RunReturns(id: Id, dur: nat, acts: seq<Act>, more: seq<Act>)
    requires Exec(Init(id, dur), acts).Some?
    requires var s := Exec(Init(id, dur), acts).value; CtxOver(s) && Exec(s, more).Some?
    ensures var s := Exec(Init(id, dur), acts).value;
      && OwedCount(more) <= Measure(s)
      && ((forall act :: Owed(act) ==> Step(Exec(s, more).value, act).None?) ==> Exec(s, more).value.caller.Returned?)
  {
    InitIsInv(id, dur);
    ExecKeepsStateInv(Init(id, dur), acts);
    hide StateInv, Step, Owed, Exec, Measure;
    var s := Exec(Init(id, dur), acts).value;
    RunBounded(s, more);
    ExecStaysOver(s, more);
    var t := Exec(s, more).value;
    if !t.caller.Returned? {
      NextOwedIsEnabled(t);
    }
  }

  lemma InitIsInv(id: Id, dur: nat)
    ensures StateInv(Init(id, dur))
  {}

  /** A context that ends while `Run` waits, ends `Run`, even if the task never returns. */
  lemma ContextEndsRun(id: Id, dur: nat, acts: seq<Act>, more: seq<Act>)
    requires Exec(Init(id, dur), acts).Some? && Exec(Init(id, dur), acts).value.caller == Selecting
    ensures Step(Exec(Init(id, dur), acts).value, CtxDone).Some?
    ensures var t := Step(Exec(Init(id, dur), acts).value, CtxDone).value;
      Exec(t, more).Some? ==>
        && OwedCount(more) <= Measure(t)
        && ((forall act :: Owed(act) ==> Step(Exec(t, more).value, act).None?) ==> Exec(t, more).value.caller.Returned?)
  {
    InitIsInv(id, dur);
    ExecKeepsStateInv(Init(id, dur), acts);
    var s := Exec(Init(id, dur), acts).value;
    ContextIsSeen(s);
    hide StateInv, Step, Owed, Exec, Measure, CtxOver;
    StepKeepsStateInv(s, CtxDone);
    var t := Step(s, CtxDone).value;
    if Exec(t, more).Some? {
      RunBounded(t, more);
      ExecStaysOver(t, more);
      if forall act :: Owed(act) ==> Step(Exec(t, more).value, act).None? {
        LateReturn(Exec(t, more).value);
      }
    }
  }

  lemma ContextIsSeen(s: State)
    requires s.caller == Selecting
    ensures Step(s, CtxDone).Some? && CtxOver(Step(s, CtxDone).value)
  {}

  lemma LateReturn(t: State)
    requires StateInv(t) && CtxOver(t) && forall act :: Owed(act) ==> Step(t, act).None?
    ensures t.caller.Returned?
  {
    hide StateInv, Step, Owed;
    if !t.caller.Returned? {
      NextOwedIsEnabled(t);
    }
  }
}
