/**
  The runner engine: a resumable sequencer over the plan's steps. One call of `Run` is one run of
  the process; it may be cut short at every store update, execution and host call. `History`
  strings any number of such runs together.
 */
module Engine {
  import opened Common
  import opened Checkpoint
  import opened RunnerStore
  import opened Supervision

  datatype RunResult = RunResult(state: RunnerCheckpoint, succeeded: bool)

  /** How one pass of the engine's loop ends when nothing was thrown. */
  datatype Turn = Continue(state: RunnerCheckpoint) | Return(result: RunResult)

  datatype Pending = Complete | Exhausted | Next(attempt: int, index: int, begins: bool)

  function NextPendingStep(c: RunnerCheckpoint, stepCount: int, maxAttempts: int): Pending {
    match c.currentStep
    case None => if stepCount == 0 then Complete else Next(1, 0, true)
    case Some(s) =>
      if s.phase == Succeeded then
        if s.index + 1 == stepCount then Complete else Next(1, s.index + 1, true)
      else if s.phase == Started then
        if s.attempt > maxAttempts then Exhausted else Next(s.attempt, s.index, false)
      else if s.attempt >= maxAttempts then Exhausted else Next(s.attempt + 1, s.index, true)
  }

  function FindRecoveryConflict(c: RunnerCheckpoint, steps: seq<Step>): (d: Option<Diagnostic>)
    ensures d.Some? ==> DiagnosticOk(d.value)
  {
    if c.currentStep.Some? && !(0 <= c.currentStep.value.index < |steps| && steps[c.currentStep.value.index].id == c.currentStep.value.id)
    then Some(ProcessDiagnostic("manual-intervention-required", None, c.currentStep.value.id))
    else ConflictingProcess(c, steps, c.processes)
  }

  function ConflictingProcess(c: RunnerCheckpoint, steps: seq<Step>, ps: seq<Process>): (d: Option<Diagnostic>)
    ensures d.Some? ==> DiagnosticOk(d.value)
  {
    if ps == [] then None
    else if !(0 <= ps[0].stepIndex < |steps| && steps[ps[0].stepIndex].kind == FireAndForget
              && steps[ps[0].stepIndex].id == ps[0].stepId && c.currentStep.Some? && ps[0].stepIndex <= c.currentStep.value.index)
    then Some(ProcessDiagnostic("manual-intervention-required", None, ps[0].stepId))
    else ConflictingProcess(c, steps, ps[1..])
  }

  /** The attempts available to the first `n` steps. */
  function Budget(plan: Plan, n: int): nat
    decreases n
  {
    if n <= 0 then 0 else Budget(plan, n - 1) + plan.Limit(n - 1)
  }

  lemma {:induction false} BudgetGrows(plan: Plan, m: int, n: int)
    requires 0 <= m <= n
    ensures Budget(plan, m) <= Budget(plan, n)
    decreases n
  {
    if m < n { BudgetGrows(plan, m, n - 1); }
  }

  /** The attempts a checkpoint has used up for good. */
  function Rank(plan: Plan, c: RunnerCheckpoint): int {
    match c.currentStep
    case None => 0
    case Some(s) => Budget(plan, s.index) + match s.phase
      case Started => s.attempt - 1
      case Failed => s.attempt
      case Succeeded => plan.Limit(s.index)
  }

  lemma RankBounded(plan: Plan, c: RunnerCheckpoint)
    requires plan.Ok() && FollowsPlan(plan, c)
    ensures 0 <= Rank(plan, c) <= Budget(plan, |plan.steps|)
  {
    if c.currentStep.Some? { BudgetGrows(plan, c.currentStep.value.index + 1, |plan.steps|); }
  }

  class RunnerEngine {
    const store: Store
    const supervisor: Supervisor
    const canPrompt: bool
    const canProvide: bool
    const canInstall: bool
    /** The checkpoint the error handler sees. */
    var seen: Option<RunnerCheckpoint>

    constructor (store: Store, canPrompt: bool, canProvide: bool, canInstall: bool)
      ensures this.store == store && supervisor.store == store && fresh(supervisor)
      ensures supervisor.instances == map[] && seen == None
    {
      this.store := store;
      this.canPrompt, this.canProvide, this.canInstall := canPrompt, canProvide, canInstall;
      seen := None;
      supervisor := new Supervisor(store);
    }

    predicate Supports(k: Kind) {
      && (k == Prompt ==> canPrompt) && (k == Provider ==> canProvide) && (k == InstallSecret ==> canInstall)
    }

    /** Between two steps: the checkpoint is current and only completed steps have tracked processes. */
    ghost predicate Ready(c: RunnerCheckpoint)
      reads this, store, supervisor
    {
      && supervisor.store == store
      && supervisor.Sound(c) && supervisor.TracksBelow(DoneCount(c))
    }

    ghost predicate Base()
      reads this, store, supervisor
    {
      && supervisor.store == store && store.Inv() && supervisor.ResultsOk()
      && (seen.Some? ==> Valid(seen.value))
    }

    /** A step or secret update: the process records stay as they are. */
    method Commit(e: Event) returns (r: Result<RunnerCheckpoint, Fault>)
      requires supervisor.store == store && supervisor.Sound(store.state) && EventFits(store.plan, store.state, e)
      requires e.StepEvent? || e.SecretEvent?
      modifies store
      ensures store.Inv() && store.executed == old(store.executed) && store.spawned == old(store.spawned)
      ensures supervisor.Sound(store.state)
      ensures r.Ok? ==> r.value == store.state && Apply(old(store.state), e, store.clock) == Ok(store.state)
      ensures store.state == old(store.state) || Apply(old(store.state), e, store.clock) == Ok(store.state)
      ensures r == Err(Rejected) ==> store.state == old(store.state) && Apply(old(store.state), e, store.clock).Err?
    {
      r := store.Update(e);
      assert store.state.processes == old(store.state).processes && store.state.terminal.None?;
    }

    /** Stops every process, then records the failure. */
    method Fail(state: RunnerCheckpoint, d: Diagnostic) returns (r: Result<RunResult, Fault>)
      requires supervisor.store == store && supervisor.Sound(state) && DiagnosticOk(d) && supervisor.ResultsOk()
      modifies store, supervisor
      ensures store.Inv() && supervisor.ResultsOk() && store.executed == old(store.executed)
      ensures r.Ok? ==> Concludes(r.value) && !r.value.succeeded
      ensures r == Err(Rejected) ==> AtLimit(store.state)
    {
      var stopped :- supervisor.StopAll(state, true);
      var failure := if stopped.diagnostic.Some? then stopped.diagnostic.value else d;
      ghost var before := store.state;
      var marked := store.Update(MarkFailed(failure));
      FailureAcceptedExactly(before, failure, store.clock);
      if marked.Err? { return Err(marked.error); }
      return Ok(RunResult(marked.value, false));
    }

    /** Stops every process, then records the success. */
    method Succeed(state: RunnerCheckpoint) returns (r: Result<RunResult, Fault>)
      requires supervisor.store == store && supervisor.Sound(state) && supervisor.ResultsOk()
      requires DoneCount(state) == |store.plan.steps|
      requires state.currentStep.Some? ==> state.currentStep.value.phase == Succeeded
      modifies store, supervisor
      ensures store.Inv() && supervisor.ResultsOk() && store.executed == old(store.executed)
      ensures r.Ok? ==> Concludes(r.value)
      ensures r == Err(Rejected) ==> AtLimit(store.state)
    {
      var stopped :- supervisor.StopAll(state, true);
      if stopped.diagnostic.Some? {
        r := Fail(stopped.state, stopped.diagnostic.value);
        return;
      }
      ghost var before := store.state;
      var marked := store.Update(MarkSucceeded);
      SuccessAcceptedExactly(before, store.clock);
      if marked.Err? { return Err(marked.error); }
      return Ok(RunResult(marked.value, true));
    }

    /** The current step is `index`, started on its recorded attempt. */
    ghost predicate Underway(index: int)
      reads this, store, supervisor
    {
      && supervisor.store == store && supervisor.Sound(store.state) && supervisor.ResultsOk()
      && store.state.currentStep.Some? && store.state.currentStep.value.index == index
      && store.state.currentStep.value.phase == Started
    }

    /** The result is the terminal checkpoint, and success means every step has succeeded. */
    ghost predicate Concludes(result: RunResult)
      reads this, store
    {
      && store.state.terminal.Some? && result.state == store.state
      && (result.succeeded <==> store.state.terminal.value.TerminalSuccess?)
      && (result.succeeded ==> DoneCount(store.state) == |store.plan.steps|)
    }

    /** What a pass that used up one more attempt establishes. */
    twostate predicate Used(t: Turn)
      reads this, store, supervisor
    {
      match t
      case Continue(c) => Ready(c) && Rank(store.plan, c) > Rank(store.plan, old(store.state))
      case Return(result) => Concludes(result)
    }

    /** Records a failed attempt and, if it was the last one, the failure of the run. */
    method RecordFailure(index: int, status: ExitStatus, code: string, retryRecovery: string) returns (r: Result<Turn, Fault>)
      requires Underway(index) && supervisor.TracksBelow(index) && ExitOk(status)
      requires NoActiveProcess(store.state, store.plan.steps[index].id)
      modifies store, supervisor
      ensures store.Inv() && supervisor.ResultsOk() && store.executed == old(store.executed)
      ensures r.Ok? ==> Used(r.value)
      ensures r == Err(Rejected) ==> AtLimit(store.state)
    {
      hide LogFits, SpawnsFit, ProcessIndex;
      var failed := store.state.currentStep.value.(phase := Failed);
      StepAcceptedExactly(store.state, failed, store.clock);
      ghost var before := store.state;
      var marked := Commit(StepEvent(failed));
      StepAcceptedExactly(before, failed, store.clock);
      if marked.Err? { return Err(marked.error); }
      var finalAttempt := failed.attempt >= store.plan.Limit(index);
      var d := Diagnostic(code, if finalAttempt then "manual-intervention" else retryRecovery,
                          Some(failed.attempt), Some(status), Some(failed.id));
      if !finalAttempt { return Ok(Continue(marked.value)); }
      var result :- Fail(marked.value, d);
      return Ok(Return(result));
    }

    /** Records the success of the current step. */
    method SucceedStep(index: int) returns (r: Result<Turn, Fault>)
      requires Underway(index) && supervisor.TracksBelow(index + 1) && !SecretOpen(store.state)
      modifies store
      ensures store.Inv() && supervisor.ResultsOk() && store.executed == old(store.executed)
      ensures r.Ok? ==> r.value.Continue? && Used(r.value)
      ensures r == Err(Rejected) ==> AtLimit(store.state)
    {
      hide LogFits, SpawnsFit, ProcessIndex;
      var succeeded := store.state.currentStep.value.(phase := Succeeded);
      ghost var before := store.state;
      var marked := Commit(StepEvent(succeeded));
      StepAcceptedExactly(before, succeeded, store.clock);
      if marked.Err? { return Err(marked.error); }
      return Ok(Continue(marked.value));
    }

    /** Checkpoints the start of a new attempt. No earlier execution carries this attempt number. */
    method StartStep(state: RunnerCheckpoint, attempt: int, index: int) returns (r: Result<RunnerCheckpoint, Fault>)
      requires Ready(state) && supervisor.ResultsOk()
      requires NextPendingStep(state, |store.plan.steps|, store.plan.Limit(if state.currentStep.Some? then state.currentStep.value.index else 0)) == Next(attempt, index, true)
      modifies store
      ensures store.Inv() && supervisor.ResultsOk() && store.executed == old(store.executed)
      ensures r.Ok? ==> r.value == store.state && Underway(index) && supervisor.TracksBelow(index)
      ensures r.Ok? ==> store.state.currentStep.value.attempt == attempt
      ensures r.Ok? ==> NoActiveProcess(store.state, store.plan.steps[index].id)
      ensures r.Ok? ==> Rank(store.plan, store.state) == Rank(store.plan, old(store.state))
      ensures r.Ok? ==> forall e | e in store.executed && e.index == index :: e.attempt < attempt
      ensures r == Err(Rejected) ==> AtLimit(store.state)
    {
      var step := StepCheckpoint(attempt, store.plan.steps[index].id, index, Started);
      ghost var before := store.state;
      FindsMember(before.processes, step.id);
      r := Commit(StepEvent(step));
      StepAcceptedExactly(before, step, store.clock);
    }

    /** Enters the step's executor: it succeeds, fails, or is cut short. */
    method Execute(index: int) returns (r: Result<bool, Fault>)
      requires Underway(index)
      requires store.plan.RunsOnce(index) ==>
        forall e | e in store.executed && e.index == index :: e.attempt < store.state.currentStep.value.attempt
      modifies store`executed
      ensures Underway(index)
      ensures r.Err? ==> r.error == Crashed || r.error == Interrupted
    {
      store.LogExecution(index, store.state.currentStep.value.attempt);
      var finished: bool := *;
      if !finished { return Err(Crashed); }
      r := supervisor.Ask();
    }

    /**
      Runs the secret-install transaction from its recorded phase. `refused` would say that a
      guard turned one of its phase updates down.
     */
    method InstallUserSecret(index: int) returns (r: Result<bool, Fault>, ghost refused: bool)
      requires Underway(index) && store.plan.steps[index].kind == InstallSecret
      modifies store
      ensures store.Inv() && Underway(index) && store.state.currentStep == old(store.state).currentStep
      ensures r.Err? ==> r.error == Crashed
      ensures r == Ok(true) ==> !SecretOpen(store.state)
      ensures refused ==> AtLimit(store.state)
    {
      hide LogFits, SpawnsFit, ProcessIndex;
      refused := false;
      var step := store.plan.steps[index];
      store.LogExecution(index, store.state.currentStep.value.attempt);
      var phases := [Prepared, Installed, SourceRemoved, Committed];
      var next := if store.state.secret.None? then 0 else PhaseIndex(store.state.secret.value.phase) + 1;
      while next < 4
        invariant 0 <= next <= 4 && store.Inv() && Underway(index)
        invariant store.state.currentStep == old(store.state).currentStep
        invariant next == if store.state.secret.None? then 0 else PhaseIndex(store.state.secret.value.phase) + 1
      {
        var moved := supervisor.Ask();
        if moved == Err(Crashed) { return Err(Crashed), refused; }
        if moved.Err? || !moved.value { return Ok(false), refused; }
        var target := SecretTransaction(step.destination, phases[next], step.secretId, step.id);
        ghost var before := store.state;
        var marked := Commit(SecretEvent(target));
        SecretAcceptedExactly(before, target, store.clock);
        if marked.Err? {
          refused := marked.error == Rejected;
          return if marked.error == Crashed then Err(Crashed) else Ok(false), refused;
        }
        next := next + 1;
      }
      var verified := supervisor.Ask();
      if verified == Err(Crashed) { return Err(Crashed), refused; }
      return Ok(verified == Ok(true)), refused;
    }

    /** Runs an automatic or provider attempt that has just been checkpointed as started. */
    method RunAttempt(index: int) returns (r: Result<Turn, Fault>)
      requires Underway(index) && supervisor.TracksBelow(index) && store.plan.RunsOnce(index)
      requires forall e | e in store.executed && e.index == index :: e.attempt < store.state.currentStep.value.attempt
      modifies store, supervisor
      ensures store.Inv() && supervisor.ResultsOk()
      ensures r.Ok? ==> Used(r.value)
      ensures r == Err(Rejected) ==> AtLimit(store.state)
    {
      FindsMember(store.state.processes, store.plan.steps[index].id);
      var succeeded :- Execute(index);
      if succeeded {
        KeysGrow(store.plan, supervisor.instances.Keys, supervisor.instances.Keys, index);
        r := SucceedStep(index);
      } else {
        var status := supervisor.AnyStatus();
        r := RecordFailure(index, status, if store.plan.steps[index].kind == Provider then "provider-execution-failed"
                                          else "step-attempt-failed", "retry-step");
      }
    }

    /** Runs a prompt step: hydration, then removal of the rendered prompt. */
    method RunPrompt(index: int) returns (r: Result<Turn, Fault>)
      requires Underway(index) && supervisor.TracksBelow(index) && store.plan.steps[index].kind == Prompt
      modifies store, supervisor
      ensures store.Inv() && supervisor.ResultsOk()
      ensures r.Ok? ==> Used(r.value)
      ensures r == Err(Rejected) ==> AtLimit(store.state)
    {
      FindsMember(store.state.processes, store.plan.steps[index].id);
      var hydrated := Execute(index);
      if hydrated == Err(Crashed) { return Err(Crashed); }
      if hydrated != Ok(true) {
        r := RecordFailure(index, FAILED_RESULT, "prompt-hydration-failed", "retry-step");
        return;
      }
      var removed := supervisor.Ask();
      if removed == Err(Crashed) { return Err(Crashed); }
      if removed != Ok(true) {
        r := RecordFailure(index, FAILED_RESULT, "prompt-cleanup-failed", "retry-step");
        return;
      }
      KeysGrow(store.plan, supervisor.instances.Keys, supervisor.instances.Keys, index);
      r := SucceedStep(index);
    }

    /** Runs a manual gate: its failure is final. */
    method RunManual(index: int) returns (r: Result<Turn, Fault>)
      requires Underway(index) && supervisor.TracksBelow(index) && store.plan.steps[index].kind == Manual
      modifies store, supervisor
      ensures store.Inv() && supervisor.ResultsOk()
      ensures r.Ok? ==> Used(r.value)
      ensures r == Err(Rejected) ==> AtLimit(store.state)
    {
      FindsMember(store.state.processes, store.plan.steps[index].id);
      var succeeded :- Execute(index);
      if succeeded {
        KeysGrow(store.plan, supervisor.instances.Keys, supervisor.instances.Keys, index);
        r := SucceedStep(index);
        return;
      }
      var failed := store.state.currentStep.value.(phase := Failed);
      ghost var before := store.state;
      var marked := Commit(StepEvent(failed));
      StepAcceptedExactly(before, failed, store.clock);
      if marked.Err? { return Err(marked.error); }
      var status := supervisor.AnyStatus();
      var result :- Fail(marked.value, Diagnostic("manual-gate-incomplete", "manual-intervention", Some(failed.attempt), Some(status), Some(failed.id)));
      return Ok(Return(result));
    }

    method RunSecret(index: int) returns (r: Result<Turn, Fault>)
      requires Underway(index) && supervisor.TracksBelow(index) && store.plan.steps[index].kind == InstallSecret
      modifies store, supervisor
      ensures store.Inv() && supervisor.ResultsOk()
      ensures r.Ok? ==> Used(r.value)
      ensures r == Err(Rejected) ==> AtLimit(store.state)
    {
      var installed, _ := InstallUserSecret(index);
      if installed.Err? { return Err(installed.error); }
      FindsMember(store.state.processes, store.plan.steps[index].id);
      if !installed.value {
        r := RecordFailure(index, FAILED_RESULT, "secret-transaction-failed", "resume-secret-transaction");
        return;
      }
      KeysGrow(store.plan, supervisor.instances.Keys, supervisor.instances.Keys, index);
      r := SucceedStep(index);
    }

    /** Launches the process of a fire-and-forget step that has just been checkpointed as started. */
    method RunLaunch(index: int) returns (r: Result<Turn, Fault>)
      requires Underway(index) && supervisor.TracksBelow(index) && store.plan.steps[index].kind == FireAndForget
      requires NoActiveProcess(store.state, store.plan.steps[index].id)
      modifies store, supervisor
      ensures store.Inv() && supervisor.ResultsOk()
      ensures r.Ok? ==> Used(r.value)
      ensures r == Err(Rejected) ==> AtLimit(store.state)
    {
      ghost var keys := supervisor.instances.Keys;
      var launched :- supervisor.Launch(store.state, index);
      KeysGrow(store.plan, keys, supervisor.instances.Keys, index);
      var canceled: bool := *;
      if canceled { return Err(Interrupted); }
      r := Settle(index, launched);
    }

    /** A started fire-and-forget step of an earlier run. */
    method ResumeStartedFireAndForget(index: int) returns (r: Result<Turn, Fault>)
      requires Underway(index) && supervisor.TracksBelow(index) && store.plan.steps[index].kind == FireAndForget
      modifies store, supervisor
      ensures store.Inv() && supervisor.ResultsOk()
      ensures r.Ok? ==> Used(r.value)
      ensures r == Err(Rejected) ==> AtLimit(store.state)
    {
      var resumed :- supervisor.ResumeStarted(store.state, index);
      r := Settle(index, resumed);
    }

    /** Turns the supervisor's answer for the current step into its checkpoint. */
    method Settle(index: int, answer: Supervised) returns (r: Result<Turn, Fault>)
      requires Underway(index) && supervisor.TracksBelow(index + 1) && store.plan.steps[index].kind == FireAndForget
      requires !answer.status.LaunchAccepted? ==> NoActiveProcess(store.state, store.plan.steps[index].id)
      requires answer.status.LaunchFailed? ==> DiagnosticOk(answer.status.diagnostic)
      modifies store, supervisor
      ensures store.Inv() && supervisor.ResultsOk()
      ensures r.Ok? ==> Used(r.value)
      ensures r == Err(Rejected) ==> AtLimit(store.state)
    {
      match answer.status {
        case LaunchAccepted => r := SucceedStep(index);
        case LaunchFailed(d) =>
          r := RecordFailure(index, if d.status.Some? then d.status.value else FAILED_RESULT, d.code, "retry-step");
        case ProcessMissing =>
          r := RecordFailure(index, FAILED_RESULT, "fire-and-forget-launch-failed", "retry-step");
      }
    }

    /** Runs the current step, whose start is on record; `begins` says this run recorded it. */
    method Perform(index: int, begins: bool) returns (r: Result<Turn, Fault>)
      requires Underway(index) && supervisor.TracksBelow(index)
      requires begins ==> forall e | e in store.executed && e.index == index :: e.attempt < store.state.currentStep.value.attempt
      requires begins ==> NoActiveProcess(store.state, store.plan.steps[index].id)
      requires !begins ==> !store.plan.RunsOnce(index) && store.plan.steps[index].kind != FireAndForget
      modifies store, supervisor
      ensures store.Inv() && supervisor.ResultsOk()
      ensures r.Ok? ==> Used(r.value)
      ensures r == Err(Rejected) ==> AtLimit(store.state)
    {
      match store.plan.steps[index].kind {
        case Environment =>
          KeysGrow(store.plan, supervisor.instances.Keys, supervisor.instances.Keys, index);
          r := SucceedStep(index);
        case Prompt => r := RunPrompt(index);
        case Manual => r := RunManual(index);
        case InstallSecret => r := RunSecret(index);
        case Automatic => r := RunAttempt(index);
        case Provider => r := RunAttempt(index);
        case FireAndForget => r := RunLaunch(index);
      }
    }

    /** One pass of the engine's loop. */
    method Iterate(state: RunnerCheckpoint) returns (r: Result<Turn, Fault>)
      requires Ready(state) && Base()
      modifies this`seen, store, supervisor
      ensures Base()
      ensures r.Ok? ==> Used(r.value)
      ensures r == Err(Rejected) ==> AtLimit(store.state)
    {
      hide LogFits, SpawnsFit, ProcessIndex;
      var canceled: bool := *;
      if canceled { return Err(Interrupted); }
      var health :- supervisor.CheckHealth(state);
      seen := Some(health.state);
      if health.diagnostic.Some? {
        var result :- Fail(health.state, health.diagnostic.value);
        return Ok(Return(result));
      }
      var current := health.state.currentStep;
      var pending := NextPendingStep(health.state, |store.plan.steps|, store.plan.Limit(if current.Some? then current.value.index else 0));
      match pending {
        case Complete =>
          var result :- Succeed(health.state);
          return Ok(Return(result));
        case Exhausted =>
          var result :- Fail(health.state, Diagnostic("step-attempt-failed", "manual-intervention",
                                                      Some(current.value.attempt), Some(FAILED_RESULT), Some(current.value.id)));
          return Ok(Return(result));
        case Next(attempt, index, begins) =>
          if begins {
            var begun :- StartStep(health.state, attempt, index);
            seen := Some(begun);
            r := Perform(index, true);
          } else {
            r := Continued(index);
          }
          return;
      }
    }

    /** A step found started: an attempt that ran is not repeated, anything else is taken up again. */
    method Continued(index: int) returns (r: Result<Turn, Fault>)
      requires Underway(index) && supervisor.TracksBelow(index)
      modifies store, supervisor
      ensures store.Inv() && supervisor.ResultsOk()
      ensures r.Ok? ==> Used(r.value)
      ensures r == Err(Rejected) ==> AtLimit(store.state)
    {
      if store.plan.RunsOnce(index) {
        FindsMember(store.state.processes, store.plan.steps[index].id);
        r := RecordFailure(index, FAILED_RESULT,
                           if store.plan.steps[index].kind == Provider then "provider-execution-failed" else "step-attempt-failed",
                           "retry-step");
      } else if store.plan.steps[index].kind == FireAndForget {
        r := ResumeStartedFireAndForget(index);
      } else {
        r := Perform(index, false);
      }
    }

    /** The first step this runner has no executor for. */
    method FindUnsupportedStep() returns (id: Option<string>)
      ensures id.None? <==> forall i | 0 <= i < |store.plan.steps| :: Supports(store.plan.steps[i].kind)
    {
      for i := 0 to |store.plan.steps|
        invariant forall k | 0 <= k < i :: Supports(store.plan.steps[k].kind)
      {
        if !Supports(store.plan.steps[i].kind) { return Some(store.plan.steps[i].id); }
      }
      return None;
    }

    /** Everything before the engine's loop: a result if the run already ends there. */
    method Prepare() returns (r: Result<Turn, Fault>)
      requires Base() && supervisor.instances == map[] && seen == None
      modifies this`seen, store, supervisor
      ensures Base()
      ensures store.executed == old(store.executed)
      ensures r.Ok? && r.value.Continue? ==> Ready(r.value.state)
      ensures r.Ok? && r.value.Return? ==> Concludes(r.value.result)
      ensures old(store.state).terminal.Some? ==> store.state == old(store.state) && (seen.Some? ==> seen.value.terminal.Some?)
      ensures r == Err(Rejected) ==> AtLimit(store.state)
    {
      var reached :- supervisor.Ask();
      var state := store.state;
      seen := Some(state);
      if state.terminal.Some? { return Ok(Return(RunResult(state, state.terminal.value.TerminalSuccess?))); }
      var conflict := FindRecoveryConflict(state, store.plan.steps);
      if conflict.Some? {
        var result :- Fail(state, conflict.value);
        return Ok(Return(result));
      }
      var unsupported := FindUnsupportedStep();
      if unsupported.Some? {
        var result :- Fail(state, ProcessDiagnostic("manual-intervention-required", None, unsupported.value));
        return Ok(Return(result));
      }
      var reconciled :- supervisor.ReconcileCompleted(state);
      seen := Some(reconciled.state);
      if reconciled.diagnostic.Some? {
        var result :- Fail(reconciled.state, reconciled.diagnostic.value);
        return Ok(Return(result));
      }
      return Ok(Continue(reconciled.state));
    }

    /**
      The body of a run up to the first error. It makes at most one pass per attempt the plan
      allows, plus one, and none of its updates is refused short of the schema's numeric limits.
     */
    method RunToEnd() returns (r: Result<RunResult, Fault>, passes: nat)
      requires Base() && supervisor.instances == map[] && seen == None
      modifies this`seen, store, supervisor
      ensures Base()
      ensures r.Ok? ==> Concludes(r.value)
      ensures old(store.state).terminal.Some? ==> store.state == old(store.state) && (seen.Some? ==> seen.value.terminal.Some?)
      ensures r == Err(Rejected) ==> AtLimit(store.state)
      ensures passes <= Budget(store.plan, |store.plan.steps|) + 1
    {
      passes := 0;
      var prepared := Prepare();
      if prepared.Err? { return Err(prepared.error), passes; }
      if prepared.value.Return? { return Ok(prepared.value.result), passes; }
      var state := prepared.value.state;
      RankBounded(store.plan, state);
      while true
        invariant Base() && Ready(state)
        invariant passes <= Rank(store.plan, state) <= Budget(store.plan, |store.plan.steps|)
        invariant old(store.state).terminal.None?
        decreases Budget(store.plan, |store.plan.steps|) - Rank(store.plan, state)
      {
        var turn := Iterate(state);
        passes := passes + 1;
        if turn.Err? { return Err(turn.error), passes; }
        if turn.value.Return? { return Ok(turn.value.result), passes; }
        state := turn.value.state;
        RankBounded(store.plan, state);
      }
    }

    /** A run: an error other than a stop first stops every process the handler knows of. */
    method Run() returns (r: Result<RunResult, Fault>)
      requires Base() && supervisor.instances == map[] && seen == None
      modifies this`seen, store, supervisor
      ensures store.Inv()
      ensures r.Ok? ==> Concludes(r.value)
      ensures old(store.state).terminal.Some? ==> store.state == old(store.state)
    {
      var outcome, passes := RunToEnd();
      r := outcome;
      if r.Err? && r.error != Crashed && seen.Some? && seen.value.terminal.None? {
        var stopped := supervisor.StopAll(seen.value, false);
        if stopped.Err? { r := Err(stopped.error); }
      }
    }
  }

  /** Any number of runs of the same plan, each with its own engine and each cut anywhere. */
  method History(plan: Plan, runs: nat) returns (store: Store)
    requires plan.Ok()
    ensures store.Inv() && store.plan == plan
    ensures forall i | plan.RunsOnce(i) :: |Attempts(store.executed, i)| <= plan.automaticMax
    ensures forall e | e in store.executed :: e.index !in e.succeeded && Preceded(e.index, e.succeeded)
    ensures forall s | s in store.spawned :: Preceded(s.index, s.succeeded) && (s.prior.None? || s.prior.value.phase == Finished)
  {
    store := new Store(plan);
    for i := 0 to runs
      invariant store.Inv() && store.plan == plan && fresh(store)
    {
      var canPrompt, canProvide, canInstall: bool := *, *, *;
      var engine := new RunnerEngine(store, canPrompt, canProvide, canInstall);
      var r := engine.Run();
    }
    forall i | plan.RunsOnce(i) ensures |Attempts(store.executed, i)| <= plan.automaticMax {
      RetriesAreBounded(plan, store.state, store.executed, store.succeeded, i);
    }
    forall k | 0 <= k < |store.executed|
      ensures store.executed[k].index !in store.executed[k].succeeded && Preceded(store.executed[k].index, store.executed[k].succeeded)
    {
      ExecutionsAreInOrder(plan, store.state, store.executed, store.succeeded, k);
    }
    forall k | 0 <= k < |store.spawned|
      ensures Preceded(store.spawned[k].index, store.spawned[k].succeeded)
      ensures store.spawned[k].prior.None? || store.spawned[k].prior.value.phase == Finished
    {
      LaunchesAreInOrder(plan, store.spawned, k);
    }
  }

  // ---- What the store's invariant says about a history ----

  function Attempts(executed: seq<Execution>, i: int): (s: seq<int>)
    ensures |s| <= |executed|
  {
    if executed == [] then []
    else
      var last := executed[|executed| - 1];
      Attempts(executed[..|executed| - 1], i) + if last.index == i then [last.attempt] else []
  }

  /** Strictly increasing attempts between 1 and `top` are at most `top` in number. */
  lemma {:induction false} AttemptsCount(executed: seq<Execution>, i: int, top: int)
    requires top >= 0
    requires forall k | 0 <= k < |executed| && executed[k].index == i :: 1 <= executed[k].attempt <= top
    requires forall j, k | 0 <= j < k < |executed| && executed[j].index == executed[k].index == i :: executed[j].attempt < executed[k].attempt
    ensures |Attempts(executed, i)| <= top
    decreases |executed|
  {
    if executed != [] {
      var rest, last := executed[..|executed| - 1], executed[|executed| - 1];
      AttemptsCount(rest, i, if last.index == i then last.attempt - 1 else top);
    }
  }

  /** Over any history an automatic or provider step is executed at most as often as its policy allows. */
  lemma RetriesAreBounded(plan: Plan, c: RunnerCheckpoint, executed: seq<Execution>, succeeded: set<int>, i: int)
    requires LogFits(plan, c, executed, succeeded) && plan.RunsOnce(i)
    ensures |Attempts(executed, i)| <= plan.Limit(i) == plan.automaticMax
  {
    forall k | 0 <= k < |executed| && executed[k].index == i ensures 1 <= executed[k].attempt <= plan.Limit(i) {
      assert executed[k] in executed;
    }
    AttemptsCount(executed, i, plan.Limit(i));
  }

  /** No step is executed before every earlier one has succeeded, nor after its own success is on record. */
  lemma ExecutionsAreInOrder(plan: Plan, c: RunnerCheckpoint, executed: seq<Execution>, succeeded: set<int>, k: nat)
    requires LogFits(plan, c, executed, succeeded) && k < |executed|
    ensures executed[k].index !in executed[k].succeeded && Preceded(executed[k].index, executed[k].succeeded)
  {
    assert executed[k] in executed;
  }

  /** No process is launched for a step before every earlier one has succeeded, nor beside an unfinished one. */
  lemma LaunchesAreInOrder(plan: Plan, spawned: seq<Spawn>, k: nat)
    requires SpawnsFit(plan, spawned) && k < |spawned|
    ensures Preceded(spawned[k].index, spawned[k].succeeded)
    ensures spawned[k].prior.None? || spawned[k].prior.value.phase == Finished
    ensures 0 <= spawned[k].index < |plan.steps| && plan.steps[spawned[k].index].id == spawned[k].stepId
    ensures plan.steps[spawned[k].index].kind == FireAndForget
  {
    assert spawned[k] in spawned;
  }
}
