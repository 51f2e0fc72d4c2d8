/**
  The checkpoint store as the runner sees it: an update either takes effect, is rejected, or is
  cut short with the old or the new checkpoint in place. Ghost state records what the runner has
  done so far, over all its runs.
 */
module RunnerStore {
  import opened Common
  import opened Checkpoint

  datatype Kind = Environment | Automatic | Manual | Prompt | Provider | InstallSecret | FireAndForget

  datatype Step = Step(id: string, kind: Kind, secretId: string, destination: string)

  datatype Plan = Plan(identity: string, steps: seq<Step>, automaticMax: nat, launchMax: nat) {
    /** What the plan parser and the policy checks guarantee. */
    ghost predicate Ok() {
      && 1 <= automaticMax <= 100 && 1 <= launchMax <= 100 && |steps| <= MAX_COUNT
      && forall i, j | 0 <= i < j < |steps| :: steps[i].id != steps[j].id
    }

    /** `maxAttemptsForStep`. */
    function Limit(i: int): nat {
      if 0 <= i < |steps| && steps[i].kind == FireAndForget then launchMax else automaticMax
    }

    predicate RunsOnce(i: int) { 0 <= i < |steps| && (steps[i].kind == Automatic || steps[i].kind == Provider) }
  }

  /** Why a call did not return. */
  datatype Fault =
    | Crashed          // the machine or the runner stopped: no handler runs
    | StorageFailed    // the update threw; the new checkpoint may or may not be in place
    | Rejected         // a transition guard or the schema refused the update
    | Interrupted      // cancellation, or a host call threw

  /** One execution of a step, with the steps whose success was on record at that moment. */
  datatype Execution = Execution(index: int, attempt: int, succeeded: set<int>)

  /**
    One spawn of a fire-and-forget process, with the step's process record and the steps whose
    success was on record at that moment.
   */
  datatype Spawn = Spawn(stepId: string, index: int, prior: Option<Process>, succeeded: set<int>)

  predicate NoActiveProcess(c: RunnerCheckpoint, stepId: string) {
    var p := FindProcess(c.processes, stepId);
    p.None? || p.value.phase == Finished
  }

  /** How the checkpoint relates to the plan it belongs to. */
  ghost predicate FollowsPlan(plan: Plan, c: RunnerCheckpoint) {
    && (c.currentStep.Some? ==>
          var s := c.currentStep.value;
          && 0 <= s.index < |plan.steps| && s.id == plan.steps[s.index].id && 1 <= s.attempt <= plan.Limit(s.index)
          && (s.phase == Failed ==> NoActiveProcess(c, s.id)))
    && (forall p | p in c.processes ::
          && 0 <= p.stepIndex < |plan.steps| && plan.steps[p.stepIndex].id == p.stepId
          && plan.steps[p.stepIndex].kind == FireAndForget
          && c.currentStep.Some? && p.stepIndex <= c.currentStep.value.index)
    && (c.secret.Some? ==>
          && c.currentStep.Some? && plan.steps[c.currentStep.value.index].kind == InstallSecret
          && c.secret.value.secretId == plan.steps[c.currentStep.value.index].secretId
          && c.secret.value.destination == plan.steps[c.currentStep.value.index].destination)
    && (c.terminal.Some? && c.terminal.value.TerminalSuccess? ==> DoneCount(c) == |plan.steps|)
  }

  /** The number of steps whose success is on record. */
  function DoneCount(c: RunnerCheckpoint): int {
    match c.currentStep
    case None => 0
    case Some(s) => if s.phase == Succeeded then s.index + 1 else s.index
  }

  /** Exactly the first `n` steps. */
  ghost predicate IsFirst(s: set<int>, n: int) { forall i :: i in s <==> 0 <= i < n }

  ghost predicate LogFits(plan: Plan, c: RunnerCheckpoint, executed: seq<Execution>, succeeded: set<int>) {
    && IsFirst(succeeded, DoneCount(c))
    && (forall e | e in executed ::
          && c.currentStep.Some? && 0 <= e.index <= c.currentStep.value.index
          && 1 <= e.attempt <= plan.Limit(e.index)
          && (e.index == c.currentStep.value.index ==> e.attempt <= c.currentStep.value.attempt)
          && IsFirst(e.succeeded, e.index))
    && (forall j, k | 0 <= j < k < |executed| && executed[j].index == executed[k].index && plan.RunsOnce(executed[j].index) ::
          executed[j].attempt < executed[k].attempt)
  }

  /** All earlier steps have succeeded on record. */
  ghost predicate Preceded(index: int, succeeded: set<int>) { forall j | 0 <= j < index :: j in succeeded }

  /** Every spawn was of a fire-and-forget step without an unfinished process, all earlier steps done. */
  ghost predicate SpawnsFit(plan: Plan, spawned: seq<Spawn>) {
    forall s | s in spawned ::
      && 0 <= s.index < |plan.steps| && plan.steps[s.index].id == s.stepId && plan.steps[s.index].kind == FireAndForget
      && (s.prior.None? || s.prior.value.phase == Finished)
      && Preceded(s.index, s.succeeded)
  }

  /** An update that keeps the checkpoint in step with the plan. */
  ghost predicate EventFits(plan: Plan, c: RunnerCheckpoint, e: Event) {
    match e
    case StepEvent(s) =>
      && 0 <= s.index < |plan.steps| && s.id == plan.steps[s.index].id && 1 <= s.attempt <= plan.Limit(s.index)
      && (s.phase == Failed ==> NoActiveProcess(c, s.id))
    case ProcessUpdate(Register(_, _, stepId, i)) =>
      && 0 <= i < |plan.steps| && plan.steps[i].id == stepId && plan.steps[i].kind == FireAndForget
      && c.currentStep.Some? && i <= c.currentStep.value.index
      && (c.currentStep.value.phase == Failed ==> i < c.currentStep.value.index)
    case SecretEvent(t) =>
      && c.currentStep.Some? && 0 <= c.currentStep.value.index < |plan.steps|
      && plan.steps[c.currentStep.value.index].kind == InstallSecret
      && t.secretId == plan.steps[c.currentStep.value.index].secretId
      && t.destination == plan.steps[c.currentStep.value.index].destination
    case MarkSucceeded => DoneCount(c) == |plan.steps|
    case _ => true
  }

  lemma ProcessEventKeepsPlan(plan: Plan, c: RunnerCheckpoint, e: ProcessEvent, now: Time)
    requires plan.Ok() && Valid(c) && FollowsPlan(plan, c) && EventFits(plan, c, ProcessUpdate(e))
    requires TransitionProcess(c, e, now).Ok?
    ensures FollowsPlan(plan, TransitionProcess(c, e, now).value)
  {
    var d := TransitionProcess(c, e, now).value;
    if d != c {
      var current := FindProcess(c.processes, e.stepId);
      ProcessEffect(c, e, now, e.stepId);
      var next := NextRecord(current, e, now);
      if current.Some? { assert current.value in c.processes; }
      StoreMembers(c.processes, next);
      if d.currentStep.Some? { StoreFind(c.processes, next, d.currentStep.value.id); }
    }
  }

  lemma EventKeepsPlan(plan: Plan, c: RunnerCheckpoint, e: Event, now: Time)
    requires plan.Ok() && Valid(c) && FollowsPlan(plan, c) && EventFits(plan, c, e) && Apply(c, e, now).Ok?
    ensures Valid(Apply(c, e, now).value) && FollowsPlan(plan, Apply(c, e, now).value)
  {
    if e.ProcessUpdate? { ProcessEventKeepsPlan(plan, c, e.process, now); }
  }

  /** Success of a step is recorded the moment its checkpoint says so. */
  function Recorded(succeeded: set<int>, c: RunnerCheckpoint): set<int> {
    if c.currentStep.Some? && c.currentStep.value.phase == Succeeded then succeeded + {c.currentStep.value.index} else succeeded
  }

  /** The log stays in order when the step sequence makes one of its moves. */
  lemma MoveKeepsLog(plan: Plan, c: RunnerCheckpoint, d: RunnerCheckpoint, t: StepCheckpoint, executed: seq<Execution>, succeeded: set<int>)
    requires StepMove(c, t) && d.currentStep == Some(t) && StepOk(t)
    requires LogFits(plan, c, executed, succeeded)
    ensures LogFits(plan, d, executed, Recorded(succeeded, d))
  {}

  /** An update that leaves the step where it is records no new success. */
  lemma StayKeepsLog(plan: Plan, c: RunnerCheckpoint, d: RunnerCheckpoint, executed: seq<Execution>, succeeded: set<int>)
    requires LogFits(plan, c, executed, succeeded) && d.currentStep == c.currentStep
    requires c.currentStep.Some? ==> 0 <= c.currentStep.value.index
    ensures LogFits(plan, d, executed, Recorded(succeeded, d))
  {
    assert Recorded(succeeded, d) == succeeded;
  }

  lemma EventKeepsLog(plan: Plan, c: RunnerCheckpoint, e: Event, now: Time, executed: seq<Execution>, succeeded: set<int>)
    requires plan.Ok() && Valid(c) && FollowsPlan(plan, c) && EventFits(plan, c, e) && Apply(c, e, now).Ok?
    requires LogFits(plan, c, executed, succeeded)
    ensures LogFits(plan, Apply(c, e, now).value, executed, Recorded(succeeded, Apply(c, e, now).value))
  {
    hide LogFits, DistinctProcesses, ProcessOk;
    var d := Apply(c, e, now).value;
    if e.StepEvent? && d != c {
      StepAcceptedExactly(c, e.step, now);
      MoveKeepsLog(plan, c, d, e.step, executed, succeeded);
    } else {
      StayKeepsLog(plan, c, d, executed, succeeded);
    }
  }

  class Store {
    const plan: Plan
    var state: RunnerCheckpoint
    var clock: Time
    ghost var executed: seq<Execution>
    ghost var spawned: seq<Spawn>
    ghost var succeeded: set<int>

    ghost predicate Inv()
      reads this
    {
      && plan.Ok() && Valid(state) && FollowsPlan(plan, state)
      && LogFits(plan, state, executed, succeeded) && SpawnsFit(plan, spawned)
    }

    constructor (plan: Plan)
      requires plan.Ok()
      ensures Inv() && this.plan == plan && executed == [] && spawned == [] && succeeded == {}
      ensures exists now :: state == Initial(plan.identity, now)
    {
      this.plan := plan;
      state, clock := Initial(plan.identity, 0), 0;
      executed, spawned, succeeded := [], [], {};
    }

    ghost predicate LogsUnchanged(executed: seq<Execution>, spawned: seq<Spawn>)
      reads this
    {
      this.executed == executed && this.spawned == spawned
    }

    /** The store's read-modify-write of one transition. */
    method Update(e: Event) returns (r: Result<RunnerCheckpoint, Fault>)
      requires Inv() && EventFits(plan, state, e)
      modifies this
      ensures Inv() && LogsUnchanged(old(executed), old(spawned))
      ensures state == old(state) || Apply(old(state), e, clock) == Ok(state)
      ensures r.Ok? ==> Apply(old(state), e, clock) == Ok(state) && r.value == state
      ensures r == Err(Rejected) <==> Apply(old(state), e, clock).Err?
      ensures r.Err? ==> r.error != Interrupted
    {
      var tick :| 0 <= tick;
      clock := clock + tick;
      var next := Apply(state, e, clock);
      if next.Err? { return Err(Rejected); }
      var cut: bool, landed: bool := *, *;
      if !cut || landed {
        EventKeepsPlan(plan, state, e, clock);
        EventKeepsLog(plan, state, e, clock, executed, succeeded);
        state := next.value;
        succeeded := Recorded(succeeded, state);
      }
      if cut {
        var crash: bool := *;
        return Err(if crash then Crashed else StorageFailed);
      }
      return Ok(state);
    }

    /** A step's executor is entered. */
    ghost method LogExecution(index: int, attempt: int)
      requires Inv()
      requires state.currentStep.Some? && state.currentStep.value.phase == Started
      requires state.currentStep.value.index == index && state.currentStep.value.attempt == attempt
      requires plan.RunsOnce(index) ==> forall e | e in executed && e.index == index :: e.attempt < attempt
      modifies this`executed
      ensures Inv() && executed == old(executed) + [Execution(index, attempt, old(succeeded))]
    {
      executed := executed + [Execution(index, attempt, succeeded)];
    }

    /** A process is spawned for a step that has been reached. */
    ghost method LogSpawn(index: int)
      requires Inv() && state.currentStep.Some? && 0 <= index <= state.currentStep.value.index
      requires plan.steps[index].kind == FireAndForget && NoActiveProcess(state, plan.steps[index].id)
      modifies this`spawned
      ensures Inv()
      ensures var id := plan.steps[index].id;
              spawned == old(spawned) + [Spawn(id, index, FindProcess(old(state).processes, id), old(succeeded))]
    {
      var id := plan.steps[index].id;
      spawned := spawned + [Spawn(id, index, FindProcess(state.processes, id), succeeded)];
    }
  }
}
